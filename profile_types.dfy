/** The records of the profile area (src/components/profile/types.ts). */
module ProfileTypes {
  import opened Wrappers

  /** The tabs of the profile page. */
  datatype ProfileSection = PersonalInfo | OrderHistory | AccountSettings | MyProducts

  /** A user as the profile components see it. The role is kept as the text
      the backend sent (`'customer'`, `'seller'` or `'admin'` in the type). */
  datatype UserProfile = UserProfile(
    id: string,
    email: string,
    firstName: string,
    lastName: string,
    phoneNumber: Option<string>,
    address: Option<string>,
    city: Option<string>,
    state: Option<string>,
    zipCode: Option<string>,
    country: Option<string>,
    role: string,
    isActive: bool,
    emailVerified: bool,
    profilePicture: Option<string>,
    businessName: Option<string>,
    businessDescription: Option<string>,
    businessLicense: Option<string>,
    taxId: Option<string>,
    isVerifiedSeller: Option<bool>)

  datatype OrderStatus = Pending | Processing | Delivered | Cancelled

  /** The string value of each status. */
  function StatusText(s: OrderStatus): string {
    match s
    case Pending => "pending"
    case Processing => "processing"
    case Delivered => "delivered"
    case Cancelled => "cancelled"
  }

  datatype OrderItem = OrderItem(productName: string, quantity: int, price: real)

  datatype Order = Order(id: string, orderId: string, date: string, total: real,
                         status: OrderStatus, items: seq<OrderItem>)
}
