/** The order history table (src/components/profile/order-history/OrderHistory.tsx):
    the status chip's colour and text, and the choice between the empty
    state and one row per order. */
module Orders {
  import JsText
  import opened ProfileTypes

  const Green := "#10b981"
  const Grey := "#6b7280"
  const Red := "#ef4444"
  const Amber := "#f59e0b"

  const EmptyMessage := "No orders yet. Start shopping to see your order history here!"

  /** `getStatusColor`: green for delivered, grey for processing, red for
      cancelled, and amber for every other text, pending included. */
  function StatusColor(status: string): (c: string)
    ensures c == Green <==> status == "delivered"
    ensures c == Grey <==> status == "processing"
    ensures c == Red <==> status == "cancelled"
    ensures c == Amber <==> status !in {"delivered", "processing", "cancelled"}
  {
    if status == "delivered" then Green
    else if status == "processing" then Grey
    else if status == "cancelled" then Red
    else Amber
  }

  /** The four statuses of an order get four different colours. */
  lemma StatusColorsDistinct(a: OrderStatus, b: OrderStatus)
    requires a != b
    ensures StatusColor(StatusText(a)) != StatusColor(StatusText(b))
  {
  }

  /** `status.charAt(0).toUpperCase() + status.slice(1)`: the first character
      upper-cased, the rest as it was; the empty text stays empty. */
  function StatusLabel(status: string): (text: string)
    ensures |text| == |status|
    ensures status == "" ==> text == ""
    ensures status != "" ==> text[0] == JsText.UpperChar(status[0]) && text[1..] == status[1..]
  {
    if status == "" then "" else [JsText.UpperChar(status[0])] + status[1..]
  }

  /** Labelling a label changes nothing more. */
  lemma StatusLabelIdempotent(status: string)
    ensures StatusLabel(StatusLabel(status)) == StatusLabel(status)
  {
    if status != "" {
      var shown := StatusLabel(status);
      assert JsText.UpperChar(shown[0]) == shown[0];
      assert StatusLabel(shown) == [shown[0]] + shown[1..];
    }
  }

  /** The labels of the four statuses. */
  lemma StatusLabels()
    ensures StatusLabel(StatusText(Pending)) == "Pending"
    ensures StatusLabel(StatusText(Processing)) == "Processing"
    ensures StatusLabel(StatusText(Delivered)) == "Delivered"
    ensures StatusLabel(StatusText(Cancelled)) == "Cancelled"
  {
    Capitalised("pending", 'P');
    Capitalised("processing", 'P');
    Capitalised("delivered", 'D');
    Capitalised("cancelled", 'C');
  }

  /** The label of a status whose first letter has the capital `upper`. */
  lemma Capitalised(status: string, upper: char)
    requires status != "" && 'a' <= status[0] <= 'z'
    requires upper as int == status[0] as int - 'a' as int + 'A' as int
    ensures StatusLabel(status) == [upper] + status[1..]
  {
    assert JsText.UpperChar(status[0]) == upper;
  }

  /** One table row: the order id, date, total and the status chip. */
  datatype Row = Row(key: string, orderId: string, date: string, total: real,
                     chip: string, color: string)

  function RowOf(o: Order): Row {
    Row(o.id, o.orderId, o.date, o.total, StatusLabel(StatusText(o.status)), StatusColor(StatusText(o.status)))
  }

  /** What the card shows below its heading. */
  datatype View = EmptyState(message: string) | Table(rows: seq<Row>)

  /** No orders show the empty-state message; otherwise the table has one
      row per order, in the given order. */
  function Render(orders: seq<Order>): (v: View)
    ensures v.EmptyState? <==> orders == []
    ensures v.EmptyState? ==> v.message == EmptyMessage
    ensures v.Table? ==> (|v.rows| == |orders| &&
      forall i :: 0 <= i < |orders| ==> v.rows[i] == RowOf(orders[i]))
  {
    if |orders| == 0 then EmptyState(EmptyMessage)
    else Table(seq(|orders|, i requires 0 <= i < |orders| => RowOf(orders[i])))
  }

  /** Each row's chip carries its own order's status and nothing else: a row
      shows "Delivered" in green exactly when its order was delivered. */
  lemma RowsShowStatus(orders: seq<Order>, i: nat)
    requires i < |orders|
    ensures Render(orders).Table?
    ensures Render(orders).rows[i].color == Green <==> orders[i].status == Delivered
    ensures Render(orders).rows[i].color == Amber <==> orders[i].status == Pending
    ensures Render(orders).rows[i].key == orders[i].id
  {
    var s := orders[i].status;
    assert s == Delivered <==> StatusText(s) == "delivered";
    assert s == Pending <==> StatusText(s) !in {"delivered", "processing", "cancelled"};
  }
}
