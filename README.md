# Storefront front end: verified model of its page logic

This project models the self-contained logic of a small storefront written as
React pages and components, and proves properties of it in Dafny. The
storefront sells dresses and perfumes and has accounts for customers and
sellers. The model covers seven pieces:

- **The dress catalogue** (`Catalog`, `Dress`). An inclusive price filter,
  then case-insensitive size and colour filters. Then a stable sort under one
  of four keys (featured, price up, price down, newest). The page cursor goes
  back to 1, and the list is cut into pages of nine. The sort exists twice:
  as a function (`Catalog.SortBy`, insertion into a sorted prefix) and as an
  in-place method over an `array` (`Dress.SortInPlace`) proved equal to it.
  The page's React state is the class `Dress.DressPage`. Every handler
  re-establishes the invariant that the shown list is the filter and sort of
  the full product list at page 1.
- **The registration wizard** (`Registration`). A three-step dialog over a
  form record and an error line. It has guarded Next and Back moves, a fixed
  order of submit checks, and a request body whose shape depends on the role.
- **Product creation for sellers** (`Sell`). The seller guard, the capped
  image selection, and comma-list parsing (split, trim, drop empty). Also the
  submit checks and the multipart body, modelled as an ordered list of
  (key, value) entries. It is built by successive appends and proved equal
  to a declarative description key by key.
- **The profile sidebar** (`Sidebar`). Picture path to URL, the upload type
  and size checks, and the update of the stored user record after an upload.
- **A seller's product list** (`SellerProducts`). Loading, deleting one
  product and deleting all, each applied only once the server agrees.
- **Order history** (`Orders`). The status colour, the capitalised status
  label, and the choice between the empty state and one row per order.
- **The profile page** (`Profile`, `ProfileTypes`). Normalisation of the
  loosely typed backend user record (the `||` defaults against the `??`
  defaults), the update merge that never touches the picture, logout, and
  the role-dependent choice of section.

Shared modules stand for the JavaScript built-ins the pages use:

- `JsText`: `trim` with the ECMAScript white-space set, ASCII case mapping,
  `startsWith`, `split(',')` and its inverse `join(',')`;
- `JsArray`: `filter`, `slice` with its index clamping, `reverse`;
- `Json`: flat JSON objects, their truthiness, and what `{...v}` copies from a parsed value that is not an object;
- `Browser`: `localStorage` as a class over a map, each stored string classified by what `JSON.parse` makes of it;
- `Uploads`: the uploads URL prefix.

Network responses, the user's answer to `confirm`, and the files picked in a
file input are parameters of the methods. Alerts are returned as strings, and
navigation is returned as a boolean.

## Model

| member | source | states |
|---|---|---|
| Catalog.LowerAll | src/app/dress/page.tsx:78 | each value of the product's list is lower-cased position by position; the length is kept |
| Catalog.AnySelected | src/app/dress/page.tsx:78 | true exactly when some selected label equals some product value ignoring case |
| Catalog.AnySelectedSymmetric | src/app/dress/page.tsx:78 | the case-insensitive match gives the same answer with its two lists swapped |
| Catalog.StagePasses | src/app/dress/page.tsx:78-86 | a size or colour stage with nothing selected keeps every product, otherwise it needs a case-insensitive match; `Catalog.AdmitsMeaning` states it |
| Catalog.Admits | src/app/dress/page.tsx:71-87 | a product survives the price stage and both list stages; `Catalog.AdmitsMeaning` and `Catalog.StagedFilter` state what that means |
| Catalog.Compare | src/app/dress/page.tsx:87-99 | the four comparators, negative when the first product goes first; `Catalog.CompareMeaning` states what each decides |
| Catalog.CompareMeaning | src/app/dress/page.tsx:87-99 | featured puts a featured product before a plain one and ties otherwise; price up and price down order by price either way with equal prices tying; newest puts the newer date first, an undated product after every dated one, and ties exactly on equal dates |
| Catalog.StagedFilter | src/app/dress/page.tsx:71-87 | running the price stage, then the size stage only when sizes are selected, then the colour stage only when colours are selected, keeps exactly the admitted products of the full list, in source order |
| Catalog.AdmitsMeaning | src/app/dress/page.tsx:73-87 | a product is admitted iff low <= price <= high (both ends inclusive) and each active stage finds a case-insensitive match; a missing sizes or colours list fails an active stage; with no selection only the price decides |
| Catalog.CompareAntisymmetric | src/app/dress/page.tsx:89-97 | each of the four comparators changes sign when its arguments are swapped |
| Catalog.CompareTransitive | src/app/dress/page.tsx:89-97 | "sorts no later than" is transitive under each comparator |
| Catalog.CompareTieTransitive | src/app/dress/page.tsx:89-97 | a tie is transitive under each comparator; this is the consistency the as-written comparators lack |
| Catalog.FeaturedAsWritten | src/app/dress/page.tsx:90 | the featured comparator as written has a numeric value exactly when both products carry a boolean flag (otherwise it is NaN) |
| Catalog.NewestAsWritten | src/app/dress/page.tsx:96 | the newest comparator as written has a numeric value exactly when both products have a parseable date (otherwise it is NaN) |
| Catalog.FeaturedAsWrittenInconsistent | src/app/dress/page.tsx:90 | a featured, an unflagged and a plain product: the unflagged one ties with both while the featured one sorts before the plain one, so ties are not transitive |
| Catalog.NewestAsWrittenInconsistent | src/app/dress/page.tsx:96 | a newer, an undated and an older product give the same non-transitive tie pattern |
| Catalog.CompareAgreesAsWritten | src/app/dress/page.tsx:89-97 | wherever the source's comparator has a numeric value, the model's comparator gives that value |
| Catalog.SortBy | src/app/dress/page.tsx:88-98 | the stable sort `items.sort(cmp)` performs, built by insertion; `Catalog.SortPermutes`, `Catalog.SortSorted` and `Catalog.SortStable` state that it is one |
| Catalog.SortPermutes | src/app/dress/page.tsx:89-97 | the sort returns a permutation of its input |
| Catalog.SortSorted | src/app/dress/page.tsx:89-97 | the sort's result is in comparator order |
| Catalog.SortStable | src/app/dress/page.tsx:89-97 | products that tie keep their relative order (the sort is stable) |
| Catalog.FeaturedFirst | src/app/dress/page.tsx:90 | under featured, the result is the featured products in source order followed by the others in source order |
| Catalog.SortedUnique | src/app/dress/page.tsx:89-97 | two sorted permutations of the same products without ties are equal |
| Catalog.DistinctPricesReverse | src/app/dress/page.tsx:92-94 | with distinct prices, price-down order is exactly price-up order reversed |
| Catalog.ListingMembers | src/app/dress/page.tsx:71-98 | every listed product comes from the full list (as a sub-multiset), and a product is listed iff it is in the full list and admitted |
| Catalog.ListingOrder | src/app/dress/page.tsx:89-98 | price up gives non-decreasing prices, price down non-increasing, newest puts newer dates first and undated products last, featured puts featured products first |
| Catalog.Listing | src/app/dress/page.tsx:71-98 | the list the page shows, the admitted products sorted; `Catalog.ListingMembers` and `Catalog.ListingOrder` state its contents and order |
| Dress.TotalPages | src/app/dress/page.tsx:102 | at least one page, exactly one for an empty list, otherwise the least count of 9-product pages that holds the list |
| Dress.PageItems | src/app/dress/page.tsx:103 | at most nine products; for a page in range, the run of the list that starts at (page - 1) * 9 |
| Dress.PageOfItem | src/app/dress/page.tsx:102-103 | every product is shown on exactly one page in range, at the matching place |
| Dress.Toggle | src/app/dress/page.tsx:105-108 | a present value is removed with all its copies and the others are kept; an absent value is appended at the end |
| Dress.ToggleRemoves | src/app/dress/page.tsx:106 | removing a present value drops exactly its copies, keeping every other value with its multiplicity, and the other values keep their order |
| Dress.DropCount | src/app/dress/page.tsx:106 | filtering out a value takes away all its copies and nothing else |
| Dress.ToggleTwice | src/app/dress/page.tsx:105-108 | toggling the same value twice restores the original membership |
| Dress.ToggleTwiceExact | src/app/dress/page.tsx:107 | toggling an absent value twice restores the original list itself |
| Dress.FilterStages | src/app/dress/page.tsx:71-87 | the three staged filters leave exactly the products the selection admits, in source order |
| Dress.SortedCopy | src/app/dress/page.tsx:88-97 | the filtered products, sorted in place in an array of their own, read back as their stable sort under the key |
| Dress.SortInPlace | src/app/dress/page.tsx:89-97 | the in-place sort leaves the array holding the stable sort of its old contents |
| Dress.DressPage.constructor | src/app/dress/page.tsx:43-50 | the initial state: no products, page 1, featured order, no sizes or colours, price range 0 to 1000 |
| Dress.DressPage.Visible | src/app/dress/page.tsx:103 | the current page shows at most nine products, each from the full list and admitted by the current filter |
| Dress.DressPage.Recompute | src/app/dress/page.tsx:70-100 | the shown list becomes the filter and sort of the full list, the page becomes 1, and the selection is unchanged |
| Dress.DressPage.SetProducts | src/app/dress/page.tsx:61 | new products are listed under the current selection from page 1 |
| Dress.DressPage.ToggleSize | src/app/dress/page.tsx:145 | the size selection is toggled, the list recomputed, the page reset to 1 |
| Dress.DressPage.ToggleColor | src/app/dress/page.tsx:112 | the colour selection is toggled, the list recomputed, the page reset to 1 |
| Dress.DressPage.SetSortBy | src/app/dress/page.tsx:185 | the order changes, the list is recomputed from page 1 |
| Dress.DressPage.SetPriceRange | src/app/dress/page.tsx:169 | the price range changes, the list is recomputed from page 1 |
| Dress.DressPage.PreviousPage | src/app/dress/page.tsx:227 | one page back, never below page 1 |
| Dress.DressPage.NextPage | src/app/dress/page.tsx:231 | one page on, never past the last page |
| Dress.DressPage.GoToPage | src/app/dress/page.tsx:229 | a numbered button selects its own page, which is in range |
| Registration.With | src/components/auth/RegisterDialog.tsx:46-49 | writing a field sets that field and leaves every other field and the role unchanged |
| Registration.WithLaws | src/components/auth/RegisterDialog.tsx:47 | writing a field's own value changes nothing; a second write to a field overrides the first |
| Registration.RegisterError | src/components/auth/RegisterDialog.tsx:73-87 | the first failing check in order: mismatched passwords, then fewer than 6 characters, then a seller with a blank trimmed business name; none iff all pass |
| Registration.CustomerIgnoresBusinessName | src/components/auth/RegisterDialog.tsx:84 | for a customer the business name never affects the checks |
| Registration.RegisterPayload | src/components/auth/RegisterDialog.tsx:95-103 | the body's keys in order; businessName is present iff the role is seller; confirmPassword is never sent |
| Registration.PayloadValues | src/components/auth/RegisterDialog.tsx:95-103 | each key carries the form's own value, and the role its name |
| Registration.PayloadRoundTrip | src/components/auth/RegisterDialog.tsx:95-103 | reading the body back gives the form, minus the business name for a customer |
| Registration.RegisterDialog.constructor | src/components/auth/RegisterDialog.tsx:31-42 | step 1, the initial form (role customer, all texts empty), no error |
| Registration.RegisterDialog.Change | src/components/auth/RegisterDialog.tsx:46-49 | the one field changes, the error clears, the step stays |
| Registration.RegisterDialog.ChooseRole | src/components/auth/RegisterDialog.tsx:219 | only the role changes |
| Registration.RegisterDialog.Next | src/components/auth/RegisterDialog.tsx:51-61 | step 1 moves to 2 iff both trimmed names are non-empty, otherwise it keeps the step and shows the names message; step 2 always moves to 3; no step is skipped |
| Registration.RegisterDialog.Back | src/components/auth/RegisterDialog.tsx:63-68 | above step 1 one step back with the error cleared; at step 1 nothing changes |
| Registration.RegisterDialog.Register | src/components/auth/RegisterDialog.tsx:70-139 | a failed check shows its message and sends nothing; otherwise the body is sent; success stores token and user and resets to step 1 and the initial form; a refusal shows the server's message or the fallback; an unreachable server shows the connect message |
| Registration.RegisterDialog.Proceed | src/components/auth/RegisterDialog.tsx:452 | the main button registers on step 3 and moves on before it, never sending a request before step 3 |
| Registration.RegisterDialog.ShowsBack | src/components/auth/RegisterDialog.tsx:432-450 | the Back button shows exactly on steps 2 and 3 |
| Sell.With | src/app/sell/page.tsx:77-80 | writing a field sets that field and leaves the others unchanged |
| Sell.TrimAll | src/app/sell/page.tsx:117 | every part trimmed, in order |
| Sell.ParseList | src/app/sell/page.tsx:117 | the parsed list holds no empty item |
| Sell.ParseListItems | src/app/sell/page.tsx:117 | every item is trimmed and holds no comma |
| Sell.ParseEmpty | src/app/sell/page.tsx:116-118 | an empty field yields no items, so the `if` around each list appends nothing either way |
| Sell.ParseAtComma | src/app/sell/page.tsx:117 | parsing text joined at a comma is parsing each side and concatenating, so the input order is kept |
| Sell.ParseJoin | src/app/sell/page.tsx:117 | a list of non-empty, trimmed, comma-free items survives joining with commas and parsing back |
| Sell.SubmitError | src/app/sell/page.tsx:89-100 | the first failing check in order: no category, then an empty name, price or stock quantity, then no image; none iff all pass |
| Sell.WireNamesDistinct | src/app/sell/page.tsx:110-129 | the thirteen field names of the body are pairwise distinct |
| Sell.BodyValues | src/app/sell/page.tsx:109-129 | exactly one entry each for name, price, stockQuantity and categoryId; one images entry per selected file in order; the parsed sizes, colours and tags in order |
| Sell.OptionalFields | src/app/sell/page.tsx:111-126 | description, originalPrice, sku, brand and weight appear once iff non-empty, otherwise not at all |
| Sell.BodyBlocks | src/app/sell/page.tsx:109-129 | the body is the thirteen blocks in the order of the appends |
| Sell.Body | src/app/sell/page.tsx:109-129 | the form body, the thirteen blocks in append order; `Sell.BodyValues`, `Sell.OptionalFields` and `Sell.BodyBlocks` state its contents |
| Sell.SellerGuard | src/app/sell/page.tsx:47-61 | the page stays iff a stored user record has role "seller"; no stored user, an unparsable one, or a parsed `null`, boolean or string sends the visitor away |
| Sell.FindCategory | src/app/sell/page.tsx:168 | the first category with that id, or none iff no category has it |
| Sell.SellPage.constructor | src/app/sell/page.tsx:25-43 | no categories or selection, loading, not submitting, every field empty, no images |
| Sell.SellPage.Mount | src/app/sell/page.tsx:45-75 | a refused visitor is sent away with nothing loaded; otherwise loading ends, a response replaces the categories (null reads as empty), a failure keeps them |
| Sell.SellPage.Change | src/app/sell/page.tsx:77-80 | only the one form field changes |
| Sell.SellPage.ChooseCategory | src/app/sell/page.tsx:166-170 | the category id is written and the selected category is the first one with that id |
| Sell.SellPage.HandleImages | src/app/sell/page.tsx:82-85 | at most the first six files, in order; no file list is no files |
| Sell.SellPage.AppendAll | src/app/sell/page.tsx:117 | successive appends add every value under its key, in order |
| Sell.SellPage.BuildBody | src/app/sell/page.tsx:109-129 | the appends build exactly the body described key by key |
| Sell.SellPage.HandleSubmit | src/app/sell/page.tsx:87-155 | a failed check alerts and changes nothing; without a token it alerts and sends nothing; otherwise it sends the token and the body; success empties form and images; a refusal or failure keeps them; submitting is false after every attempt that passed the checks |
| Sell.SellPage.ShowsDetails | src/app/sell/page.tsx:177-181 | the details form appears only once a category is chosen; `Sell.SellPage.ShowsWeight` states how its two parts divide |
| Sell.SellPage.ShowsSizesAndColors | src/app/sell/page.tsx:204-214 | sizes and colours are offered only with a chosen category, and not for perfume |
| Sell.SellPage.ShowsWeight | src/app/sell/page.tsx:215-220 | the volume field shows exactly when a category is chosen and sizes and colours do not, so one of the two shows for every category |
| Sidebar.ProfilePictureUrl | src/components/profile/ProfileSidebar.tsx:40-48 | no URL for a missing or empty path; an http or data: path as it is; any other path under the uploads prefix |
| Sidebar.ProfilePictureUrlStable | src/components/profile/ProfileSidebar.tsx:43-47 | every produced URL is absolute or a data URL, so resolving it again changes nothing |
| Sidebar.UploadCheck | src/components/profile/ProfileSidebar.tsx:88-98 | the type check comes first (only JPEG, JPG, PNG), then the size check (more than 2 MiB refused); none iff both pass |
| Sidebar.UploadLimit | src/components/profile/ProfileSidebar.tsx:95 | exactly 2 MiB passes, one byte more is refused, an unlisted type is refused whatever its size |
| Sidebar.WithPicture | src/components/profile/ProfileSidebar.tsx:131-132 | the record takes the server's picture value and keeps every other key and value |
| Sidebar.ProfileSidebar.constructor | src/components/profile/ProfileSidebar.tsx:50-52 | the picture state starts as the user's own picture when non-empty |
| Sidebar.ProfileSidebar.AvatarSource | src/components/profile/ProfileSidebar.tsx:162 | the avatar shows the non-empty picture state, otherwise the user's own picture |
| Sidebar.ProfileSidebar.HandleImageChange | src/components/profile/ProfileSidebar.tsx:84-146 | no file does nothing; a failed check alerts its message; no token alerts the login message; otherwise the file is sent, success sets the picture state and updates only the picture of a stored user record, while non-empty text that does not parse or a parsed scalar leaves storage alone and alerts the save failure; a refusal or failure alerts and changes nothing |
| SellerProducts.ImageUrl | src/components/profile/seller/MyProducts.tsx:18 | no URL without a non-empty first image, otherwise the uploads prefix followed by it |
| SellerProducts.DeleteRemovesExactly | src/components/profile/seller/MyProducts.tsx:52 | exactly the products with another id remain |
| SellerProducts.DeleteKeepsOrder | src/components/profile/seller/MyProducts.tsx:52 | the deletion distributes over concatenation and leaves a list without that id as it is, so the rest keep their order |
| SellerProducts.DeleteIdempotent | src/components/profile/seller/MyProducts.tsx:52 | deleting an id twice is deleting it once |
| SellerProducts.Other | src/components/profile/seller/MyProducts.tsx:52 | the test that keeps a product with another id; `SellerProducts.DeleteRemovesExactly` states what the filter leaves |
| SellerProducts.MyProducts.constructor | src/components/profile/seller/MyProducts.tsx:15-16 | no products, loading |
| SellerProducts.MyProducts.Load | src/components/profile/seller/MyProducts.tsx:20-34 | loading ends false on every path; the request is sent iff a token is stored; a response replaces the list (null reads as empty); a failure keeps it |
| SellerProducts.MyProducts.HandleDelete | src/components/profile/seller/MyProducts.tsx:40-56 | a declined confirm sends nothing; a confirmed success removes that id; a refusal or failure alerts and keeps the list |
| SellerProducts.MyProducts.HandleDeleteAll | src/components/profile/seller/MyProducts.tsx:58-74 | only a confirmed success empties the list; otherwise it is kept |
| SellerProducts.MyProducts.ShowsDeleteAll | src/components/profile/seller/MyProducts.tsx:76-86 | Delete All shows only for a loaded, non-empty list; `SellerProducts.MyProducts.ShowsEmptyLine` relates the two |
| SellerProducts.MyProducts.ShowsEmptyLine | src/components/profile/seller/MyProducts.tsx:106-108 | once loaded, the empty line shows exactly when Delete All does not, and never together with it |
| Orders.StatusColor | src/components/profile/order-history/OrderHistory.tsx:26-37 | green iff delivered, grey iff processing, red iff cancelled, amber iff any other text |
| Orders.StatusColorsDistinct | src/components/profile/order-history/OrderHistory.tsx:26-37 | the four order statuses get four different colours |
| Orders.StatusLabel | src/components/profile/order-history/OrderHistory.tsx:39-41 | the first character upper-cased and the rest unchanged; the length is kept; the empty text stays empty |
| Orders.StatusLabelIdempotent | src/components/profile/order-history/OrderHistory.tsx:40 | labelling a label changes nothing |
| Orders.StatusLabels | src/components/profile/order-history/OrderHistory.tsx:39-41 | the four statuses read Pending, Processing, Delivered, Cancelled |
| Orders.Render | src/components/profile/order-history/OrderHistory.tsx:55-108 | the empty state with its message iff there are no orders, otherwise one row per order in the given order |
| Orders.RowsShowStatus | src/components/profile/order-history/OrderHistory.tsx:55-108 | a row is green iff its own order was delivered, amber iff it is pending, and is keyed by its order's id |
| Profile.TextOr | src/app/profile/page.tsx:111-117 | `x || fallback`: a truthy text is kept, `true` shows as "true", a falsy or missing value gives the fallback |
| Profile.FlagOr | src/app/profile/page.tsx:118-119 | `x ?? fallback`: only a missing or null flag gives the fallback, so an explicit false is kept |
| Profile.TextIfPresent | src/app/profile/page.tsx:120 | `x || undefined`: a value iff the key holds a truthy value, never the empty text |
| Profile.TextAsIs | src/app/profile/page.tsx:121-124 | the text is copied as it is, with a missing or null value as undefined |
| Profile.FlagAsIs | src/app/profile/page.tsx:125 | a boolean flag is copied; a missing, null or non-boolean value reads as undefined |
| Profile.NormaliseDefaults | src/app/profile/page.tsx:110-126 | falsy id, email, names, phone and address become empty, a falsy role becomes customer, isActive defaults to true and emailVerified to false only when missing or null, an empty picture becomes undefined |
| Profile.NormaliseKeeps | src/app/profile/page.tsx:110-117 | a non-empty text the record carries is kept, and the role is never empty |
| Profile.Normalise | src/app/profile/page.tsx:110-126 | the profile literal built from a backend record, shared by the fresh and the fallback path; `Profile.NormaliseDefaults` and `Profile.NormaliseKeeps` state its defaults |
| Profile.MergeLaws | src/app/profile/page.tsx:195-198 | the merge never changes the picture and ignores a given picture; an empty patch changes nothing; applying a patch twice is applying it once |
| Profile.MergeFields | src/app/profile/page.tsx:198 | a given field overrides, an absent field keeps the user's own value |
| Profile.Merge | src/app/profile/page.tsx:195-198 | `{...user, ...rest}` over the profile, the picture left out; `Profile.MergeLaws` and `Profile.MergeFields` state it |
| Profile.PatchJson | src/app/profile/page.tsx:195-206 | the stored patch never carries a picture |
| Profile.PatchJsonFields | src/app/profile/page.tsx:206 | the stored patch has a key iff the patch gives that field, with that value |
| Profile.PatchJsonNoChange | src/app/profile/page.tsx:206 | an empty patch adds no key to the stored record |
| Profile.FallbackRecord | src/app/profile/page.tsx:132-156 | a missing or empty key, text that does not parse and a parsed `null` give nothing (the redirect); a parsed object gives its fields; any other parsed value gives the empty record |
| Profile.FallbackOnScalar | src/app/profile/page.tsx:135-152 | a stored `true` or string reads as the all-default profile: empty texts, role "customer", active, unverified, no picture |
| Profile.UpdatedRecord | src/app/profile/page.tsx:200-206 | text that does not parse gives nothing; a parsed object takes the patch over its fields; a parsed scalar is spread first and then takes the patch |
| Profile.UpdateOverScalar | src/app/profile/page.tsx:203-204 | over a parsed `null` or boolean the written record is the patch alone; over any scalar it has no picture and carries the patch's fields as given |
| Profile.SpreadUnder | src/app/profile/page.tsx:203-204 | spreading a scalar before an object without a picture adds no picture and lets the object win on every key |
| Profile.StoredMergeKeepsPicture | src/app/profile/page.tsx:206 | the stored record keeps its picture and every key the patch does not give |
| Profile.RenderSection | src/app/profile/page.tsx:232-255 | nothing without a user; personal info shows the seller form iff the user is a seller and the plain form otherwise; my products shows a list for a seller and nothing for others; orders and settings always |
| Profile.NonSellerViews | src/app/profile/page.tsx:238-250 | a non-seller never sees a seller's form or product list |
| Profile.ProfilePage.constructor | src/app/profile/page.tsx:73-77 | no user, loading, the personal-info section |
| Profile.ProfilePage.View | src/app/profile/page.tsx:258-268 | loading shows the loading screen, no user shows nothing, otherwise the chosen section |
| Profile.ProfilePage.Load | src/app/profile/page.tsx:80-162 | no token redirects and changes nothing; a response is stored and normalised, the all-default profile for a body of `true` or a string, and a body of `null` is stored and then redirects; a failure normalises what `Profile.FallbackRecord` reads from storage, or redirects exactly when it reads nothing; loading ends false once the request was sent |
| Profile.ProfilePage.Fallback | src/app/profile/page.tsx:128-156 | the catch of the load effect: the user becomes the normalised `Profile.FallbackRecord` of storage, or the page redirects exactly when that is nothing, with the user unchanged |
| Profile.ProfilePage.HandleUserUpdate | src/app/profile/page.tsx:188-212 | no user changes nothing; otherwise the user is merged with the patch, and storage holds the record `Profile.UpdatedRecord` gives, or stays as it was when the stored text does not parse |
| Profile.ProfilePage.WriteBack | src/app/profile/page.tsx:200-210 | storage takes exactly the record `Profile.UpdatedRecord` gives under the user key, and is unchanged when there is none |
| Profile.ProfilePage.ChangeSection | src/app/profile/page.tsx:214-216 | the chosen section becomes active |
| Profile.ProfilePage.HandleLogout | src/app/profile/page.tsx:218-226 | both the token and the user key are removed, nothing else changes, and the page redirects |
| Uploads.FirstImageUrl | src/app/dress/page.tsx:39 | a URL iff there is a non-empty first image, and it is the uploads prefix followed by that image |
| Json.MessageOr | src/components/auth/RegisterDialog.tsx:134 | `message \|\| fallback`: a non-empty message is kept, otherwise the fallback; never empty |
| Json.IndexName | src/app/profile/page.tsx:204 | the name of an index is a non-empty run of decimal digits, one digit long exactly below ten |
| Json.IndexNameInjective | src/app/profile/page.tsx:204 | two indices with the same name are equal |
| Json.CharEntries | src/app/profile/page.tsx:204 | every key spreading a string produces is a decimal numeral |
| Json.CharEntriesKeys | src/app/profile/page.tsx:204 | every key is the index of some character |
| Json.CharEntriesAt | src/app/profile/page.tsx:204 | each character is stored, as a one-character string, under its own index |
| Json.SpreadOf | src/app/profile/page.tsx:204 | spreading `null` or a boolean gives the empty object; every key is a decimal numeral |
| JsText.Trim | src/components/auth/RegisterDialog.tsx:53 | the text without its leading and trailing white space: empty iff all white space, otherwise starting and ending with a non-space |
| JsText.TrimIdempotent | src/components/auth/RegisterDialog.tsx:53 | trimming twice is trimming once |
| JsText.Lower | src/app/dress/page.tsx:78 | each character mapped to lower case, the length kept |
| JsText.LowerIdempotent | src/app/dress/page.tsx:78 | lower-casing twice is lower-casing once |
| JsText.UpperChar | src/components/profile/order-history/OrderHistory.tsx:40 | a lower-case ASCII letter maps to its capital, every other character to itself |
| JsText.SplitComma | src/app/sell/page.tsx:117 | a split always has at least one part |
| JsText.SplitCommaFree | src/app/sell/page.tsx:117 | no part of a split holds a comma |
| JsText.JoinSplit | src/app/sell/page.tsx:117 | joining the parts with commas gives the text back |
| JsText.SplitJoin | src/app/sell/page.tsx:117 | splitting comma-free parts joined with commas gives the parts back |
| JsArray.Keep | src/app/dress/page.tsx:73 | the filter keeps no more than its input, and only passing elements |
| JsArray.KeepSubMultiset | src/app/dress/page.tsx:73 | the filtered list is a sub-multiset of its input |
| JsArray.KeepMembers | src/app/dress/page.tsx:73 | an element is kept iff it is in the input and passes |
| JsArray.KeepKeep | src/app/dress/page.tsx:73-87 | two filters in a row are one filter by the conjunction |
| JsArray.Slice | src/app/dress/page.tsx:103 | `slice` with in-range bounds is the subsequence, with an end past the length the suffix, and never longer than the input or the range |

## Left out

- Network calls are not modelled: each response is a parameter, a datatype of its possible outcomes.
- The sequential category-then-products fetch that fills the dress list (src/app/dress/page.tsx:52-68) is not modelled; `Dress.DressPage.SetProducts` takes its result.
- Window events are left out: the 'storage' event, the 'profilePictureUpdated' broadcast and both of its listeners (src/app/profile/page.tsx:168-182, src/components/profile/ProfileSidebar.tsx:59-68). They are asynchronous plumbing, and the profile page's listener reads a stale user.
- The sidebar's effect that copies the user prop's picture into its state (src/components/profile/ProfileSidebar.tsx:54-57) is left out. It is a prop-sync effect; `Sidebar.ProfileSidebar.constructor` models the initial state.
- Router navigation, `window.location`, `alert` and `confirm` are outputs or inputs: a returned flag, a returned message, a boolean parameter.
- JSON parsing and serialisation are foreign calls. A stored value is classified by what `JSON.parse` makes of it. `Text` is text that does not parse. `JsonObject` is a parsed object. `JsonScalar` is a parsed `null`, boolean or string.
- JSON numbers and arrays, whether stored whole or nested under a key, are not representable. A JSON value is `null`, a boolean or a string.
- Profile.ProfilePage.Load, Profile.ProfilePage.HandleUserUpdate: a stored number or array (`"5"`, `"[1]"`), or a response body that is one, is not modelled, because JSON numbers and arrays are not representable. In the source the fallback reads either one as the all-default profile without a redirect. The update writes the patch alone over a number, and over an array it writes the array's elements under their indices followed by the patch.
- Module code runs in strict mode, so assigning a property on a parsed primitive throws (`Sidebar.ProfileSidebar.HandleImageChange`).
- Floating point is not modelled. `Number(...)`, `toFixed(2)` and JSON numbers are out; prices are exact reals, and dates are already-parsed timestamps.
- Catalog.Compare: a product whose `isFeatured` is not a boolean ranks as not featured, and a product without a parseable date sorts as the oldest. The source produces a NaN comparison for both (see Findings).
- JsText.Lower, JsText.UpperChar: case mapping covers ASCII only; no locale or Unicode case folding.
- Strings are sequences of characters; UTF-16 code units are not distinguished.
- A `data || []` whose body is a non-array error object (MyProducts load, sell categories) is not modelled. A successful response carries a list or null.
- The patch of `handleUserUpdate` gives each field or omits it; a field explicitly set to `undefined` is not distinguished from an omitted one.
- A boolean under a text field of the backend record shows as its text. `true` or its text "true" is kept; `false` gives the fallback, like every falsy value. A number or a nested value under a text field is not representable.
- Markup and styling are left out, except for the conditions that choose what is shown (category details, Back button, Delete All, empty states).
- Sell.SellPage.HandleSubmit: sizes and colours are still sent for a perfume category, as in the source. The selected category is not reset after success, also as in the source.
- SellerProducts.MyProducts.HandleDelete: the request is sent with whatever token is stored, absent included, as in the source; the token is therefore not a parameter.
- Profile.FlagOr, Profile.FlagAsIs: a string under `isActive`, `emailVerified` or `isVerifiedSeller` is not kept. The source's `??` and plain copy keep it as it is (`"no"`, `""`), but the profile's flags are booleans. `FlagOr` keeps its truthiness, and `FlagAsIs` reads it as undefined.
- Profile.ProfilePage.Load: on the no-token redirect `loading` stays as it was, as in the source, where the early return precedes the `finally`.

## Findings

| source | as written | input that shows it | evidently intended | confidence | as-written member | corrected member |
|---|---|---|---|---|---|---|
| src/app/dress/page.tsx:90 | `Number(b.isFeatured) - Number(a.isFeatured)` is NaN when either flag is undefined, and a NaN comparison counts as a tie | a featured product, one without the flag, and a plain one: the unflagged one ties with both, but featured sorts before plain, so the comparator is inconsistent and the resulting order is implementation-defined | treat a missing flag as not featured, so ties are transitive and the sort is a stable total preorder | not executed | Catalog.FeaturedAsWrittenInconsistent | Catalog.CompareTieTransitive |
| src/app/dress/page.tsx:96 | `new Date(x.createdAt \|\| '').getTime()` is NaN for a missing or unparseable date, so the difference is NaN and counts as a tie | a newer dated product, an undated one, and an older dated one: the undated one ties with both, but newer sorts before older; the comparator is inconsistent | undated products sort after every dated one, so ties are transitive | not executed | Catalog.NewestAsWrittenInconsistent | Catalog.CompareTieTransitive |
