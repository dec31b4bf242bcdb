/** The seller's product-creation page (src/app/sell/page.tsx): who may open
    it, the form, the submit checks and the multipart body the submit sends. */
module Sell {
  import opened Wrappers
  import opened JsArray
  import JsText
  import Json
  import Browser

  datatype Category = Category(id: string, name: string, categoryType: string)

  /** The `form` record: every input holds text. */
  datatype ProductForm = ProductForm(
    name: string,
    description: string,
    price: string,
    originalPrice: string,
    stockQuantity: string,
    sku: string,
    sizes: string,
    colors: string,
    tags: string,
    brand: string,
    weight: string,
    categoryId: string)

  /** The form inputs, by their `name` attribute. */
  datatype ProductField =
    | NameField | DescriptionField | PriceField | OriginalPriceField | StockQuantityField
    | SkuField | SizesField | ColorsField | TagsField | BrandField | WeightField | CategoryIdField

  const EmptyForm := ProductForm("", "", "", "", "", "", "", "", "", "", "", "")
  const MaxImages := 6

  const ChooseCategoryMessage := "Please choose a category first"
  const RequiredMessage := "Please fill required fields: name, price, stockQuantity"
  const ImageMessage := "Please upload at least one product image"
  const LoginMessage := "You must be logged in as a seller"
  const CreateFailedMessage := "Failed to create product"
  const CreatedMessage := "Product created successfully"

  function Get(f: ProductForm, field: ProductField): string {
    match field
    case NameField => f.name
    case DescriptionField => f.description
    case PriceField => f.price
    case OriginalPriceField => f.originalPrice
    case StockQuantityField => f.stockQuantity
    case SkuField => f.sku
    case SizesField => f.sizes
    case ColorsField => f.colors
    case TagsField => f.tags
    case BrandField => f.brand
    case WeightField => f.weight
    case CategoryIdField => f.categoryId
  }

  /** `{ ...prev, [name]: value }`: the named input takes the value, every
      other keeps its own. */
  function With(f: ProductForm, field: ProductField, value: string): (r: ProductForm)
    ensures Get(r, field) == value
    ensures forall g: ProductField :: g != field ==> Get(r, g) == Get(f, g)
  {
    match field
    case NameField => f.(name := value)
    case DescriptionField => f.(description := value)
    case PriceField => f.(price := value)
    case OriginalPriceField => f.(originalPrice := value)
    case StockQuantityField => f.(stockQuantity := value)
    case SkuField => f.(sku := value)
    case SizesField => f.(sizes := value)
    case ColorsField => f.(colors := value)
    case TagsField => f.(tags := value)
    case BrandField => f.(brand := value)
    case WeightField => f.(weight := value)
    case CategoryIdField => f.(categoryId := value)
  }

  // ---------------------------------------------------------------------
  // Comma lists
  // ---------------------------------------------------------------------

  function TrimAll(parts: seq<string>): (r: seq<string>)
    ensures |r| == |parts|
    ensures forall i :: 0 <= i < |parts| ==> r[i] == JsText.Trim(parts[i])
  {
    seq(|parts|, i requires 0 <= i < |parts| => JsText.Trim(parts[i]))
  }

  function NonEmptyTest(): string -> bool {
    (p: string) => p != ""
  }

  /** `s.split(',').map(x => x.trim()).filter(Boolean)`: no item is empty. */
  function ParseList(s: string): (items: seq<string>)
    ensures forall i :: 0 <= i < |items| ==> items[i] != ""
  {
    Keep(TrimAll(JsText.SplitComma(s)), NonEmptyTest())
  }

  /** Every parsed item is trimmed and free of commas, and every one is one
      of the trimmed pieces of the text. */
  lemma ParseListItems(s: string)
    ensures forall i :: 0 <= i < |ParseList(s)| ==>
      ',' !in ParseList(s)[i] && JsText.Trim(ParseList(s)[i]) == ParseList(s)[i]
  {
    var parts := JsText.SplitComma(s);
    JsText.SplitCommaFree(s);
    var trimmed := TrimAll(parts);
    forall i | 0 <= i < |trimmed| ensures ',' !in trimmed[i] && JsText.Trim(trimmed[i]) == trimmed[i] {
      TrimmedPiece(parts[i]);
    }
    KeepMembership(trimmed, NonEmptyTest());
    forall i | 0 <= i < |ParseList(s)|
      ensures ',' !in ParseList(s)[i] && JsText.Trim(ParseList(s)[i]) == ParseList(s)[i]
    {
      assert ParseList(s)[i] in trimmed;
    }
  }

  /** A trimmed piece of a split is trimmed for good and still comma-free. */
  lemma TrimmedPiece(p: string)
    requires ',' !in p
    ensures ',' !in JsText.Trim(p) && JsText.Trim(JsText.Trim(p)) == JsText.Trim(p)
  {
    JsText.TrimIdempotent(p);
    JsText.TrimKeeps(p, ',');
  }

  /** An empty text gives an empty list. */
  lemma ParseEmpty()
    ensures ParseList("") == []
  {
    assert JsText.SplitComma("") == [""];
    assert TrimAll([""]) == [""];
    KeepOne("", NonEmptyTest());
  }

  /** The list of a text joined at a comma is the two lists, one after the
      other: input order is kept. */
  lemma ParseAtComma(a: string, b: string)
    ensures ParseList(a + "," + b) == ParseList(a) + ParseList(b)
  {
    JsText.SplitAtComma(a, b);
    var pa, pb := JsText.SplitComma(a), JsText.SplitComma(b);
    TrimAllAppend(pa, pb);
    KeepAppend(TrimAll(pa), TrimAll(pb), NonEmptyTest());
  }

  /** Trimming every piece of two lists is trimming each list. */
  lemma TrimAllAppend(pa: seq<string>, pb: seq<string>)
    ensures TrimAll(pa + pb) == TrimAll(pa) + TrimAll(pb)
  {
    TrimAllFront(pa, pb);
    TrimAllBack(pa, pb);
  }

  lemma TrimAllFront(pa: seq<string>, pb: seq<string>)
    ensures forall i :: 0 <= i < |pa| ==> TrimAll(pa + pb)[i] == TrimAll(pa)[i]
  {
    forall i | 0 <= i < |pa| ensures TrimAll(pa + pb)[i] == TrimAll(pa)[i] {
      assert (pa + pb)[i] == pa[i];
    }
  }

  lemma TrimAllBack(pa: seq<string>, pb: seq<string>)
    ensures forall i :: |pa| <= i < |pa| + |pb| ==> TrimAll(pa + pb)[i] == TrimAll(pb)[i - |pa|]
  {
    forall i | |pa| <= i < |pa| + |pb| ensures TrimAll(pa + pb)[i] == TrimAll(pb)[i - |pa|] {
      assert (pa + pb)[i] == pb[i - |pa|];
    }
  }

  /** Items that are already non-empty, trimmed and comma-free come back
      unchanged from their comma-joined text. */
  lemma ParseJoin(items: seq<string>)
    requires |items| >= 1
    requires forall i :: 0 <= i < |items| ==>
      items[i] != "" && ',' !in items[i] && JsText.Trim(items[i]) == items[i]
    ensures ParseList(JsText.JoinComma(items)) == items
  {
    JsText.SplitJoin(items);
    assert TrimAll(items) == items;
    KeepAll(items, NonEmptyTest());
  }

  // ---------------------------------------------------------------------
  // Submit checks and the multipart body
  // ---------------------------------------------------------------------

  /** The first failing check of `handleSubmit`: a category, then the three
      required fields, then at least one image. */
  function SubmitError(f: ProductForm, images: seq<Browser.File>): (e: Option<string>)
    ensures e == Some(ChooseCategoryMessage) <==> f.categoryId == ""
    ensures e == Some(RequiredMessage) <==>
      f.categoryId != "" && (f.name == "" || f.price == "" || f.stockQuantity == "")
    ensures e == Some(ImageMessage) <==>
      f.categoryId != "" && f.name != "" && f.price != "" && f.stockQuantity != "" && |images| == 0
    ensures e == None <==>
      f.categoryId != "" && f.name != "" && f.price != "" && f.stockQuantity != "" && |images| > 0
  {
    if f.categoryId == "" then Some(ChooseCategoryMessage)
    else if f.name == "" || f.price == "" || f.stockQuantity == "" then Some(RequiredMessage)
    else if |images| == 0 then Some(ImageMessage)
    else None
  }

  /** The keys of the multipart body. */
  datatype FormKey =
    | NameKey | DescriptionKey | PriceKey | OriginalPriceKey | StockQuantityKey | SkuKey
    | SizesKey | ColorsKey | TagsKey | BrandKey | WeightKey | CategoryIdKey | ImagesKey

  /** The key as sent on the wire. */
  function WireName(k: FormKey): string {
    match k
    case NameKey => "name"
    case DescriptionKey => "description"
    case PriceKey => "price"
    case OriginalPriceKey => "originalPrice"
    case StockQuantityKey => "stockQuantity"
    case SkuKey => "sku"
    case SizesKey => "sizes[]"
    case ColorsKey => "colors[]"
    case TagsKey => "tags[]"
    case BrandKey => "brand"
    case WeightKey => "weight"
    case CategoryIdKey => "categoryId"
    case ImagesKey => "images"
  }

  /** No two keys share a wire name. */
  lemma WireNamesDistinct(a: FormKey, b: FormKey)
    requires a != b
    ensures WireName(a) != WireName(b)
  {
  }

  datatype FormValue = Field(text: string) | Attachment(file: Browser.File)

  type Entry = (FormKey, FormValue)

  /** All values appended under `key`, in order (`fd.getAll(key)`). */
  function ValuesOf(entries: seq<Entry>, key: FormKey): (vs: seq<FormValue>)
    ensures |vs| <= |entries|
    decreases |entries|
  {
    if entries == [] then []
    else (if entries[0].0 == key then [entries[0].1] else []) + ValuesOf(entries[1..], key)
  }

  lemma {:induction false} ValuesOfAppend(a: seq<Entry>, b: seq<Entry>, key: FormKey)
    ensures ValuesOf(a + b, key) == ValuesOf(a, key) + ValuesOf(b, key)
    decreases |a|
  {
    if a == [] {
      assert a + b == b;
    } else {
      var c := a + b;
      assert c[0] == a[0] && c[1..] == a[1..] + b;
      ValuesOfAppend(a[1..], b, key);
      var h := if a[0].0 == key then [a[0].1] else [];
      calc {
        ValuesOf(c, key);
        h + ValuesOf(a[1..] + b, key);
        h + (ValuesOf(a[1..], key) + ValuesOf(b, key));
        (h + ValuesOf(a[1..], key)) + ValuesOf(b, key);
      }
    }
  }

  function Fields(texts: seq<string>): seq<FormValue> {
    seq(|texts|, i requires 0 <= i < |texts| => Field(texts[i]))
  }

  function Attachments(files: seq<Browser.File>): seq<FormValue> {
    seq(|files|, i requires 0 <= i < |files| => Attachment(files[i]))
  }

  /** One entry per value, all under `key`. */
  function Under(key: FormKey, vs: seq<FormValue>): seq<Entry> {
    seq(|vs|, i requires 0 <= i < |vs| => (key, vs[i]))
  }

  lemma {:induction false} ValuesOfUnder(key: FormKey, vs: seq<FormValue>, other: FormKey)
    ensures ValuesOf(Under(key, vs), key) == vs
    ensures other != key ==> ValuesOf(Under(key, vs), other) == []
    decreases |vs|
  {
    if vs != [] {
      assert Under(key, vs)[1..] == Under(key, vs[1..]);
      ValuesOfUnder(key, vs[1..], other);
      assert vs == [vs[0]] + vs[1..];
    }
  }

  /** A text input sent only when non-empty (`if (form.x) fd.append(...)`). */
  function IfGiven(text: string): seq<FormValue> {
    if text != "" then [Field(text)] else []
  }

  /** A comma list sent item by item, only when its text is non-empty; the
      guard changes nothing, since an empty text has no items. */
  function ListOf(text: string): (vs: seq<FormValue>)
    ensures vs == Fields(ParseList(text))
  {
    if text != "" then Fields(ParseList(text)) else ParseEmpty(); []
  }

  /** The values `handleSubmit` appends under each key. */
  function Expected(f: ProductForm, images: seq<Browser.File>, key: FormKey): seq<FormValue> {
    match key
    case NameKey => [Field(f.name)]
    case DescriptionKey => IfGiven(f.description)
    case PriceKey => [Field(f.price)]
    case OriginalPriceKey => IfGiven(f.originalPrice)
    case StockQuantityKey => [Field(f.stockQuantity)]
    case SkuKey => IfGiven(f.sku)
    case SizesKey => ListOf(f.sizes)
    case ColorsKey => ListOf(f.colors)
    case TagsKey => ListOf(f.tags)
    case BrandKey => IfGiven(f.brand)
    case WeightKey => IfGiven(f.weight)
    case CategoryIdKey => [Field(f.categoryId)]
    case ImagesKey => Attachments(images)
  }

  /** The order in which `handleSubmit` appends the keys. */
  const KeyOrder: seq<FormKey> := [
    NameKey, DescriptionKey, PriceKey, OriginalPriceKey, StockQuantityKey, SkuKey,
    SizesKey, ColorsKey, TagsKey, BrandKey, WeightKey, CategoryIdKey, ImagesKey]

  /** The values of each key, as a function. */
  function ExpectedOf(f: ProductForm, images: seq<Browser.File>): FormKey -> seq<FormValue> {
    (key: FormKey) => Expected(f, images, key)
  }

  /** The blocks of the given keys, one after another, each key with the
      values `vals` gives it. */
  function BlocksOf(vals: FormKey -> seq<FormValue>, keys: seq<FormKey>): seq<Entry>
    decreases |keys|
  {
    if keys == [] then []
    else BlocksOf(vals, keys[..|keys| - 1]) + Under(keys[|keys| - 1], vals(keys[|keys| - 1]))
  }

  /** The body `handleSubmit` builds. */
  function Body(f: ProductForm, images: seq<Browser.File>): seq<Entry> {
    BlocksOf(ExpectedOf(f, images), KeyOrder)
  }

  lemma {:induction false} BlocksOfValues(vals: FormKey -> seq<FormValue>, keys: seq<FormKey>, key: FormKey)
    requires forall i, j :: 0 <= i < j < |keys| ==> keys[i] != keys[j]
    ensures ValuesOf(BlocksOf(vals, keys), key) == if key in keys then vals(key) else []
    decreases |keys|
  {
    if keys != [] {
      var front, last := keys[..|keys| - 1], keys[|keys| - 1];
      LastKey(keys, key);
      BlocksOfValues(vals, front, key);
      UnderStep(BlocksOf(vals, front), last, vals(last), key);
    }
  }

  /** A list of distinct keys is its front, also distinct, and a last key
      that the front does not hold. */
  lemma LastKey(keys: seq<FormKey>, key: FormKey)
    requires keys != []
    requires forall i, j :: 0 <= i < j < |keys| ==> keys[i] != keys[j]
    ensures var front, last := keys[..|keys| - 1], keys[|keys| - 1];
      && (forall i, j :: 0 <= i < j < |front| ==> front[i] != front[j])
      && (key in keys <==> key in front || key == last)
      && (key == last ==> key !in front)
  {
    assert keys == keys[..|keys| - 1] + [keys[|keys| - 1]];
  }

  /** The values under `key` after appending one more block. */
  lemma UnderStep(a: seq<Entry>, last: FormKey, vs: seq<FormValue>, key: FormKey)
    ensures ValuesOf(a + Under(last, vs), key) == ValuesOf(a, key) + (if key == last then vs else [])
  {
    ValuesOfAppend(a, Under(last, vs), key);
    ValuesOfUnder(last, vs, key);
    if key != last {
      assert ValuesOf(a, key) + [] == ValuesOf(a, key);
    }
  }

  /** Every key appears once in the append order. */
  lemma KeyOrderComplete(key: FormKey)
    ensures key in KeyOrder
    ensures forall i, j :: 0 <= i < j < |KeyOrder| ==> KeyOrder[i] != KeyOrder[j]
  {
    match key
    case NameKey => assert KeyOrder[0] == key;
    case DescriptionKey => assert KeyOrder[1] == key;
    case PriceKey => assert KeyOrder[2] == key;
    case OriginalPriceKey => assert KeyOrder[3] == key;
    case StockQuantityKey => assert KeyOrder[4] == key;
    case SkuKey => assert KeyOrder[5] == key;
    case SizesKey => assert KeyOrder[6] == key;
    case ColorsKey => assert KeyOrder[7] == key;
    case TagsKey => assert KeyOrder[8] == key;
    case BrandKey => assert KeyOrder[9] == key;
    case WeightKey => assert KeyOrder[10] == key;
    case CategoryIdKey => assert KeyOrder[11] == key;
    case ImagesKey => assert KeyOrder[12] == key;
  }

  /** Per key, the body carries exactly: one `name`, `price`,
      `stockQuantity` and `categoryId`; `description`, `originalPrice`,
      `sku`, `brand` and `weight` once each when filled in, else not at all;
      one `sizes[]`, `colors[]` and `tags[]` entry per parsed item; and one
      `images` entry per selected file, in order. */
  lemma BodyValues(f: ProductForm, images: seq<Browser.File>, key: FormKey)
    ensures ValuesOf(Body(f, images), key) == Expected(f, images, key)
    ensures key in {NameKey, PriceKey, StockQuantityKey, CategoryIdKey} ==> |ValuesOf(Body(f, images), key)| == 1
    ensures key == ImagesKey ==> ValuesOf(Body(f, images), key) == Attachments(images)
    ensures key == SizesKey ==> ValuesOf(Body(f, images), key) == Fields(ParseList(f.sizes))
    ensures key == ColorsKey ==> ValuesOf(Body(f, images), key) == Fields(ParseList(f.colors))
    ensures key == TagsKey ==> ValuesOf(Body(f, images), key) == Fields(ParseList(f.tags))
  {
    KeyOrderComplete(key);
    BlocksOfValues(ExpectedOf(f, images), KeyOrder, key);
  }

  /** An optional text is sent once when filled in and not at all when empty. */
  lemma OptionalFields(f: ProductForm, images: seq<Browser.File>)
    ensures |ValuesOf(Body(f, images), DescriptionKey)| == (if f.description != "" then 1 else 0)
    ensures |ValuesOf(Body(f, images), OriginalPriceKey)| == (if f.originalPrice != "" then 1 else 0)
    ensures |ValuesOf(Body(f, images), SkuKey)| == (if f.sku != "" then 1 else 0)
    ensures |ValuesOf(Body(f, images), BrandKey)| == (if f.brand != "" then 1 else 0)
    ensures |ValuesOf(Body(f, images), WeightKey)| == (if f.weight != "" then 1 else 0)
  {
    BodyValues(f, images, DescriptionKey);
    BodyValues(f, images, OriginalPriceKey);
    BodyValues(f, images, SkuKey);
    BodyValues(f, images, BrandKey);
    BodyValues(f, images, WeightKey);
  }

  /** The blocks of the first `k` keys of the append order. */
  function Partial(vals: FormKey -> seq<FormValue>, k: nat): seq<Entry>
    requires k <= |KeyOrder|
  {
    BlocksOf(vals, KeyOrder[..k])
  }

  /** Appending the next key's block to the blocks so far. */
  lemma BlocksStep(vals: FormKey -> seq<FormValue>, k: nat, key: FormKey)
    requires k < |KeyOrder| && key == KeyOrder[k]
    ensures Partial(vals, k + 1) == Partial(vals, k) + Under(key, vals(key))
  {
    assert KeyOrder[..k + 1][..k] == KeyOrder[..k];
  }

  /** The first five blocks. */
  lemma FirstBlocks(vals: FormKey -> seq<FormValue>)
    ensures Partial(vals, 5) == [] +
      Under(NameKey, vals(NameKey)) +
      Under(DescriptionKey, vals(DescriptionKey)) +
      Under(PriceKey, vals(PriceKey)) +
      Under(OriginalPriceKey, vals(OriginalPriceKey)) +
      Under(StockQuantityKey, vals(StockQuantityKey))
  {
    assert KeyOrder[..0] == [];
    BlocksStep(vals, 0, NameKey);
    BlocksStep(vals, 1, DescriptionKey);
    BlocksStep(vals, 2, PriceKey);
    BlocksStep(vals, 3, OriginalPriceKey);
    BlocksStep(vals, 4, StockQuantityKey);
  }

  /** The next four blocks. */
  lemma MiddleBlocks(vals: FormKey -> seq<FormValue>)
    ensures Partial(vals, 9) == Partial(vals, 5) +
      Under(SkuKey, vals(SkuKey)) +
      Under(SizesKey, vals(SizesKey)) +
      Under(ColorsKey, vals(ColorsKey)) +
      Under(TagsKey, vals(TagsKey))
  {
    BlocksStep(vals, 5, SkuKey);
    BlocksStep(vals, 6, SizesKey);
    BlocksStep(vals, 7, ColorsKey);
    BlocksStep(vals, 8, TagsKey);
  }

  /** The last four blocks. */
  lemma LastBlocks(vals: FormKey -> seq<FormValue>)
    ensures Partial(vals, 13) == Partial(vals, 9) +
      Under(BrandKey, vals(BrandKey)) +
      Under(WeightKey, vals(WeightKey)) +
      Under(CategoryIdKey, vals(CategoryIdKey)) +
      Under(ImagesKey, vals(ImagesKey))
  {
    BlocksStep(vals, 9, BrandKey);
    BlocksStep(vals, 10, WeightKey);
    BlocksStep(vals, 11, CategoryIdKey);
    BlocksStep(vals, 12, ImagesKey);
  }

  /** The body is the blocks of the whole append order. */
  lemma BodyIsPartial(f: ProductForm, images: seq<Browser.File>)
    ensures Body(f, images) == Partial(ExpectedOf(f, images), 13)
  {
    assert KeyOrder[..13] == KeyOrder;
  }

  /** The body, one block per key in the append order. */
  lemma BodyByKeys(f: ProductForm, images: seq<Browser.File>)
    ensures Body(f, images) == [] +
      Under(NameKey, Expected(f, images, NameKey)) +
      Under(DescriptionKey, Expected(f, images, DescriptionKey)) +
      Under(PriceKey, Expected(f, images, PriceKey)) +
      Under(OriginalPriceKey, Expected(f, images, OriginalPriceKey)) +
      Under(StockQuantityKey, Expected(f, images, StockQuantityKey)) +
      Under(SkuKey, Expected(f, images, SkuKey)) +
      Under(SizesKey, Expected(f, images, SizesKey)) +
      Under(ColorsKey, Expected(f, images, ColorsKey)) +
      Under(TagsKey, Expected(f, images, TagsKey)) +
      Under(BrandKey, Expected(f, images, BrandKey)) +
      Under(WeightKey, Expected(f, images, WeightKey)) +
      Under(CategoryIdKey, Expected(f, images, CategoryIdKey)) +
      Under(ImagesKey, Expected(f, images, ImagesKey))
  {
    var vals := ExpectedOf(f, images);
    FirstBlocks(vals);
    MiddleBlocks(vals);
    LastBlocks(vals);
    BodyIsPartial(f, images);
  }

  /** The body, block by block in the append order. */
  lemma BodyBlocks(f: ProductForm, images: seq<Browser.File>)
    ensures Body(f, images) == [] +
      Under(NameKey, [Field(f.name)]) +
      Under(DescriptionKey, IfGiven(f.description)) +
      Under(PriceKey, [Field(f.price)]) +
      Under(OriginalPriceKey, IfGiven(f.originalPrice)) +
      Under(StockQuantityKey, [Field(f.stockQuantity)]) +
      Under(SkuKey, IfGiven(f.sku)) +
      Under(SizesKey, ListOf(f.sizes)) +
      Under(ColorsKey, ListOf(f.colors)) +
      Under(TagsKey, ListOf(f.tags)) +
      Under(BrandKey, IfGiven(f.brand)) +
      Under(WeightKey, IfGiven(f.weight)) +
      Under(CategoryIdKey, [Field(f.categoryId)]) +
      Under(ImagesKey, Attachments(images))
  {
    ExpectedFirst(f, images);
    ExpectedMiddle(f, images);
    ExpectedLast(f, images);
    BodyByKeys(f, images);
  }

  /** What each key is to carry, spelled out, in three groups. */
  lemma ExpectedFirst(f: ProductForm, images: seq<Browser.File>)
    ensures Expected(f, images, NameKey) == [Field(f.name)]
    ensures Expected(f, images, DescriptionKey) == IfGiven(f.description)
    ensures Expected(f, images, PriceKey) == [Field(f.price)]
    ensures Expected(f, images, OriginalPriceKey) == IfGiven(f.originalPrice)
    ensures Expected(f, images, StockQuantityKey) == [Field(f.stockQuantity)]
  {
  }

  lemma ExpectedMiddle(f: ProductForm, images: seq<Browser.File>)
    ensures Expected(f, images, SkuKey) == IfGiven(f.sku)
    ensures Expected(f, images, SizesKey) == ListOf(f.sizes)
    ensures Expected(f, images, ColorsKey) == ListOf(f.colors)
    ensures Expected(f, images, TagsKey) == ListOf(f.tags)
  {
    ExpectedList(f, images, SizesKey, f.sizes);
    ExpectedList(f, images, ColorsKey, f.colors);
    ExpectedList(f, images, TagsKey, f.tags);
  }

  lemma ExpectedList(f: ProductForm, images: seq<Browser.File>, key: FormKey, text: string)
    requires || (key == SizesKey && text == f.sizes)
             || (key == ColorsKey && text == f.colors)
             || (key == TagsKey && text == f.tags)
    ensures Expected(f, images, key) == ListOf(text)
  {
  }

  lemma ExpectedLast(f: ProductForm, images: seq<Browser.File>)
    ensures Expected(f, images, BrandKey) == IfGiven(f.brand)
    ensures Expected(f, images, WeightKey) == IfGiven(f.weight)
    ensures Expected(f, images, CategoryIdKey) == [Field(f.categoryId)]
    ensures Expected(f, images, ImagesKey) == Attachments(images)
  {
  }

  // ---------------------------------------------------------------------
  // Access and categories
  // ---------------------------------------------------------------------

  /** The guard of the mount effect: the page stays only for a stored user
      record whose `role` is "seller". No stored user, text `JSON.parse`
      rejects, a parsed `null` (reading its `role` throws), a parsed boolean
      or string (its `role` is undefined), or any other role sends the
      visitor away. */
  function SellerGuard(items: map<string, Browser.Stored>): (allowed: bool)
    ensures Browser.UserKey !in items ==> !allowed
    ensures Browser.UserKey in items && items[Browser.UserKey].Text? ==> !allowed
    ensures Browser.UserKey in items && items[Browser.UserKey].JsonScalar? ==> !allowed
    ensures allowed <==> Browser.UserKey in items && items[Browser.UserKey].JsonObject? &&
                         "role" in items[Browser.UserKey].fields &&
                         items[Browser.UserKey].fields["role"] == Json.Str("seller")
  {
    if Browser.UserKey !in items then false
    else
      match items[Browser.UserKey]
      case Text(_) => false
      case JsonScalar(_) => false
      case JsonObject(user) => "role" in user && user["role"] == Json.Str("seller")
  }

  /** `categories.find(c => c.id === id) || null`: the first category with
      that id, if any. */
  function FindCategory(categories: seq<Category>, id: string): (c: Option<Category>)
    ensures c.None? <==> forall i :: 0 <= i < |categories| ==> categories[i].id != id
    ensures c.Some? ==> (c.value.id == id &&
      exists i :: 0 <= i < |categories| && categories[i] == c.value &&
                  forall j :: 0 <= j < i ==> categories[j].id != id)
    decreases |categories|
  {
    if categories == [] then None
    else if categories[0].id == id then Some(categories[0])
    else
      var c := FindCategory(categories[1..], id);
      assert c.Some? ==> exists i :: (1 <= i < |categories| && categories[i] == c.value &&
                                      forall j :: 0 <= j < i ==> categories[j].id != id) by {
        if c.Some? {
          var i :| 0 <= i < |categories[1..]| && categories[1..][i] == c.value &&
                   forall j :: 0 <= j < i ==> categories[1..][j].id != id;
          assert forall j :: 1 <= j < i + 1 ==> categories[j] == categories[1..][j - 1];
        }
      }
      c
  }

  /** The outcome of the categories request. */
  datatype CategoriesResponse = CategoriesLoaded(data: Option<seq<Category>>) | CategoriesFailed

  /** The outcome of the create request. */
  datatype CreateResponse = Created | CreateRefused(message: Option<string>) | CreateUnreachable(reason: string)

  /** The request the submit sends: the bearer token and the body. */
  datatype ProductRequest = ProductRequest(token: Browser.Stored, body: seq<Entry>)

  class SellPage {
    var categories: seq<Category>
    var selected: Option<Category>
    var loading: bool
    var submitting: bool
    var form: ProductForm
    var images: seq<Browser.File>

    constructor()
      ensures categories == [] && selected == None && loading && !submitting
      ensures form == EmptyForm && images == []
    {
      categories := [];
      selected := None;
      loading := true;
      submitting := false;
      form := EmptyForm;
      images := [];
    }

    /** The details block shows once a category is selected. */
    predicate ShowsDetails()
      reads this
    {
      selected.Some?
    }

    /** Sizes and colours are offered for any category but perfume, the
        volume (`weight`) only for perfume. */
    predicate ShowsSizesAndColors()
      reads this
      ensures ShowsSizesAndColors() ==> ShowsDetails()
    {
      selected.Some? && selected.value.categoryType != "perfume"
    }

    /** The volume field is offered for perfume; with a category chosen it
        is exactly one of the two category-specific parts. */
    predicate ShowsWeight()
      reads this
      ensures ShowsWeight() <==> ShowsDetails() && !ShowsSizesAndColors()
    {
      selected.Some? && selected.value.categoryType == "perfume"
    }

    /** The mount effect: a visitor who is not a seller is sent away and
        nothing loads; otherwise the categories request runs and `loading`
        ends false whatever its outcome. */
    method Mount(store: Browser.LocalStorage, response: CategoriesResponse) returns (redirect: bool)
      modifies this
      ensures redirect <==> !SellerGuard(store.items)
      ensures redirect ==> categories == old(categories) && loading == old(loading)
      ensures !redirect ==> !loading
      ensures !redirect && response.CategoriesLoaded? ==> categories == response.data.GetOr([])
      ensures !redirect && response.CategoriesFailed? ==> categories == old(categories)
      ensures selected == old(selected) && form == old(form) && images == old(images)
      ensures submitting == old(submitting)
    {
      if !SellerGuard(store.items) {
        return true;
      }
      match response {
        case CategoriesLoaded(data) => categories := data.GetOr([]);
        case CategoriesFailed =>
      }
      loading := false;
      redirect := false;
    }

    /** `handleChange` for an input. */
    method Change(field: ProductField, value: string)
      modifies this
      ensures form == With(old(form), field, value)
      ensures categories == old(categories) && selected == old(selected) && images == old(images)
      ensures loading == old(loading) && submitting == old(submitting)
    {
      form := With(form, field, value);
    }

    /** The category select: the form's `categoryId` takes the id and the
        selected category becomes the first with that id, or none. */
    method ChooseCategory(id: string)
      modifies this
      ensures form == old(form).(categoryId := id)
      ensures selected == FindCategory(categories, id)
      ensures categories == old(categories) && images == old(images)
      ensures loading == old(loading) && submitting == old(submitting)
    {
      Change(CategoryIdField, id);
      selected := FindCategory(categories, id);
    }

    /** `handleImages`: a missing file list counts as empty; the first six
        files are kept, in order. */
    method HandleImages(files: Option<seq<Browser.File>>)
      modifies this
      ensures var fs := files.GetOr([]);
        images == if |fs| <= MaxImages then fs else fs[..MaxImages]
      ensures |images| <= MaxImages
      ensures form == old(form) && categories == old(categories) && selected == old(selected)
      ensures loading == old(loading) && submitting == old(submitting)
    {
      var fs := files.GetOr([]);
      images := Slice(fs, 0, MaxImages);
    }

    /** Appends every value under `key`, one `fd.append` per value. */
    static method AppendAll(fd: seq<Entry>, key: FormKey, vs: seq<FormValue>) returns (r: seq<Entry>)
      ensures r == fd + Under(key, vs)
    {
      r := fd;
      var i := 0;
      while i < |vs|
        invariant 0 <= i <= |vs|
        invariant r == fd + Under(key, vs[..i])
      {
        assert Under(key, vs[..i + 1]) == Under(key, vs[..i]) + [(key, vs[i])];
        r := r + [(key, vs[i])];
        i := i + 1;
      }
      assert vs[..i] == vs;
    }

    /** Builds the body by successive appends, in the order of the source. */
    method BuildBody() returns (fd: seq<Entry>)
      ensures fd == Body(form, images)
    {
      fd := [];
      fd := AppendAll(fd, NameKey, [Field(form.name)]);
      fd := AppendAll(fd, DescriptionKey, IfGiven(form.description));
      fd := AppendAll(fd, PriceKey, [Field(form.price)]);
      fd := AppendAll(fd, OriginalPriceKey, IfGiven(form.originalPrice));
      fd := AppendAll(fd, StockQuantityKey, [Field(form.stockQuantity)]);
      fd := AppendAll(fd, SkuKey, IfGiven(form.sku));
      fd := AppendAll(fd, SizesKey, ListOf(form.sizes));
      fd := AppendAll(fd, ColorsKey, ListOf(form.colors));
      fd := AppendAll(fd, TagsKey, ListOf(form.tags));
      fd := AppendAll(fd, BrandKey, IfGiven(form.brand));
      fd := AppendAll(fd, WeightKey, IfGiven(form.weight));
      fd := AppendAll(fd, CategoryIdKey, [Field(form.categoryId)]);
      fd := AppendAll(fd, ImagesKey, Attachments(images));
      BodyBlocks(form, images);
    }

    /** `handleSubmit`. A failed check alerts its message and changes
        nothing. Without a token the submit alerts and ends. Otherwise the
        body is sent with the token and `response` is the outcome: success
        empties the form and the images. `submitting` is false after every
        attempt that passed the checks. */
    method HandleSubmit(store: Browser.LocalStorage, response: CreateResponse)
      returns (request: Option<ProductRequest>, alert: string)
      modifies this
      ensures SubmitError(old(form), old(images)).Some? ==>
        alert == SubmitError(old(form), old(images)).value && request == None &&
        form == old(form) && images == old(images) && submitting == old(submitting)
      ensures SubmitError(old(form), old(images)).None? ==> !submitting
      ensures SubmitError(old(form), old(images)).None? && !store.HasToken() ==>
        alert == LoginMessage && request == None && form == old(form) && images == old(images)
      ensures request.Some? <==> SubmitError(old(form), old(images)).None? && store.HasToken()
      ensures request.Some? ==>
        request.value == ProductRequest(store.items[Browser.TokenKey], Body(old(form), old(images)))
      ensures request.Some? && response.Created? ==>
        alert == CreatedMessage && form == EmptyForm && images == []
      ensures request.Some? && response.CreateRefused? ==>
        alert == Json.MessageOr(response.message, CreateFailedMessage) && form == old(form) && images == old(images)
      ensures request.Some? && response.CreateUnreachable? ==>
        alert == response.reason && form == old(form) && images == old(images)
      ensures categories == old(categories) && selected == old(selected) && loading == old(loading)
    {
      var check := SubmitError(form, images);
      if check.Some? {
        return None, check.value;
      }
      submitting := true;
      if !store.HasToken() {
        submitting := false;
        return None, LoginMessage;
      }
      var body := BuildBody();
      request := Some(ProductRequest(store.items[Browser.TokenKey], body));
      match response {
        case Created =>
          form := EmptyForm;
          images := [];
          alert := CreatedMessage;
        case CreateRefused(message) =>
          alert := Json.MessageOr(message, CreateFailedMessage);
        case CreateUnreachable(reason) =>
          alert := reason;
      }
      submitting := false;
    }
  }
}
