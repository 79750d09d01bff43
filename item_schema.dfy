/**
 * The item schema: which item documents may be stored, and how a submitted
 * document is normalised (the name trimmed, the stock defaulted) before it is.
 * Prices are integer cents.
 */
module ItemSchema {
  import opened Common

  datatype Category = Electronics | Fashion | Home | Books | Sports | Beauty

  /** The stock an item gets when none is given. */
  const DefaultStock: int := 100

  datatype Item = Item(
    name: string,
    description: string,
    price: int,
    image: string,
    category: Category,
    stock: int)

  /** The string the `category` enum lists for each category. */
  function CategoryName(c: Category): string
  {
    match c
    case Electronics => "electronics"
    case Fashion => "fashion"
    case Home => "home"
    case Books => "books"
    case Sports => "sports"
    case Beauty => "beauty"
  }

  /** The enum validator: a string is accepted exactly when it names a category. */
  function ParseCategory(s: string): (r: Option<Category>)
    ensures r.Some? ==> CategoryName(r.value) == s
    ensures r.None? ==> forall c: Category :: CategoryName(c) != s
  {
    if s == "electronics" then Some(Electronics)
    else if s == "fashion" then Some(Fashion)
    else if s == "home" then Some(Home)
    else if s == "books" then Some(Books)
    else if s == "sports" then Some(Sports)
    else if s == "beauty" then Some(Beauty)
    else None
  }

  lemma ParseCategoryName(c: Category)
    ensures ParseCategory(CategoryName(c)) == Some(c)
  {
  }

  /** The characters JavaScript's `String.prototype.trim` removes: white space and line terminators. */
  predicate IsSpace(ch: char)
  {
    || ch == ' ' || ch == '\t' || ch == '\n' || ch == '\r'
    || ch == '\U{000B}' || ch == '\U{000C}' || ch == '\U{00A0}' || ch == '\U{1680}'
    || ('\U{2000}' <= ch <= '\U{200A}')
    || ch == '\U{2028}' || ch == '\U{2029}' || ch == '\U{202F}' || ch == '\U{205F}'
    || ch == '\U{3000}' || ch == '\U{FEFF}'
  }

  /** A string with no white space at either end. */
  predicate Trimmed(s: string)
  {
    s == [] || (!IsSpace(s[0]) && !IsSpace(s[|s| - 1]))
  }

  function TrimStart(s: string): (r: string)
    ensures |r| <= |s| && r == s[|s| - |r|..]
    ensures r == [] || !IsSpace(r[0])
    ensures forall k :: 0 <= k < |s| - |r| ==> IsSpace(s[k])
  {
    if s != [] && IsSpace(s[0]) then TrimStart(s[1..]) else s
  }

  function TrimEnd(s: string): (r: string)
    ensures |r| <= |s| && r == s[..|r|]
    ensures r == [] || !IsSpace(r[|r| - 1])
    ensures forall k :: |r| <= k < |s| ==> IsSpace(s[k])
  {
    if s != [] && IsSpace(s[|s| - 1]) then TrimEnd(s[..|s| - 1]) else s
  }

  /** The `trim: true` setter of the `name` path. */
  function Trim(s: string): string
  {
    TrimEnd(TrimStart(s))
  }

  /** The result of Trim has no white space at either end. */
  lemma TrimIsTrimmed(s: string)
    ensures Trimmed(Trim(s))
  {
    var a := TrimStart(s);
    var r := TrimEnd(a);
    if r != [] {
      assert r[0] == a[0];
    }
  }

  /** Trim keeps one contiguous slice of its input. */
  lemma TrimIsSlice(s: string)
    ensures var i := |s| - |TrimStart(s)|;
      && i + |Trim(s)| <= |s|
      && Trim(s) == s[i..i + |Trim(s)|]
  {
    var a := TrimStart(s);
    var r := TrimEnd(a);
    var i := |s| - |a|;
    assert r == s[i..i + |r|];
  }

  /** Everything Trim cuts off, on either side of the slice it keeps, is white space. */
  lemma TrimCutsOnlySpace(s: string)
    ensures var i := |s| - |TrimStart(s)|;
      && (forall k :: 0 <= k < i ==> IsSpace(s[k]))
      && (forall k :: i + |Trim(s)| <= k < |s| ==> IsSpace(s[k]))
  {
    var a := TrimStart(s);
    var r := TrimEnd(a);
    var i := |s| - |a|;
    forall k | i + |r| <= k < |s| ensures IsSpace(s[k]) {
      assert s[k] == a[k - i];
    }
  }

  /** A string with no white space at either end is left as it is. */
  lemma TrimTrimmed(s: string)
    requires Trimmed(s)
    ensures Trim(s) == s
  {
  }

  /** Trimming is idempotent. */
  lemma TrimIdempotent(s: string)
    ensures Trim(Trim(s)) == Trim(s)
  {
    TrimIsTrimmed(s);
    TrimTrimmed(Trim(s));
  }

  /** What a stored item satisfies: the required strings are present and the numbers are not negative. */
  predicate ValidItem(it: Item)
  {
    && it.name != [] && Trimmed(it.name)
    && it.description != []
    && it.image != []
    && it.price >= 0
    && it.stock >= 0
  }

  /** A document as submitted: every path may be missing. */
  datatype ItemInput = ItemInput(
    name: Option<string>,
    description: Option<string>,
    price: Option<int>,
    image: Option<string>,
    category: Option<string>,
    stock: Option<int>)

  /** The failing validator of one path; a path reports only its first failing validator. */
  datatype SchemaError = Required(path: string) | Min(path: string) | Enum(path: string)

  /** A required string path fails on a missing or empty value. */
  function RequiredString(path: string, v: Option<string>): set<SchemaError>
  {
    if v.None? || v.value == [] then {Required(path)} else {}
  }

  /** A required number path with `min: 0`. */
  function NonNegative(path: string, v: Option<int>): set<SchemaError>
  {
    match v
    case None => {Required(path)}
    case Some(n) => if n < 0 then {Min(path)} else {}
  }

  /** All validation errors of a submitted document, after the name is trimmed and the stock defaulted. */
  function Errors(input: ItemInput): set<SchemaError>
  {
    RequiredString("name", if input.name.Some? then Some(Trim(input.name.value)) else None)
    + RequiredString("description", input.description)
    + NonNegative("price", input.price)
    + RequiredString("image", input.image)
    + (if input.category.None? || input.category.value == [] then {Required("category")}
       else if ParseCategory(input.category.value).None? then {Enum("category")}
       else {})
    + NonNegative("stock", if input.stock.Some? then input.stock else Some(DefaultStock))
  }

  /** Save-time validation: the normalised item when there is no error, otherwise every error. */
  function Create(input: ItemInput): (r: Result<Item, set<SchemaError>>)
    ensures r.Ok? <==> Errors(input) == {}
    ensures r.Err? ==> r.error == Errors(input)
    ensures r.Ok? ==> ValidItem(r.value)
    ensures r.Ok? ==> r.value.stock == (if input.stock.Some? then input.stock.value else DefaultStock)
    ensures r.Ok? ==> r.value.name == Trim(input.name.value)
    ensures r.Ok? ==> InputOf(r.value) == input.(name := Some(Trim(input.name.value)), stock := Some(r.value.stock))
  {
    if Errors(input) != {} then Err(Errors(input))
    else
      TrimIsTrimmed(input.name.value);
      assert Required("category") !in Errors(input) && Enum("category") !in Errors(input);
      Ok(Item(
        Trim(input.name.value),
        input.description.value,
        input.price.value,
        input.image.value,
        ParseCategory(input.category.value).value,
        if input.stock.Some? then input.stock.value else DefaultStock))
  }

  /** The document that stores an item as it is. */
  function InputOf(it: Item): ItemInput
  {
    ItemInput(Some(it.name), Some(it.description), Some(it.price), Some(it.image),
              Some(CategoryName(it.category)), Some(it.stock))
  }

  /** Round trip: submitting a valid item's own fields yields that item unchanged. */
  lemma CreateInputOf(it: Item)
    requires ValidItem(it)
    ensures Create(InputOf(it)) == Ok(it)
  {
    TrimTrimmed(it.name);
    ParseCategoryName(it.category);
    assert Errors(InputOf(it)) == {};
  }

  /** Leaving out the stock gives the default of 100 when nothing else is wrong. */
  lemma StockDefault(input: ItemInput)
    requires input.stock.None? && Errors(input) == {}
    ensures Create(input).Ok? && Create(input).value.stock == DefaultStock
  {
  }

  /** A negative price or stock is rejected by the `min` validator of that path. */
  lemma NegativeRejected(input: ItemInput)
    requires (input.price.Some? && input.price.value < 0) || (input.stock.Some? && input.stock.value < 0)
    ensures Create(input).Err?
    ensures input.price.Some? && input.price.value < 0 ==> Min("price") in Create(input).error
    ensures input.stock.Some? && input.stock.value < 0 ==> Min("stock") in Create(input).error
  {
  }

  /** A name made only of white space is missing once trimmed. */
  lemma BlankNameRejected(input: ItemInput)
    requires input.name.Some? && forall k :: 0 <= k < |input.name.value| ==> IsSpace(input.name.value[k])
    ensures Create(input).Err? && Required("name") in Create(input).error
  {
  }
}
