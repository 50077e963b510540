/**
 * The records shared by the API and the components (types/index.ts).
 * Money and quantities are opaque numbers (`real`); dates and timestamps
 * are the strings the API exchanges.
 */
module Types {
  import opened Wrappers

  /** One purchased product or service line of a receipt. */
  datatype LineItem = LineItem(
    name: string,
    price: real,
    quantity: real,
    discount: real,
    net_price: real,
    tax_ght_hst: real,
    included: bool)

  /**
   * The stored shape of `line_items`: missing (`null`/`undefined`), a bare
   * array, or the older wrapper object `{data: [...]}` whose `data` may be missing.
   */
  datatype LineItemsField =
    | Absent
    | Bare(items: seq<LineItem>)
    | Wrapped(data: Option<seq<LineItem>>)

  /** One receipt record as the API returns it. */
  datatype Entry = Entry(
    id: int,
    created_at: string,
    store_name: string,
    store_address: string,
    store_phone: string,
    date_of_purchase: string,
    subtotal: real,
    gst: real,
    hst: real,
    total: real,
    total_discounts: real,
    payment_method: string,
    line_items: LineItemsField,
    file_name: string,
    approved: bool)

  /** The keys the edit forms write through `{...record, [field]: value}`. */
  datatype Field =
    | StoreName | StoreAddress | StorePhone | DateOfPurchase
    | Subtotal | Gst | Hst | Total | TotalDiscounts
    | PaymentMethod | LineItems | FileName | Approved

  /** A value a form hands to one of those keys. */
  datatype Value =
    | Text(text: string)
    | Amount(amount: real)
    | Flag(flag: bool)
    | Items(items: LineItemsField)

  /** The callers only ever pass a value of the field's own kind. */
  predicate Fits(f: Field, v: Value)
  {
    match f
    case StoreName | StoreAddress | StorePhone | DateOfPurchase | PaymentMethod | FileName => v.Text?
    case Subtotal | Gst | Hst | Total | TotalDiscounts => v.Amount?
    case LineItems => v.Items?
    case Approved => v.Flag?
  }

  /** The value a fresh form holds in each field: `''`, `0`, `[]` or `false`. */
  function ZeroValue(f: Field): (v: Value)
    ensures Fits(f, v)
  {
    match f
    case StoreName | StoreAddress | StorePhone | DateOfPurchase | PaymentMethod | FileName => Text("")
    case Subtotal | Gst | Hst | Total | TotalDiscounts => Amount(0.0)
    case LineItems => Items(Bare([]))
    case Approved => Flag(false)
  }

  /** `e[f]`. */
  function Get(e: Entry, f: Field): (v: Value)
    ensures Fits(f, v)
  {
    match f
    case StoreName => Text(e.store_name)
    case StoreAddress => Text(e.store_address)
    case StorePhone => Text(e.store_phone)
    case DateOfPurchase => Text(e.date_of_purchase)
    case Subtotal => Amount(e.subtotal)
    case Gst => Amount(e.gst)
    case Hst => Amount(e.hst)
    case Total => Amount(e.total)
    case TotalDiscounts => Amount(e.total_discounts)
    case PaymentMethod => Text(e.payment_method)
    case LineItems => Items(e.line_items)
    case FileName => Text(e.file_name)
    case Approved => Flag(e.approved)
  }

  /** `{...e, [f]: v}`: the named field becomes `v`, every other field is kept. */
  function Set(e: Entry, f: Field, v: Value): (r: Entry)
    requires Fits(f, v)
    ensures Get(r, f) == v
    ensures forall g :: g != f ==> Get(r, g) == Get(e, g)
    ensures r.id == e.id && r.created_at == e.created_at
  {
    match f
    case StoreName => e.(store_name := v.text)
    case StoreAddress => e.(store_address := v.text)
    case StorePhone => e.(store_phone := v.text)
    case DateOfPurchase => e.(date_of_purchase := v.text)
    case Subtotal => e.(subtotal := v.amount)
    case Gst => e.(gst := v.amount)
    case Hst => e.(hst := v.amount)
    case Total => e.(total := v.amount)
    case TotalDiscounts => e.(total_discounts := v.amount)
    case PaymentMethod => e.(payment_method := v.text)
    case LineItems => e.(line_items := v.items)
    case FileName => e.(file_name := v.text)
    case Approved => e.(approved := v.flag)
  }

  /** Two entries with the same id, timestamp and field values are the same entry. */
  lemma EntryExtensionality(a: Entry, b: Entry)
    requires a.id == b.id && a.created_at == b.created_at
    requires forall f :: Get(a, f) == Get(b, f)
    ensures a == b
  {
    assert Get(a, StoreName) == Get(b, StoreName);
    assert Get(a, StoreAddress) == Get(b, StoreAddress);
    assert Get(a, StorePhone) == Get(b, StorePhone);
    assert Get(a, DateOfPurchase) == Get(b, DateOfPurchase);
    assert Get(a, Subtotal) == Get(b, Subtotal);
    assert Get(a, Gst) == Get(b, Gst);
    assert Get(a, Hst) == Get(b, Hst);
    assert Get(a, Total) == Get(b, Total);
    assert Get(a, TotalDiscounts) == Get(b, TotalDiscounts);
    assert Get(a, PaymentMethod) == Get(b, PaymentMethod);
    assert Get(a, LineItems) == Get(b, LineItems);
    assert Get(a, FileName) == Get(b, FileName);
    assert Get(a, Approved) == Get(b, Approved);
  }

  /** The keys of a line item that the line-items editor writes. */
  datatype ItemField = Name | Price | Quantity | Discount | NetPrice | TaxGhtHst | Included

  predicate FitsItem(f: ItemField, v: Value)
  {
    match f
    case Name => v.Text?
    case Price | Quantity | Discount | NetPrice | TaxGhtHst => v.Amount?
    case Included => v.Flag?
  }

  /** `item[f]`. */
  function GetItem(item: LineItem, f: ItemField): (v: Value)
    ensures FitsItem(f, v)
  {
    match f
    case Name => Text(item.name)
    case Price => Amount(item.price)
    case Quantity => Amount(item.quantity)
    case Discount => Amount(item.discount)
    case NetPrice => Amount(item.net_price)
    case TaxGhtHst => Amount(item.tax_ght_hst)
    case Included => Flag(item.included)
  }

  /** `{...item, [f]: v}`. */
  function SetItem(item: LineItem, f: ItemField, v: Value): (r: LineItem)
    requires FitsItem(f, v)
    ensures GetItem(r, f) == v
    ensures forall g :: g != f ==> GetItem(r, g) == GetItem(item, g)
  {
    match f
    case Name => item.(name := v.text)
    case Price => item.(price := v.amount)
    case Quantity => item.(quantity := v.amount)
    case Discount => item.(discount := v.amount)
    case NetPrice => item.(net_price := v.amount)
    case TaxGhtHst => item.(tax_ght_hst := v.amount)
    case Included => item.(included := v.flag)
  }

  /**
   * What a line-items editor is given for a `line_items` field:
   * `Array.isArray(li) ? li : []`.
   */
  function EditorItems(li: LineItemsField): (xs: seq<LineItem>)
    ensures li.Bare? ==> xs == li.items
    ensures !li.Bare? ==> xs == []
  {
    if li.Bare? then li.items else []
  }
}
