/**
 * The create-entry dialog (components/EntryModal.tsx): a form record
 * without the server-assigned `id` and `created_at`, edited one field at a
 * time and handed to `onSave` on submit.
 */
module EntryModal {
  import opened Wrappers
  import opened Types

  /** The form: an entry without `id` and `created_at`. */
  datatype NewEntry = NewEntry(
    store_name: string,
    store_address: string,
    store_phone: string,
    date_of_purchase: string,
    subtotal: real,
    gst: real,
    hst: real,
    total: real,
    total_discounts: real,
    payment_method: string,
    line_items: LineItemsField,
    file_name: string,
    approved: bool)

  /**
   * `form[f]`. The form is its own record rather than an `Entry`, because
   * it has no `id` or `created_at` (TypeScript's `Omit`), so its accessor
   * is written out separately from `Types.Get`.
   */
  function GetForm(form: NewEntry, f: Field): (v: Value)
    ensures Fits(f, v)
  {
    match f
    case StoreName => Text(form.store_name)
    case StoreAddress => Text(form.store_address)
    case StorePhone => Text(form.store_phone)
    case DateOfPurchase => Text(form.date_of_purchase)
    case Subtotal => Amount(form.subtotal)
    case Gst => Amount(form.gst)
    case Hst => Amount(form.hst)
    case Total => Amount(form.total)
    case TotalDiscounts => Amount(form.total_discounts)
    case PaymentMethod => Text(form.payment_method)
    case LineItems => Items(form.line_items)
    case FileName => Text(form.file_name)
    case Approved => Flag(form.approved)
  }

  /** `handleChange(f, v)`: `{...prev, [f]: v}`; a line-item array is stored as it is. */
  function FormChange(form: NewEntry, f: Field, v: Value): (r: NewEntry)
    requires Fits(f, v)
    ensures GetForm(r, f) == v
    ensures forall g :: g != f ==> GetForm(r, g) == GetForm(form, g)
  {
    match f
    case StoreName => form.(store_name := v.text)
    case StoreAddress => form.(store_address := v.text)
    case StorePhone => form.(store_phone := v.text)
    case DateOfPurchase => form.(date_of_purchase := v.text)
    case Subtotal => form.(subtotal := v.amount)
    case Gst => form.(gst := v.amount)
    case Hst => form.(hst := v.amount)
    case Total => form.(total := v.amount)
    case TotalDiscounts => form.(total_discounts := v.amount)
    case PaymentMethod => form.(payment_method := v.text)
    case LineItems => form.(line_items := v.items)
    case FileName => form.(file_name := v.text)
    case Approved => form.(approved := v.flag)
  }

  /** The form a dialog opens with: every text field "", every amount 0, no line items, not approved. */
  function DefaultForm(): (form: NewEntry)
    ensures forall f :: GetForm(form, f) == ZeroValue(f)
  {
    NewEntry("", "", "", "", 0.0, 0.0, 0.0, 0.0, 0.0, "", Bare([]), "", false)
  }

  /** The text a number input passes to `parseFloat`: `e.target.value || '0'`. */
  function NumericInputText(input: string): (t: string)
    ensures input == "" ==> t == "0"
    ensures input != "" ==> t == input
    ensures t != ""
  {
    if input == "" then "0" else input
  }

  /** The dialog's `form` state cell. */
  class ModalState {
    var form: NewEntry

    constructor ()
      ensures form == DefaultForm()
    {
      form := DefaultForm();
    }

    /** `handleChange(f, v)`: only the named field changes. */
    method HandleChange(f: Field, v: Value)
      requires Fits(f, v)
      modifies this
      ensures form == FormChange(old(form), f, v)
    {
      form := FormChange(form, f, v);
    }

    /**
     * Pressing "Save": the Store Name input is `required`, so the browser
     * blocks the submit event while it is empty (`None`); otherwise
     * `handleSubmit` hands the current form to `onSave` unchanged.
     */
    method HandleSubmit() returns (submitted: Option<NewEntry>)
      ensures form.store_name == "" ==> submitted == None
      ensures form.store_name != "" ==> submitted == Some(form)
    {
      if form.store_name == "" {
        submitted := None;
      } else {
        submitted := Some(form);
      }
    }

    /** What the dialog hands to the line-items editor. */
    function EditorList(): (xs: seq<LineItem>)
      reads this
      ensures form.line_items.Bare? ==> xs == form.line_items.items
      ensures !form.line_items.Bare? ==> xs == []
    {
      EditorItems(form.line_items)
    }
  }

  /** A line-items edit in the dialog keeps the array bare, so the editor shows exactly the edited list. */
  lemma FormLineItemsEdit(form: NewEntry, xs: seq<LineItem>)
    ensures EditorItems(FormChange(form, LineItems, Items(Bare(xs))).line_items) == xs
  {
  }
}
