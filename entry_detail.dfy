/**
 * The entry detail panel (components/EntryDetail.tsx): the local copy of
 * the selected entry, how `line_items` is normalised when the entry
 * arrives and wrapped when it is edited, and the saving/approving flags.
 * The receipt-image lookup and the rendering are not modelled.
 */
module EntryDetail {
  import opened Wrappers
  import opened Types

  /**
   * The effect run when the `entry` prop changes: a wrapper `{data: xs}`
   * becomes `xs` (`[]` when `data` is missing); a bare array or a missing
   * field is left as it is, and so is every other field.
   */
  function Normalize(e: Entry): (r: Entry)
    ensures !r.line_items.Wrapped?
    ensures e.line_items.Wrapped? ==> r.line_items == Bare(e.line_items.data.GetOr([]))
    ensures !e.line_items.Wrapped? ==> r == e
    ensures forall f :: f != LineItems ==> Get(r, f) == Get(e, f)
    ensures r.id == e.id && r.created_at == e.created_at
  {
    if e.line_items != Absent && !e.line_items.Bare? then
      Set(e, LineItems, Items(Bare(e.line_items.data.GetOr([]))))
    else
      e
  }

  /** Normalising twice is normalising once. */
  lemma NormalizeIdempotent(e: Entry)
    ensures Normalize(Normalize(e)) == Normalize(e)
  {
  }

  /** `handleChange(f, v)`: an array written to `line_items` is stored wrapped as `{data: v}`. */
  function StoredValue(f: Field, v: Value): (w: Value)
    ensures f == LineItems && v.Items? && v.items.Bare? ==> w == Items(Wrapped(Some(v.items.items)))
    ensures !(f == LineItems && v.Items? && v.items.Bare?) ==> w == v
  {
    if f == LineItems && v.Items? && v.items.Bare? then Items(Wrapped(Some(v.items.items))) else v
  }

  /** The entry `handleChange(f, v)` stores and passes to `onEntryChange`. */
  function DetailUpdate(e: Entry, f: Field, v: Value): (r: Entry)
    requires Fits(f, v)
    ensures Get(r, f) == StoredValue(f, v)
    ensures forall g :: g != f ==> Get(r, g) == Get(e, g)
    ensures r.id == e.id && r.created_at == e.created_at
  {
    Set(e, f, StoredValue(f, v))
  }

  /**
   * Round trip: the edited list comes back as the bare list once the
   * updated entry has passed through the normalising effect, with every
   * other field as before the edit.
   */
  lemma EditThenNormalize(e: Entry, xs: seq<LineItem>)
    ensures Normalize(DetailUpdate(e, LineItems, Items(Bare(xs)))) == e.(line_items := Bare(xs))
  {
    var r := Normalize(DetailUpdate(e, LineItems, Items(Bare(xs))));
    EntryExtensionality(r, e.(line_items := Bare(xs)));
  }

  /**
   * What the line-items editor shows for a normalised entry: the wrapper's
   * list, the bare list, or nothing.
   */
  lemma EditorShowsNormalizedItems(e: Entry)
    ensures e.line_items.Wrapped? ==> EditorItems(Normalize(e).line_items) == e.line_items.data.GetOr([])
    ensures e.line_items.Bare? ==> EditorItems(Normalize(e).line_items) == e.line_items.items
    ensures e.line_items.Absent? ==> EditorItems(Normalize(e).line_items) == []
  {
  }

  /** The panel's state cells, with the `entry` prop they were built from. */
  class DetailState {
    var entry: Entry
    var localEntry: Entry
    var saving: bool
    var approving: bool

    /** First render: `useState(entry)` copies the prop as it is. */
    constructor (entry: Entry)
      ensures this.entry == entry && localEntry == entry
      ensures !saving && !approving
    {
      this.entry := entry;
      localEntry := entry;
      saving := false;
      approving := false;
    }

    /** A new `entry` prop: the effect stores its normalised copy. */
    method EntryChanged(e: Entry)
      modifies this
      ensures entry == e && localEntry == Normalize(e)
      ensures saving == old(saving) && approving == old(approving)
    {
      entry := e;
      localEntry := Normalize(e);
    }

    /** `handleChange(f, v)`: the local entry gets the stored value; the result goes to `onEntryChange`. */
    method HandleChange(f: Field, v: Value) returns (updated: Entry)
      requires Fits(f, v)
      modifies this
      ensures updated == DetailUpdate(old(localEntry), f, v) && localEntry == updated
      ensures entry == old(entry) && saving == old(saving) && approving == old(approving)
    {
      updated := DetailUpdate(localEntry, f, v);
      localEntry := updated;
    }

    /** `handleSave` up to its `await`: the flag is raised and the local entry goes to `onSave`. */
    method BeginSave() returns (toSave: Entry)
      modifies this
      ensures saving && toSave == localEntry
      ensures entry == old(entry) && localEntry == old(localEntry) && approving == old(approving)
    {
      saving := true;
      toSave := localEntry;
    }

    /** The `finally` of `handleSave`: the flag drops whether `onSave` succeeded or threw. */
    method EndSave()
      modifies this
      ensures !saving
      ensures entry == old(entry) && localEntry == old(localEntry) && approving == old(approving)
    {
      saving := false;
    }

    /** Whether the "Save & Approve" button is disabled. */
    predicate ApproveDisabled()
      reads this
    {
      approving || entry.approved
    }

    /** `handleApprove` up to its `await`: the button is disabled while the approval runs. */
    method BeginApprove()
      modifies this
      ensures approving && ApproveDisabled()
      ensures entry == old(entry) && localEntry == old(localEntry) && saving == old(saving)
    {
      approving := true;
    }

    /** The `finally` of `handleApprove`: afterwards the button is disabled only for an approved entry. */
    method EndApprove()
      modifies this
      ensures !approving && (ApproveDisabled() <==> entry.approved)
      ensures entry == old(entry) && localEntry == old(localEntry) && saving == old(saving)
    {
      approving := false;
    }

    /** What the panel hands to the line-items editor. */
    function EditorList(): (xs: seq<LineItem>)
      reads this
      ensures localEntry.line_items.Bare? ==> xs == localEntry.line_items.items
      ensures !localEntry.line_items.Bare? ==> xs == []
    {
      EditorItems(localEntry.line_items)
    }
  }
}
