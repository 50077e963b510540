/**
 * The line-items editor (components/LineItemsEditor.tsx). Every edit hands
 * a new list to `onChange`; these functions compute that list. The one
 * piece of local state, the expanded row, is `EditorState`.
 */
module LineItemsEditor {
  import opened Wrappers
  import opened Types

  /** The item "+ Add Line Item" appends. */
  const NewItem := LineItem("", 0.0, 1.0, 0.0, 0.0, 0.0, true)

  /**
   * `handleItemChange(i, f, v)`: a copy of the list whose item `i` has field
   * `f` set to `v`; the editor only calls it with the index of a shown row.
   */
  function ItemChange(items: seq<LineItem>, i: nat, f: ItemField, v: Value): (r: seq<LineItem>)
    requires i < |items| && FitsItem(f, v)
    ensures |r| == |items|
    ensures forall j :: 0 <= j < |items| && j != i ==> r[j] == items[j]
    ensures GetItem(r[i], f) == v
    ensures forall g :: g != f ==> GetItem(r[i], g) == GetItem(items[i], g)
  {
    items[i := SetItem(items[i], f, v)]
  }

  /** `handleAddItem()`: the list with the default item appended. */
  function AddItem(items: seq<LineItem>): (r: seq<LineItem>)
    ensures |r| == |items| + 1 && r[..|items|] == items && r[|items|] == NewItem
  {
    items + [NewItem]
  }

  /** The new item: no name, price 0, quantity 1, no discount, net price 0, no tax, included. */
  lemma NewItemDefaults()
    ensures GetItem(NewItem, Name) == Text("")
    ensures GetItem(NewItem, Quantity) == Amount(1.0)
    ensures forall f :: f in {Price, Discount, NetPrice, TaxGhtHst} ==> GetItem(NewItem, f) == Amount(0.0)
    ensures GetItem(NewItem, Included) == Flag(true)
  {
  }

  /** `items.filter((_, j) => j !== index)` over the items at positions `start`, `start + 1`, ... */
  function DropIndex(items: seq<LineItem>, index: int, start: int): seq<LineItem>
    decreases |items|
  {
    if items == [] then []
    else (if start != index then [items[0]] else []) + DropIndex(items[1..], index, start + 1)
  }

  /** `handleRemoveItem(index)`: the item at `index` is dropped, when there is one. */
  function RemoveItem(items: seq<LineItem>, index: int): (r: seq<LineItem>)
    ensures 0 <= index < |items| ==> r == items[..index] + items[index + 1..]
    ensures !(0 <= index < |items|) ==> r == items
  {
    DropIndexSpec(items, index, 0);
    DropIndex(items, index, 0)
  }

  lemma {:induction false} DropIndexSpec(items: seq<LineItem>, index: int, start: int)
    ensures DropIndex(items, index, start)
            == if start <= index < start + |items|
               then items[..index - start] + items[index - start + 1..]
               else items
    decreases |items|
  {
    if items != [] {
      DropIndexSpec(items[1..], index, start + 1);
      if start == index {
        assert items[..0] + items[1..] == items[1..];
      } else if start < index < start + |items| {
        assert [items[0]] + (items[1..][..index - start - 1] + items[1..][index - start..])
               == items[..index - start] + items[index - start + 1..];
      } else {
        assert [items[0]] + items[1..] == items;
      }
    }
  }

  /**
   * Removing drops exactly position `index` and keeps the other items in
   * their order; an index outside the list changes nothing.
   */
  lemma RemoveItemSpec(items: seq<LineItem>, index: int)
    ensures 0 <= index < |items| ==> RemoveItem(items, index) == items[..index] + items[index + 1..]
    ensures 0 <= index < |items| ==> |RemoveItem(items, index)| == |items| - 1
    ensures !(0 <= index < |items|) ==> RemoveItem(items, index) == items
  {
    DropIndexSpec(items, index, 0);
  }

  /** Removing the row just added gives back the list as it was. */
  lemma RemoveAfterAdd(items: seq<LineItem>)
    ensures RemoveItem(AddItem(items), |items|) == items
  {
    RemoveItemSpec(AddItem(items), |items|);
  }

  /** The editor's expanded row (`expandedId`), `None` when every row is collapsed. */
  class EditorState {
    var expandedId: Option<int>

    constructor ()
      ensures expandedId == None
    {
      expandedId := None;
    }

    /** Clicking row `i`: collapse it when it is the expanded one, otherwise expand it. */
    method ToggleRow(i: int)
      modifies this
      ensures old(expandedId) == Some(i) ==> expandedId == None
      ensures old(expandedId) != Some(i) ==> expandedId == Some(i)
    {
      expandedId := if expandedId == Some(i) then None else Some(i);
    }
  }
}
