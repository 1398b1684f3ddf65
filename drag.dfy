/**
 * Drag-and-drop reordering of shortcuts in edit mode: while an item is
 * dragged over another, the preview order takes the dragged item out of
 * its place and puts it in at the drop index.
 */
module Drag {
  import opened Json

  /** `s.splice(i, 1)` for an index inside `s`: the rest, in order. */
  function Remove<T>(s: seq<T>, i: nat): (r: seq<T>)
    requires i < |s|
    ensures |r| == |s| - 1
  {
    s[..i] + s[i + 1..]
  }

  /** `s.splice(i, 0, x)`: `x` goes in at `i`, or last when `i` is past the end. */
  function Insert<T>(s: seq<T>, i: nat, x: T): (r: seq<T>)
    ensures |r| == |s| + 1
    ensures r[if i < |s| then i else |s|] == x
  {
    var at := if i < |s| then i else |s|;
    s[..at] + [x] + s[at..]
  }

  /** The preview order after dragging the item at `from` to `to`. */
  function Moved<T>(s: seq<T>, from: nat, to: nat): seq<T>
    requires from < |s|
  {
    Insert(Remove(s, from), to, s[from])
  }

  /** The same items, only reordered. */
  lemma MovedIsPermutation<T>(s: seq<T>, from: nat, to: nat)
    requires from < |s|
    ensures |Moved(s, from, to)| == |s|
    ensures multiset(Moved(s, from, to)) == multiset(s)
  {
    var rest := Remove(s, from);
    assert s == s[..from] + [s[from]] + s[from + 1..];
    assert rest == s[..from] + s[from + 1..];
    var at := if to < |rest| then to else |rest|;
    assert rest == rest[..at] + rest[at..];
    var m := Moved(s, from, to);
    assert m == rest[..at] + [s[from]] + rest[at..];
    calc {
      multiset(m);
      multiset(rest[..at]) + multiset{s[from]} + multiset(rest[at..]);
      multiset(rest) + multiset{s[from]};
      multiset(s[..from]) + multiset(s[from + 1..]) + multiset{s[from]};
      multiset(s);
    }
  }

  /** The dragged item lands at the drop index, and the other items keep their relative order. */
  lemma MovedPlacesItem<T>(s: seq<T>, from: nat, to: nat)
    requires from < |s| && to < |s|
    ensures Moved(s, from, to)[to] == s[from]
    ensures Remove(Moved(s, from, to), to) == Remove(s, from)
  {
    var rest := Remove(s, from);
    var m := Moved(s, from, to);
    assert m == rest[..to] + [s[from]] + rest[to..];
    assert Remove(m, to) == rest;
  }

  /** Dragging the item back from the drop index to where it came from restores the order. */
  lemma MovedBack<T>(s: seq<T>, from: nat, to: nat)
    requires from < |s| && to < |s|
    ensures Moved(Moved(s, from, to), to, from) == s
  {
    var m := Moved(s, from, to);
    MovedPlacesItem(s, from, to);
    assert Moved(m, to, from) == Insert(Remove(s, from), from, s[from]);
    assert Insert(Remove(s, from), from, s[from]) == s;
  }

  /** The drag state of edit mode: the preview order and where the dragged item now is. */
  class DragPreview {
    var preview: seq<Json>
    var draggedFrom: nat
    /** The element the dragged item was last over, by identity; none at the start. */
    var lastTarget: int
    var hasTarget: bool

    predicate Valid()
      reads this
    {
      draggedFrom < |preview|
    }

    /** `handleDragStart` on the item at `index`: preview the current order. */
    constructor (shortcuts: seq<Json>, index: nat)
      requires index < |shortcuts|
      ensures Valid() && preview == shortcuts && draggedFrom == index && !hasTarget
    {
      preview := shortcuts;
      draggedFrom := index;
      lastTarget := 0;
      hasTarget := false;
    }

    /**
     * `handleDragOver` in edit mode on the element `target` showing the item
     * at `dropIndex`: a new target with another index moves the dragged
     * item there; the same target or the item's own index changes nothing.
     */
    method DragOver(target: int, dropIndex: nat)
      requires Valid() && dropIndex < |preview|
      modifies this
      ensures Valid() && |preview| == |old(preview)| && multiset(preview) == multiset(old(preview))
      ensures (old(hasTarget) && old(lastTarget) == target) || dropIndex == old(draggedFrom) ==>
        preview == old(preview) && draggedFrom == old(draggedFrom) && hasTarget == old(hasTarget) && lastTarget == old(lastTarget)
      ensures !(old(hasTarget) && old(lastTarget) == target) && dropIndex != old(draggedFrom) ==>
        preview == Moved(old(preview), old(draggedFrom), dropIndex) &&
        preview[dropIndex] == old(preview)[old(draggedFrom)] &&
        draggedFrom == dropIndex && hasTarget && lastTarget == target
    {
      if (hasTarget && lastTarget == target) || dropIndex == draggedFrom {
        return;
      }
      lastTarget := target;
      hasTarget := true;
      var item := preview[draggedFrom];
      var next := Remove(preview, draggedFrom);
      next := Insert(next, dropIndex, item);
      MovedIsPermutation(preview, draggedFrom, dropIndex);
      MovedPlacesItem(preview, draggedFrom, dropIndex);
      assert next == Moved(preview, draggedFrom, dropIndex);
      preview := next;
      draggedFrom := dropIndex;
    }
  }
}
