/**
 * The exclude list of the settings and its cursor (`exclude_materials`,
 * `exclude_materials_index`) as edited by `MATERIAL_OT_list_action.invoke`,
 * stated on values. The model assumes that the host's collection `remove` and
 * `move` refuse an index off the list by raising, so that the operator stops
 * with nothing changed.
 */
module ExcludeList {

  /** `MATERIAL_OT_list_action.action`. */
  datatype Action = Remove | Up | Down

  /** The list and cursor `invoke` leaves, or the error the collection raised. */
  datatype Outcome<T> = Finished(items: seq<T>, index: int) | OutOfRange

  /** `CollectionProperty.remove(i)`: the item at `i` is gone, the later ones move down by one. */
  function RemoveAt<T>(s: seq<T>, i: nat): (r: seq<T>)
    requires i < |s|
    ensures |r| == |s| - 1
    ensures forall k :: 0 <= k < i ==> r[k] == s[k]
    ensures forall k :: i <= k < |r| ==> r[k] == s[k + 1]
    ensures multiset(r) + multiset{s[i]} == multiset(s)
  {
    assert s == s[..i] + [s[i]] + s[i + 1..];
    s[..i] + s[i + 1..]
  }

  /** `CollectionProperty.move(from, to)`: the item at `from` is taken out and put back at position `to`. */
  function Move<T>(s: seq<T>, from: nat, to: nat): (r: seq<T>)
    requires from < |s| && to < |s|
    ensures |r| == |s| && r[to] == s[from]
    ensures multiset(r) == multiset(s)
  {
    var rest := RemoveAt(s, from);
    assert rest == rest[..to] + rest[to..];
    rest[..to] + [s[from]] + rest[to..]
  }

  /** Moving an item to a neighbouring position swaps the two. */
  lemma MoveNeighbourSwaps<T>(s: seq<T>, i: nat, j: nat)
    requires i < |s| && j < |s| && (j == i + 1 || i == j + 1)
    ensures Move(s, i, j) == s[i := s[j]][j := s[i]]
  {
    var r := Move(s, i, j);
    var w := s[i := s[j]][j := s[i]];
    forall k | 0 <= k < |s|
      ensures r[k] == w[k]
    {
      var rest := RemoveAt(s, i);
      if k < j {
        assert r[k] == rest[k];
      } else if k > j {
        assert r[k] == rest[k - 1];
      }
    }
  }

  /**
   * `MATERIAL_OT_list_action.invoke` on the list and the cursor. It fails
   * exactly when the action reaches the collection with the cursor off the
   * list; otherwise no item is added, and at most the one under the cursor is
   * removed.
   */
  function Invoke<T>(items: seq<T>, index: int, action: Action): (r: Outcome<T>)
    ensures r.OutOfRange? <==>
      !(0 <= index < |items|) &&
      (action == Remove || (action == Up && index > 0) || (action == Down && index < |items| - 1))
    ensures r.Finished? && action != Remove ==> multiset(r.items) == multiset(items)
    ensures r.Finished? && action == Remove ==> multiset(r.items) + multiset{items[index]} == multiset(items)
  {
    match action
    case Remove =>
      if 0 <= index < |items| then Finished(RemoveAt(items, index), if index > 0 then index - 1 else index)
      else OutOfRange
    case Up =>
      if index > 0 then
        if index < |items| then Finished(Move(items, index, index - 1), index - 1) else OutOfRange
      else Finished(items, index)
    case Down =>
      if index < |items| - 1 then
        if 0 <= index then Finished(Move(items, index, index + 1), index + 1) else OutOfRange
      else Finished(items, index)
  }

  /** REMOVE deletes exactly the item under the cursor and moves the cursor up unless it is at the top; it fails only off the list. */
  lemma RemoveEffect<T>(items: seq<T>, index: int)
    ensures Invoke(items, index, Remove).OutOfRange? <==> !(0 <= index < |items|)
    ensures Invoke(items, index, Remove).Finished? ==>
      var r := Invoke(items, index, Remove);
      r.items == items[..index] + items[index + 1..] && r.index == (if index > 0 then index - 1 else 0)
  {
  }

  /**
   * UP and DOWN swap the item under the cursor with its neighbour and leave
   * every other item in place (so length and multiset are kept), carry the
   * cursor along with its item, and change nothing at the ends of the list.
   */
  lemma MoveEffect<T>(items: seq<T>, index: int, action: Action)
    requires action != Remove
    requires 0 <= index < |items|
    ensures Invoke(items, index, action).Finished?
    ensures var r := Invoke(items, index, action);
      |r.items| == |items| && multiset(r.items) == multiset(items) &&
      0 <= r.index < |items| && r.items[r.index] == items[index] && r.items[index] == items[r.index]
    ensures var r := Invoke(items, index, action);
      r.items == items[index := items[r.index]][r.index := items[index]]
    ensures (action == Up && index == 0) || (action == Down && index == |items| - 1) ==>
      Invoke(items, index, action) == Finished(items, index)
  {
    if action == Up && index > 0 {
      MoveNeighbourSwaps(items, index, index - 1);
    } else if action == Down && index < |items| - 1 {
      MoveNeighbourSwaps(items, index, index + 1);
    }
  }

  /** A cursor on the list stays on the list after any action, or rests at 0 once the list is empty. */
  lemma InvokeKeepsCursor<T>(items: seq<T>, index: int, action: Action)
    requires 0 <= index < |items|
    ensures Invoke(items, index, action).Finished?
    ensures var r := Invoke(items, index, action);
      if r.items == [] then r.index == 0 else 0 <= r.index < |r.items|
  {
    if action != Remove {
      MoveEffect(items, index, action);
    }
  }
}
