/**
 * The cart toggle that both shopping pages perform on `state.selectedItems`:
 * `indexOf`, then `splice(idx, 1)` when the key is present and `push` when
 * it is not. `Toggled` is the list that results; the pages' `ToggleCart`
 * methods update their state to it.
 */
module Cart {
  import opened Text
  import Catalog

  /** `items.indexOf(x)`: the first position of `x`. */
  function FirstIndex(items: seq<string>, x: string): (r: Option<nat>)
    ensures r.Some? ==> r.value < |items| && items[r.value] == x
    ensures r.Some? ==> forall j :: 0 <= j < r.value ==> items[j] != x
    ensures r.None? <==> x !in items
    decreases |items|
  {
    if |items| == 0 then None
    else if items[0] == x then Some(0)
    else match FirstIndex(items[1..], x)
      case None => None
      case Some(i) => Some(i + 1)
  }

  /** The selection after one toggle of `id`. */
  function Toggled(items: seq<string>, id: string): seq<string> {
    match FirstIndex(items, id)
    case Some(i) => items[..i] + items[i + 1..]
    case None => items + [id]
  }

  /** A toggle removes one copy of a present key and adds one copy of an absent key; nothing else changes. */
  lemma ToggledCounts(items: seq<string>, id: string)
    ensures multiset(Toggled(items, id)) ==
      if id in items then multiset(items) - multiset{id} else multiset(items) + multiset{id}
  {
    match FirstIndex(items, id)
    case None =>
    case Some(i) =>
      assert items == items[..i] + [id] + items[i + 1..];
      assert multiset(items) == multiset(items[..i]) + multiset{id} + multiset(items[i + 1..]);
  }

  /** A toggle keeps the order of the keys it does not touch: a present key's first copy is cut out, an absent key goes last. */
  lemma ToggledShape(items: seq<string>, id: string)
    ensures id !in items ==> Toggled(items, id) == items + [id]
    ensures id in items ==>
      (exists i :: 0 <= i < |items| && items[i] == id && id !in items[..i] &&
         Toggled(items, id) == items[..i] + items[i + 1..])
  {
    match FirstIndex(items, id)
    case None =>
    case Some(i) =>
      assert id !in items[..i];
  }

  /** On a duplicate-free selection, a toggle flips the membership of `id` and of nothing else. */
  lemma ToggleFlips(items: seq<string>, id: string, other: string)
    requires Catalog.NoDups(items)
    ensures id in Toggled(items, id) <==> id !in items
    ensures other != id ==> (other in Toggled(items, id) <==> other in items)
  {
    ToggledCounts(items, id);
    assert id in Toggled(items, id) <==> multiset(Toggled(items, id))[id] > 0;
    assert other in Toggled(items, id) <==> multiset(Toggled(items, id))[other] > 0;
    if id in items {
      match FirstIndex(items, id)
      case Some(i) =>
        NoDupsOne(items, i);
    }
  }

  /** In a duplicate-free list a present key occurs once. */
  lemma NoDupsOne(items: seq<string>, i: nat)
    requires Catalog.NoDups(items) && i < |items|
    ensures multiset(items)[items[i]] == 1
  {
    var x := items[i];
    assert items == items[..i] + [x] + items[i + 1..];
    assert x !in items[..i] && x !in items[i + 1..] by {
      forall j | 0 <= j < |items| && j != i ensures items[j] != x { }
    }
    assert multiset(items) == multiset(items[..i]) + multiset{x} + multiset(items[i + 1..]);
  }

  /** Toggling keeps a duplicate-free selection duplicate-free. */
  lemma ToggleKeepsNoDups(items: seq<string>, id: string)
    requires Catalog.NoDups(items)
    ensures Catalog.NoDups(Toggled(items, id))
  {
    match FirstIndex(items, id)
    case None =>
      var r := items + [id];
      forall a, b | 0 <= a < b < |r| ensures r[a] != r[b] {
        if b == |items| { assert r[a] == items[a]; }
      }
    case Some(i) =>
      var r := items[..i] + items[i + 1..];
      forall a, b | 0 <= a < b < |r| ensures r[a] != r[b] {
        var a' := if a < i then a else a + 1;
        var b' := if b < i then b else b + 1;
        assert r[a] == items[a'] && r[b] == items[b'];
      }
  }

  /** Toggling an absent key twice gives back exactly the selection it started from. */
  lemma ToggleTwiceRestores(items: seq<string>, id: string)
    requires id !in items
    ensures Toggled(Toggled(items, id), id) == items
  {
    var once := items + [id];
    assert Toggled(items, id) == once;
    match FirstIndex(once, id)
    case Some(i) =>
      assert once[..|items|] == items;
    case None =>
  }
}
