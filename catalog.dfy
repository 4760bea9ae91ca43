/**
 * The shopping catalogue shared by both shopping pages and the server's
 * item-level export: eight base items, each expanded into a "classic" and an
 * "eco" card (`BASE_ITEMS.flatMap(...)`), lookup of a card by its key
 * (`PRODUCTS.find`), lookup of a base item by id (`BASE_ITEMS.find`), and the
 * order-keeping de-duplication that `Array.from(new Set(...))` performs.
 */
module Catalog {
  import opened Text

  datatype Variant = Classic | Eco

  /** A base item; `price` is in fen (hundredths of a yuan). */
  datatype Item = Item(id: string, category: string, name: string, price: nat)

  /** One product card. */
  datatype Product = Product(key: string, baseId: string, category: string, name: string, variant: Variant, tag: string)

  function Suffix(v: Variant): string {
    match v
    case Classic => "-classic"
    case Eco => "-eco"
  }

  /** The card of one variant of a base item: key `id + '-classic'` or `id + '-eco'`. */
  function Card(base: Item, v: Variant, tag: string): Product {
    Product(base.id + Suffix(v), base.id, base.category, base.name, v, tag)
  }

  /** `bases.flatMap(base => [classic card, eco card])`. */
  function Expand(bases: seq<Item>, classicTag: string, ecoTag: string): seq<Product>
    decreases |bases|
  {
    if |bases| == 0 then []
    else [Card(bases[0], Classic, classicTag), Card(bases[0], Eco, ecoTag)] + Expand(bases[1..], classicTag, ecoTag)
  }

  /** Exactly two cards per base item, classic then eco, in base order. */
  lemma {:induction false} ExpandShape(bases: seq<Item>, classicTag: string, ecoTag: string)
    ensures |Expand(bases, classicTag, ecoTag)| == 2 * |bases|
    ensures forall i :: 0 <= i < |bases| ==>
      Expand(bases, classicTag, ecoTag)[2 * i] == Card(bases[i], Classic, classicTag) &&
      Expand(bases, classicTag, ecoTag)[2 * i + 1] == Card(bases[i], Eco, ecoTag)
    decreases |bases|
  {
    if |bases| > 0 {
      ExpandShape(bases[1..], classicTag, ecoTag);
      var e := Expand(bases, classicTag, ecoTag);
      var rest := Expand(bases[1..], classicTag, ecoTag);
      assert e == [Card(bases[0], Classic, classicTag), Card(bases[0], Eco, ecoTag)] + rest;
      forall i | 1 <= i < |bases|
        ensures e[2 * i] == Card(bases[i], Classic, classicTag) && e[2 * i + 1] == Card(bases[i], Eco, ecoTag)
      {
        assert e[2 * i] == rest[2 * (i - 1)];
        assert e[2 * i + 1] == rest[2 * (i - 1) + 1];
        assert bases[1..][i - 1] == bases[i];
      }
    }
  }

  /** Every card of an expansion comes from one of the base items. */
  lemma ExpandFrom(bases: seq<Item>, classicTag: string, ecoTag: string, k: nat)
    requires k < 2 * |bases|
    ensures |Expand(bases, classicTag, ecoTag)| == 2 * |bases|
    ensures Expand(bases, classicTag, ecoTag)[k] ==
      Card(bases[k / 2], if k % 2 == 0 then Classic else Eco, if k % 2 == 0 then classicTag else ecoTag)
  {
    ExpandShape(bases, classicTag, ecoTag);
    assert k == 2 * (k / 2) + k % 2;
  }

  predicate DistinctIds(bases: seq<Item>) {
    forall i, j :: 0 <= i < j < |bases| ==> bases[i].id != bases[j].id
  }

  predicate DistinctKeys(ps: seq<Product>) {
    forall i, j :: 0 <= i < j < |ps| ==> ps[i].key != ps[j].key
  }

  /** A classic key and an eco key never coincide, so distinct ids give distinct keys. */
  lemma CardKeysDiffer(a: Item, b: Item, va: Variant, vb: Variant, ta: string, tb: string)
    requires a.id != b.id || va != vb
    ensures Card(a, va, ta).key != Card(b, vb, tb).key
  {
    var ka, kb := Card(a, va, ta).key, Card(b, vb, tb).key;
    assert ka[..|ka| - |Suffix(va)|] == a.id;
    assert kb[..|kb| - |Suffix(vb)|] == b.id;
    assert ka[|ka| - 1] == if va == Classic then 'c' else 'o';
    assert kb[|kb| - 1] == if vb == Classic then 'c' else 'o';
  }

  lemma ExpandKeysDistinct(bases: seq<Item>, classicTag: string, ecoTag: string)
    requires DistinctIds(bases)
    ensures DistinctKeys(Expand(bases, classicTag, ecoTag))
  {
    var e := Expand(bases, classicTag, ecoTag);
    ExpandShape(bases, classicTag, ecoTag);
    forall i, j | 0 <= i < j < |e| ensures e[i].key != e[j].key {
      ExpandFrom(bases, classicTag, ecoTag, i);
      ExpandFrom(bases, classicTag, ecoTag, j);
      CardKeysDiffer(bases[i / 2], bases[j / 2],
        if i % 2 == 0 then Classic else Eco, if j % 2 == 0 then Classic else Eco,
        if i % 2 == 0 then classicTag else ecoTag, if j % 2 == 0 then classicTag else ecoTag);
    }
  }

  // ---------------------------------------------------------------------------
  // Lookups

  /** `products.find(x => x.key === key)`. */
  function Find(ps: seq<Product>, key: string): (r: Option<Product>)
    ensures r.Some? ==> r.value in ps && r.value.key == key
    ensures r.Some? ==> exists i :: 0 <= i < |ps| && ps[i] == r.value && forall j :: 0 <= j < i ==> ps[j].key != key
    ensures r.None? ==> forall i :: 0 <= i < |ps| ==> ps[i].key != key
    decreases |ps|
  {
    if |ps| == 0 then None
    else if ps[0].key == key then Some(ps[0])
    else Find(ps[1..], key)
  }

  /** With distinct keys, looking up the key of a card finds that card. */
  lemma {:induction false} FindUnique(ps: seq<Product>, k: nat)
    requires DistinctKeys(ps) && k < |ps|
    ensures Find(ps, ps[k].key) == Some(ps[k])
    decreases |ps|
  {
    if k > 0 {
      assert ps[0].key != ps[k].key;
      assert ps[1..][k - 1] == ps[k];
      FindUnique(ps[1..], k - 1);
    }
  }

  /** `bases.find(x => x.id === id)`. */
  function FindItem(bases: seq<Item>, id: string): (r: Option<Item>)
    ensures r.Some? ==> r.value in bases && r.value.id == id
    ensures r.Some? ==> exists i :: 0 <= i < |bases| && bases[i] == r.value && forall j :: 0 <= j < i ==> bases[j].id != id
    ensures r.None? ==> forall i :: 0 <= i < |bases| ==> bases[i].id != id
    decreases |bases|
  {
    if |bases| == 0 then None
    else if bases[0].id == id then Some(bases[0])
    else FindItem(bases[1..], id)
  }

  lemma {:induction false} FindItemUnique(bases: seq<Item>, k: nat)
    requires DistinctIds(bases) && k < |bases|
    ensures FindItem(bases, bases[k].id) == Some(bases[k])
    decreases |bases|
  {
    if k > 0 {
      assert bases[1..][k - 1] == bases[k];
      FindItemUnique(bases[1..], k - 1);
    }
  }

  /** `baseOf(p).price`: the price of the card's base item, 0 for `{ price: 0 }` when none matches. */
  function BasePrice(bases: seq<Item>, p: Product): nat {
    match FindItem(bases, p.baseId)
    case Some(b) => b.price
    case None => 0
  }

  /** Every card of the expansion is priced at its own base item's price. */
  lemma ExpandPrice(bases: seq<Item>, classicTag: string, ecoTag: string, k: nat)
    requires DistinctIds(bases) && k < 2 * |bases|
    ensures |Expand(bases, classicTag, ecoTag)| == 2 * |bases|
    ensures BasePrice(bases, Expand(bases, classicTag, ecoTag)[k]) == bases[k / 2].price
  {
    ExpandFrom(bases, classicTag, ecoTag, k);
    FindItemUnique(bases, k / 2);
  }

  /**
   * `selected.map(id => products.find(x => x.key === id)).filter(Boolean)`,
   * the same walk as a `forEach` that skips keys without a card.
   */
  function Lookup(selected: seq<string>, ps: seq<Product>): (r: seq<Product>)
    ensures |r| <= |selected|
    decreases |selected|
  {
    if |selected| == 0 then []
    else
      var front := Lookup(selected[..|selected| - 1], ps);
      match Find(ps, selected[|selected| - 1])
      case Some(p) => front + [p]
      case None => front
  }

  /** The walk keeps selection order: looking up a concatenation concatenates the lookups. */
  lemma {:induction false} LookupAppend(s: seq<string>, t: seq<string>, ps: seq<Product>)
    ensures Lookup(s + t, ps) == Lookup(s, ps) + Lookup(t, ps)
    decreases |t|
  {
    if |t| > 0 {
      var t' := t[..|t| - 1];
      assert (s + t)[..|s + t| - 1] == s + t';
      assert (s + t)[|s + t| - 1] == t[|t| - 1];
      LookupAppend(s, t', ps);
    } else {
      assert s + t == s;
    }
  }

  /** A card is listed exactly when some selected key finds it. */
  lemma {:induction false} LookupMembers(selected: seq<string>, ps: seq<Product>, p: Product)
    ensures p in Lookup(selected, ps) <==> exists i :: 0 <= i < |selected| && Find(ps, selected[i]) == Some(p)
    decreases |selected|
  {
    if |selected| > 0 {
      var n := |selected| - 1;
      var front := selected[..n];
      LookupMembers(front, ps, p);
      var found := Find(ps, selected[n]);
      assert Lookup(selected, ps) == Lookup(front, ps) + (if found.Some? then [found.value] else []);
      if p in Lookup(selected, ps) {
        if p in Lookup(front, ps) {
          var i :| 0 <= i < |front| && Find(ps, front[i]) == Some(p);
          assert selected[i] == front[i];
        } else {
          assert Find(ps, selected[n]) == Some(p);
        }
      }
      if exists i :: 0 <= i < |selected| && Find(ps, selected[i]) == Some(p) {
        var i :| 0 <= i < |selected| && Find(ps, selected[i]) == Some(p);
        if i < n {
          assert front[i] == selected[i];
        }
      }
    }
  }

  /** Every selected key that names a card contributes one line; unknown keys none. */
  lemma {:induction false} LookupLength(selected: seq<string>, ps: seq<Product>)
    ensures |Lookup(selected, ps)| == KnownCount(selected, ps)
    decreases |selected|
  {
    if |selected| > 0 {
      LookupLength(selected[..|selected| - 1], ps);
    }
  }

  /** How many selected keys name a card. */
  function KnownCount(selected: seq<string>, ps: seq<Product>): nat
    decreases |selected|
  {
    if |selected| == 0 then 0
    else KnownCount(selected[..|selected| - 1], ps) + (if Find(ps, selected[|selected| - 1]).Some? then 1 else 0)
  }

  // ---------------------------------------------------------------------------
  // Order-keeping de-duplication

  predicate NoDups<T(==)>(s: seq<T>) {
    forall i, j :: 0 <= i < j < |s| ==> s[i] != s[j]
  }

  /** `Array.from(new Set(s))`: each value once, at the place it first appears. */
  function Dedup(s: seq<string>): (r: seq<string>)
    ensures NoDups(r)
    ensures forall x :: x in r <==> x in s
    decreases |s|
  {
    if |s| == 0 then []
    else
      var d := Dedup(s[..|s| - 1]);
      assert forall x :: x in s <==> x in s[..|s| - 1] || x == s[|s| - 1];
      if s[|s| - 1] in d then d else d + [s[|s| - 1]]
  }
}
