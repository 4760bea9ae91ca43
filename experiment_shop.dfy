/**
 * The shopping page of the experiment (public/experiment/shopping-task-entry.js):
 * the music group taken from the subject id, the priced catalogue, category
 * filter and price sort, the cart toggle, the drawer total, the category
 * list, `selected_categories`, and the two run-once guards that start the
 * music. The countdown is `Countdown.Timer`.
 *
 * `localStorage`, `Math.random()` and `Date.now()` are parameters; what the
 * audio manager's promise settles to is the parameter `outcome`.
 */
module ExperimentShop {
  import opened Text
  import opened Catalog
  import Cart
  import ExperimentAudio

  const AllCategories := "全部"

  /** `BASE_ITEMS` with prices in fen. */
  const BaseItems: seq<Item> := [
    Item("food-coffee", "食品", "咖啡", 5900),
    Item("food-vegetable", "食品", "蔬菜", 2900),
    Item("textile-jacket", "纺织", "冲锋衣", 23900),
    Item("textile-bag", "纺织", "书包", 19900),
    Item("care-skin", "个护", "护肤", 12900),
    Item("care-soap", "个护", "香皂", 1990),
    Item("daily-clean1", "日用", "洗衣液", 5900),
    Item("daily-clean2", "日用", "家用清洁剂", 3900)
  ]

  /** `PRODUCTS`: both variants of every base item, with empty tags. */
  const Products: seq<Product> := Expand(BaseItems, "", "")

  lemma BaseIdsDistinct()
    ensures DistinctIds(BaseItems)
  {
    forall i, j | 0 <= i < j < |BaseItems| ensures BaseItems[i].id != BaseItems[j].id {
    }
  }

  /** 16 cards with distinct keys: card `2i` is `id + '-classic'` and card `2i + 1` is `id + '-eco'` of base item `i`. */
  lemma ProductsShape()
    ensures |Products| == 16 && DistinctKeys(Products)
    ensures forall i :: 0 <= i < 8 ==>
      Products[2 * i].key == BaseItems[i].id + "-classic" && Products[2 * i].variant == Classic &&
      Products[2 * i + 1].key == BaseItems[i].id + "-eco" && Products[2 * i + 1].variant == Eco
  {
    ExpandShape(BaseItems, "", "");
    BaseIdsDistinct();
    ExpandKeysDistinct(BaseItems, "", "");
  }

  // ---------------------------------------------------------------------------
  // Music group

  /**
   * The group the subject id decides: strip the non-digits, parse the rest;
   * odd gives `'nostalgia'`, even `'neutral'`, no digit at all decides
   * nothing. `None` also stands for a missing or falsy `subjectInfo.id`.
   */
  function GroupFromSubject(subjectId: Option<string>): Option<string> {
    if subjectId.None? || subjectId.value == "" then None
    else match ParseDigits(KeepDigits(subjectId.value))
      case None => None
      case Some(n) => Some(if n % 2 == 1 then "nostalgia" else "neutral")
  }

  /** The group chosen, and the value written to `localStorage.musicGroup` (`None`: nothing written). */
  datatype GroupChoice = GroupChoice(group: string, written: Option<string>)

  /** The subject id first, then a stored non-empty group, then `Math.random() < 0.5 ? 'neutral' : 'nostalgia'`. */
  function ChooseGroup(subjectId: Option<string>, stored: Option<string>, roll: real): GroupChoice {
    match GroupFromSubject(subjectId)
    case Some(g) => GroupChoice(g, Some(g))
    case None =>
      if stored.Some? && stored.value != "" then GroupChoice(stored.value, None)
      else
        var g := if roll < 0.5 then "neutral" else "nostalgia";
        GroupChoice(g, Some(g))
  }

  /** A subject id with digits decides by the parity of its last digit; one without digits decides nothing. */
  lemma SubjectParity(id: string)
    requires id != ""
    ensures KeepDigits(id) == "" <==> GroupFromSubject(Some(id)).None?
    ensures KeepDigits(id) == "" <==> forall i :: 0 <= i < |id| ==> !IsDigit(id[i])
    ensures var d := KeepDigits(id);
      d != "" ==>
        GroupFromSubject(Some(id)) == Some(if DigitValue(d[|d| - 1]) % 2 == 1 then "nostalgia" else "neutral")
    ensures forall i :: 0 <= i < |id| && IsDigit(id[i]) && (forall j :: i < j < |id| ==> !IsDigit(id[j])) ==>
      GroupFromSubject(Some(id)) == Some(if DigitValue(id[i]) % 2 == 1 then "nostalgia" else "neutral")
  {
    KeepDigitsEmpty(id);
    var d := KeepDigits(id);
    if d != "" {
      DigitsParity(d);
    }
    forall i | 0 <= i < |id| && IsDigit(id[i]) && (forall j :: i < j < |id| ==> !IsDigit(id[j]))
      ensures GroupFromSubject(Some(id)) == Some(if DigitValue(id[i]) % 2 == 1 then "nostalgia" else "neutral")
    {
      KeepDigitsLast(id, i);
    }
  }

  /**
   * The subject id overrides whatever is stored and the random roll; only
   * without it is the stored group kept (and not rewritten); the random pick
   * is the last resort. The group is stored whenever it was not read from
   * storage.
   */
  lemma ChooseGroupOrder(subjectId: Option<string>, stored: Option<string>, roll: real, stored2: Option<string>, roll2: real)
    ensures GroupFromSubject(subjectId).Some? ==>
      ChooseGroup(subjectId, stored, roll) == ChooseGroup(subjectId, stored2, roll2) &&
      ChooseGroup(subjectId, stored, roll).group in {"nostalgia", "neutral"}
    ensures GroupFromSubject(subjectId).None? && stored.Some? && stored.value != "" ==>
      ChooseGroup(subjectId, stored, roll) == GroupChoice(stored.value, None)
    ensures var c := ChooseGroup(subjectId, stored, roll);
      c.written.None? <==> GroupFromSubject(subjectId).None? && stored.Some? && stored.value != ""
    ensures var c := ChooseGroup(subjectId, stored, roll);
      c.written.Some? ==> c.written.value == c.group && c.group in {"nostalgia", "neutral"}
    ensures ChooseGroup(subjectId, stored, roll).group != ""
  {
  }

  /** The digits of an id `P00c` are `00c`. */
  lemma KeepDigitsP00(c: char)
    requires IsDigit(c)
    ensures KeepDigits(['P', '0', '0', c]) == ['0', '0', c]
  {
    var id := ['P', '0', '0', c];
    assert id[..1][..0] == [];
    assert KeepDigits(id[..1]) == [];
    assert id[..2][..1] == id[..1];
    assert KeepDigits(id[..2]) == ['0'];
    assert id[..3][..2] == id[..2];
    assert KeepDigits(id[..3]) == ['0', '0'];
    assert id[..|id| - 1] == id[..3];
  }

  /** Subject ids `P001` and `P002` land in opposite groups. */
  lemma SubjectExamples()
    ensures GroupFromSubject(Some("P001")) == Some("nostalgia")
    ensures GroupFromSubject(Some("P002")) == Some("neutral")
  {
    KeepDigitsP00('1');
    assert "P001" == ['P', '0', '0', '1'];
    DigitsParity("001");
    KeepDigitsP00('2');
    assert "P002" == ['P', '0', '0', '2'];
    DigitsParity("002");
  }

  // ---------------------------------------------------------------------------
  // Filter, sort, categories

  predicate Shown(p: Product, category: string) {
    category == AllCategories || p.category == category
  }

  /** `items.filter(p => p.category === state.category)`, skipped for `'全部'`. */
  function FilterCategory(ps: seq<Product>, category: string): (r: seq<Product>)
    ensures category == AllCategories ==> r == ps
    ensures forall p :: p in r <==> p in ps && Shown(p, category)
    ensures multiset(r) <= multiset(ps)
    decreases |ps|
  {
    if |ps| == 0 then []
    else
      var rest := FilterCategory(ps[1..], category);
      assert ps == [ps[0]] + ps[1..];
      if Shown(ps[0], category) then [ps[0]] + rest else rest
  }

  /** The filter keeps catalogue order: filtering a concatenation concatenates the filtered parts. */
  lemma {:induction false} FilterCategoryAppend(a: seq<Product>, b: seq<Product>, category: string)
    ensures FilterCategory(a + b, category) == FilterCategory(a, category) + FilterCategory(b, category)
    decreases |a|
  {
    if |a| == 0 {
      assert a + b == b;
    } else {
      assert (a + b)[0] == a[0];
      assert (a + b)[1..] == a[1..] + b;
      FilterCategoryAppend(a[1..], b, category);
    }
  }

  /** Adjacent cards are in order of `key`. */
  predicate SortedBy(s: seq<Product>, key: Product -> int) {
    forall i :: 0 < i < |s| ==> key(s[i - 1]) <= key(s[i])
  }

  /** Adjacent order gives order between any two cards. */
  lemma {:induction false} SortedPairs(s: seq<Product>, key: Product -> int, i: nat, j: nat)
    requires SortedBy(s, key) && i <= j < |s|
    ensures key(s[i]) <= key(s[j])
    decreases j - i
  {
    if i < j {
      SortedPairs(s, key, i, j - 1);
    }
  }

  /** Insert `p` before the first card with a key not below its own. */
  function Insert(p: Product, sorted: seq<Product>, key: Product -> int): (r: seq<Product>)
    ensures |r| == |sorted| + 1 && (r[0] == p || (|sorted| > 0 && r[0] == sorted[0]))
    ensures multiset(r) == multiset(sorted) + multiset{p}
    ensures SortedBy(sorted, key) ==> SortedBy(r, key)
    decreases |sorted|
  {
    if |sorted| == 0 then [p]
    else if key(p) <= key(sorted[0]) then [p] + sorted
    else
      assert sorted == [sorted[0]] + sorted[1..];
      [sorted[0]] + Insert(p, sorted[1..], key)
  }

  /** `items.sort(...)` by ascending `key`; cards with equal keys keep their order. */
  function SortBy(s: seq<Product>, key: Product -> int): (r: seq<Product>)
    ensures multiset(r) == multiset(s)
    ensures SortedBy(r, key)
    decreases |s|
  {
    if |s| == 0 then []
    else
      assert s == [s[0]] + s[1..];
      Insert(s[0], SortBy(s[1..], key), key)
  }

  /** The cards `renderProducts` lists for a category and a sort: the comparators are `baseOf(a).price - baseOf(b).price` and its reverse. */
  function Visible(bases: seq<Item>, ps: seq<Product>, category: string, sort: string): seq<Product> {
    var items := FilterCategory(ps, category);
    if sort == "price-asc" then SortBy(items, AscPrice(bases))
    else if sort == "price-desc" then SortBy(items, DescPrice(bases))
    else items
  }

  function AscPrice(bases: seq<Item>): Product -> int {
    p => BasePrice(bases, p) as int
  }

  function DescPrice(bases: seq<Item>): Product -> int {
    p => -(BasePrice(bases, p) as int)
  }

  /**
   * The listed cards are exactly the cards of the chosen category (all of
   * them for `'全部'`), each once; `'price-asc'` orders them by rising base
   * price, `'price-desc'` by falling base price, any other sort keeps
   * catalogue order.
   */
  lemma VisibleSpec(bases: seq<Item>, ps: seq<Product>, category: string, sort: string)
    ensures multiset(Visible(bases, ps, category, sort)) == multiset(FilterCategory(ps, category))
    ensures forall p :: p in Visible(bases, ps, category, sort) <==> p in ps && Shown(p, category)
    ensures sort == "price-asc" ==> forall i, j :: 0 <= i < j < |Visible(bases, ps, category, sort)| ==>
      BasePrice(bases, Visible(bases, ps, category, sort)[i]) <= BasePrice(bases, Visible(bases, ps, category, sort)[j])
    ensures sort == "price-desc" ==> forall i, j :: 0 <= i < j < |Visible(bases, ps, category, sort)| ==>
      BasePrice(bases, Visible(bases, ps, category, sort)[i]) >= BasePrice(bases, Visible(bases, ps, category, sort)[j])
    ensures sort != "price-asc" && sort != "price-desc" ==> Visible(bases, ps, category, sort) == FilterCategory(ps, category)
  {
    var items := FilterCategory(ps, category);
    var v := Visible(bases, ps, category, sort);
    forall p ensures p in v <==> p in items {
      assert p in v <==> p in multiset(v);
      assert p in items <==> p in multiset(items);
    }
    if sort == "price-asc" {
      forall i, j | 0 <= i < j < |v| ensures AscPrice(bases)(v[i]) <= AscPrice(bases)(v[j]) {
        SortedPairs(v, AscPrice(bases), i, j);
      }
    } else if sort == "price-desc" {
      forall i, j | 0 <= i < j < |v| ensures DescPrice(bases)(v[i]) <= DescPrice(bases)(v[j]) {
        SortedPairs(v, DescPrice(bases), i, j);
      }
    }
  }

  /** The values of `s.map(x => x.category)`. */
  function CategoriesOf(bases: seq<Item>): (r: seq<string>)
    ensures |r| == |bases| && forall i :: 0 <= i < |bases| ==> r[i] == bases[i].category
  {
    seq(|bases|, i requires 0 <= i < |bases| => bases[i].category)
  }

  /** `['全部', ...new Set(BASE_ITEMS.map(i => i.category))]`. */
  function CategoryList(bases: seq<Item>): (r: seq<string>)
    ensures |r| >= 1 && r[0] == AllCategories && NoDups(r[1..])
    ensures forall c :: c in r[1..] <==> exists i :: 0 <= i < |bases| && bases[i].category == c
  {
    var d := Dedup(CategoriesOf(bases));
    assert ([AllCategories] + d)[1..] == d;
    [AllCategories] + d
  }

  /** A value not seen before is appended. */
  lemma DedupSnocNew(s: seq<string>, x: string)
    requires x !in s
    ensures Dedup(s + [x]) == Dedup(s) + [x]
  {
    assert (s + [x])[..|s|] == s;
  }

  /** A value seen before adds nothing. */
  lemma DedupSnocOld(s: seq<string>, x: string)
    requires x in s
    ensures Dedup(s + [x]) == Dedup(s)
  {
    assert (s + [x])[..|s|] == s;
  }

  /** A new value given twice in a row is kept once. */
  lemma DedupTwice(s: seq<string>, x: string)
    requires x !in s
    ensures Dedup(s + [x, x]) == Dedup(s) + [x]
  {
    var t := s + [x, x];
    assert t[..|t| - 1] == s + [x];
    DedupSnocNew(s, x);
    assert x in Dedup(s + [x]);
  }

  /** Four distinct values, each given twice in a row, come out once each. */
  lemma DedupPairs(f: string, t: string, g: string, d: string)
    requires f != t && f != g && f != d && t != g && t != d && g != d
    ensures Dedup([f, f, t, t, g, g, d, d]) == [f, t, g, d]
  {
    DedupTwice([], f);
    assert [] + [f, f] == [f, f];
    DedupTwice([f, f], t);
    assert [f, f] + [t, t] == [f, f, t, t];
    DedupTwice([f, f, t, t], g);
    assert [f, f, t, t] + [g, g] == [f, f, t, t, g, g];
    DedupTwice([f, f, t, t, g, g], d);
    assert [f, f, t, t, g, g] + [d, d] == [f, f, t, t, g, g, d, d];
  }

  /** The four categories of the catalogue in first-appearance order, after `'全部'`. */
  lemma CategoryListValue()
    ensures CategoryList(BaseItems) == ["全部", "食品", "纺织", "个护", "日用"]
  {
    var f, t, g, d := "食品", "纺织", "个护", "日用";
    assert CategoriesOf(BaseItems) == [f, f, t, t, g, g, d, d];
    DedupPairs(f, t, g, d);
  }

  /** The distinct categories of the cards the selected keys name in `ps`, first appearance first. */
  function CategoriesIn(ps: seq<Product>, selected: seq<string>): seq<string> {
    var lines := Lookup(selected, ps);
    Dedup(seq(|lines|, i requires 0 <= i < |lines| => lines[i].category))
  }

  /** A category is listed once, and exactly when some selected key names a card of that category in `ps`. */
  lemma CategoriesInSpec(ps: seq<Product>, selected: seq<string>, c: string)
    ensures NoDups(CategoriesIn(ps, selected))
    ensures c in CategoriesIn(ps, selected) <==>
      exists i :: 0 <= i < |selected| && Find(ps, selected[i]).Some? && Find(ps, selected[i]).value.category == c
  {
    var lines := Lookup(selected, ps);
    var cats := seq(|lines|, i requires 0 <= i < |lines| => lines[i].category);
    if c in cats {
      var k :| 0 <= k < |cats| && cats[k] == c;
      LookupMembers(selected, ps, lines[k]);
    }
    if exists i :: 0 <= i < |selected| && Find(ps, selected[i]).Some? && Find(ps, selected[i]).value.category == c {
      var i :| 0 <= i < |selected| && Find(ps, selected[i]).Some? && Find(ps, selected[i]).value.category == c;
      var p := Find(ps, selected[i]).value;
      LookupMembers(selected, ps, p);
      var k :| 0 <= k < |lines| && lines[k] == p;
      assert cats[k] == c;
    }
  }

  /** `selected_categories`: the distinct categories of the selected keys that name a card, first appearance first. */
  function SelectedCategories(selected: seq<string>): seq<string> {
    CategoriesIn(Products, selected)
  }

  /** A category is listed once, and exactly when some selected key names a card of that category; unknown keys add nothing. */
  lemma SelectedCategoriesSpec(selected: seq<string>, c: string)
    ensures NoDups(SelectedCategories(selected))
    ensures c in SelectedCategories(selected) <==>
      exists i :: 0 <= i < |selected| && Find(Products, selected[i]).Some? && Find(Products, selected[i]).value.category == c
  {
    CategoriesInSpec(Products, selected, c);
  }

  // ---------------------------------------------------------------------------
  // Drawer total

  /** The base price of the card a key names, nothing for an unknown key. */
  function LinePrice(bases: seq<Item>, ps: seq<Product>, id: string): nat {
    match Find(ps, id)
    case Some(p) => BasePrice(bases, p)
    case None => 0
  }

  /** `total` after `renderDrawer`'s `forEach` over the first `|selected|` keys. */
  function Total(bases: seq<Item>, ps: seq<Product>, selected: seq<string>): nat
    decreases |selected|
  {
    if |selected| == 0 then 0
    else Total(bases, ps, selected[..|selected| - 1]) + LinePrice(bases, ps, selected[|selected| - 1])
  }

  /** The sum of the base prices of a list of cards. */
  function PriceSum(bases: seq<Item>, lines: seq<Product>): nat
    decreases |lines|
  {
    if |lines| == 0 then 0 else PriceSum(bases, lines[..|lines| - 1]) + BasePrice(bases, lines[|lines| - 1])
  }

  /** The total is the sum of the base prices of the cards the selection names: unknown keys are skipped. */
  lemma {:induction false} TotalIsPriceSum(bases: seq<Item>, ps: seq<Product>, selected: seq<string>)
    ensures Total(bases, ps, selected) == PriceSum(bases, Lookup(selected, ps))
    decreases |selected|
  {
    if |selected| > 0 {
      TotalIsPriceSum(bases, ps, selected[..|selected| - 1]);
      var front := Lookup(selected[..|selected| - 1], ps);
      match Find(ps, selected[|selected| - 1])
      case Some(p) =>
        assert (front + [p])[..|front + [p]| - 1] == front;
      case None =>
    }
  }

  lemma {:induction false} TotalAppend(bases: seq<Item>, ps: seq<Product>, s: seq<string>, t: seq<string>)
    ensures Total(bases, ps, s + t) == Total(bases, ps, s) + Total(bases, ps, t)
    decreases |t|
  {
    if |t| == 0 {
      assert s + t == s;
    } else {
      var t' := t[..|t| - 1];
      assert (s + t)[..|s + t| - 1] == s + t';
      assert (s + t)[|s + t| - 1] == t[|t| - 1];
      TotalAppend(bases, ps, s, t');
    }
  }

  /** Adding a key to the cart adds its card's price to the total; removing it takes the price off. */
  lemma ToggleTotal(bases: seq<Item>, ps: seq<Product>, items: seq<string>, id: string)
    ensures id !in items ==> Total(bases, ps, Cart.Toggled(items, id)) == Total(bases, ps, items) + LinePrice(bases, ps, id)
    ensures id in items ==> Total(bases, ps, Cart.Toggled(items, id)) + LinePrice(bases, ps, id) == Total(bases, ps, items)
  {
    match Cart.FirstIndex(items, id)
    case None =>
      TotalAppend(bases, ps, items, [id]);
      assert Total(bases, ps, [id]) == LinePrice(bases, ps, id) by {
        assert [id][..0] == [];
      }
    case Some(i) =>
      var a, b := items[..i], items[i + 1..];
      assert items == a + [id] + b;
      TotalAppend(bases, ps, a + [id], b);
      TotalAppend(bases, ps, a, [id]);
      TotalAppend(bases, ps, a, b);
      assert Total(bases, ps, [id]) == LinePrice(bases, ps, id) by {
        assert [id][..0] == [];
      }
  }

  /** Every card of the catalogue costs its base item's price. */
  lemma CardPrice(k: nat)
    requires k < 16
    ensures |Products| == 16 && LinePrice(BaseItems, Products, Products[k].key) == BaseItems[k / 2].price
  {
    ProductsShape();
    FindUnique(Products, k);
    BaseIdsDistinct();
    ExpandPrice(BaseItems, "", "", k);
  }

  // ---------------------------------------------------------------------------
  // Page state

  /** `state`: the selection, the category and the sort of the product list. */
  class ShopState {
    var selectedItems: seq<string>
    var category: string
    var sort: string

    /** Toggling never lists a key twice. */
    ghost predicate Valid()
      reads this
    {
      NoDups(selectedItems)
    }

    constructor ()
      ensures Valid() && selectedItems == [] && category == AllCategories && sort == "default"
    {
      selectedItems, category, sort := [], AllCategories, "default";
    }

    /** `toggleCart(id)`: `splice` the first copy out, or `push` the key. */
    method ToggleCart(id: string)
      requires Valid()
      modifies this`selectedItems
      ensures Valid() && selectedItems == Cart.Toggled(old(selectedItems), id)
    {
      Cart.ToggleKeepsNoDups(selectedItems, id);
      var idx := Cart.FirstIndex(selectedItems, id);
      if idx.Some? {
        selectedItems := selectedItems[..idx.value] + selectedItems[idx.value + 1..];
      } else {
        selectedItems := selectedItems + [id];
      }
    }

    /** A click on a category entry. */
    method SelectCategory(cat: string)
      modifies this`category
      ensures category == cat
    {
      category := cat;
    }

    /** A change of the sort select. */
    method SelectSort(value: string)
      modifies this`sort
      ensures sort == value
    {
      sort := value;
    }

    /** `renderDrawer`'s running `total`, in fen. */
    method DrawerTotal() returns (total: nat)
      ensures total == Total(BaseItems, Products, selectedItems)
      ensures total == PriceSum(BaseItems, Lookup(selectedItems, Products))
    {
      total := RunningTotal(BaseItems, Products, selectedItems);
    }
  }

  /** The `forEach` of `renderDrawer`: add the base price of every selected key's card, skipping unknown keys. */
  method RunningTotal(bases: seq<Item>, ps: seq<Product>, selected: seq<string>) returns (total: nat)
    ensures total == Total(bases, ps, selected)
    ensures total == PriceSum(bases, Lookup(selected, ps))
  {
    total := 0;
    var i := 0;
    while i < |selected|
      invariant 0 <= i <= |selected|
      invariant total == Total(bases, ps, selected[..i])
    {
      var p := Find(ps, selected[i]);
      if p.Some? {
        total := total + BasePrice(bases, p.value);
      }
      assert selected[..i + 1][..i] == selected[..i];
      i := i + 1;
    }
    assert selected[..i] == selected;
    TotalIsPriceSum(bases, ps, selected);
  }

  /** The page's music bookkeeping and its two run-once guards. */
  class Page {
    var musicPlayed: bool
    var sequenceStarted: bool
    var musicTrack: Option<string>
    var musicStartTime: Option<int>
    var playCalls: nat        // calls of `audioManager.playGroupMusic` by `tryPlayMusic`
    var sequenceCalls: nat    // calls of `audioManager.playGroupForDuration`

    /** Each guard's body runs at most once. */
    ghost predicate Valid()
      reads this
    {
      playCalls == (if musicPlayed then 1 else 0) && sequenceCalls <= (if sequenceStarted then 1 else 0)
    }

    constructor ()
      ensures Valid() && !musicPlayed && !sequenceStarted && musicTrack.None? && musicStartTime.None?
    {
      musicPlayed, sequenceStarted, musicTrack, musicStartTime := false, false, None, None;
      playCalls, sequenceCalls := 0, 0;
    }

    /**
     * `tryPlayMusic`: once only, play the group's music; a resolution
     * records its track and start time, a rejection records
     * `'music_error'` at `now`.
     */
    method TryPlayMusic(outcome: ExperimentAudio.Outcome, now: int)
      requires Valid()
      modifies this`musicPlayed, this`playCalls, this`musicTrack, this`musicStartTime
      ensures Valid() && musicPlayed
      ensures old(musicPlayed) ==> playCalls == old(playCalls) && musicTrack == old(musicTrack) && musicStartTime == old(musicStartTime)
      ensures !old(musicPlayed) ==> playCalls == 1
      ensures !old(musicPlayed) && outcome.Resolved? ==>
        musicTrack == Some(outcome.track) && musicStartTime == Some(outcome.startTime)
      ensures !old(musicPlayed) && outcome.Rejected? ==> musicTrack == Some("music_error") && musicStartTime == Some(now)
      ensures !old(musicPlayed) && outcome.Pending? ==> musicTrack == old(musicTrack) && musicStartTime == old(musicStartTime)
    {
      if musicPlayed {
        return;
      }
      musicPlayed := true;
      playCalls := playCalls + 1;
      match outcome {
        case Resolved(track, start) =>
          musicTrack, musicStartTime := Some(track), Some(start);
        case Rejected(_) =>
          musicTrack, musicStartTime := Some("music_error"), Some(now);
        case Pending =>
      }
    }

    /**
     * `startSequence`: once only, start `playGroupForDuration` when the
     * audio manager has it (its promise is not awaited, so nothing is
     * recorded), else fall back to `tryPlayMusic`.
     */
    method StartSequence(hasPlayForDuration: bool, outcome: ExperimentAudio.Outcome, now: int)
      requires Valid()
      modifies this`sequenceStarted, this`sequenceCalls, this`musicPlayed, this`playCalls, this`musicTrack, this`musicStartTime
      ensures Valid() && sequenceStarted
      ensures old(sequenceStarted) || hasPlayForDuration ==>
        musicPlayed == old(musicPlayed) && playCalls == old(playCalls) &&
        musicTrack == old(musicTrack) && musicStartTime == old(musicStartTime)
      ensures old(sequenceStarted) ==> sequenceCalls == old(sequenceCalls)
      ensures !old(sequenceStarted) ==> sequenceCalls == (if hasPlayForDuration then 1 else 0)
      ensures !old(sequenceStarted) && !hasPlayForDuration ==> musicPlayed
    {
      if sequenceStarted {
        return;
      }
      sequenceStarted := true;
      if hasPlayForDuration {
        sequenceCalls := sequenceCalls + 1;
      } else {
        TryPlayMusic(outcome, now);
      }
    }
  }
}
