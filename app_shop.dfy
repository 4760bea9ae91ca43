/**
 * The shopping page of the bundled application (src/js/shopping-task-entry.js):
 * the stored group with its `'neutral'` default, the tagged catalogue, the
 * cart toggle, the cart list `renderCart` builds, and the run-once
 * `tryPlayMusic` guard. The countdown is `Countdown.Timer`.
 */
module AppShop {
  import opened Text
  import opened Catalog
  import Cart
  import ExperimentAudio

  /** `localStorage.getItem('musicGroup') || 'neutral'`. */
  function InitialGroup(stored: Option<string>): (g: string)
    ensures g != ""
  {
    if stored.Some? && stored.value != "" then stored.value else "neutral"
  }

  /** An unset or empty entry gives `'neutral'`; a stored group is kept as it is, even one that is neither group. */
  lemma InitialGroupCases(stored: Option<string>)
    ensures stored.None? ==> InitialGroup(stored) == "neutral"
    ensures stored == Some("") ==> InitialGroup(stored) == "neutral"
    ensures stored == Some("nostalgia") ==> InitialGroup(stored) == "nostalgia"
    ensures InitialGroup(stored) == "nostalgia" ==> stored == Some("nostalgia")
  {
  }

  /** `BASE_ITEMS`; these carry no price, which `Item` records as 0. */
  const BaseItems: seq<Item> := [
    Item("food-coffee", "食品", "咖啡", 0),
    Item("food-vegetable", "食品", "蔬菜", 0),
    Item("textile-jacket", "纺织", "冲锋衣", 0),
    Item("textile-bag", "纺织", "书包", 0),
    Item("care-skin", "个护", "护肤", 0),
    Item("care-soap", "个护", "香皂", 0),
    Item("daily-clean1", "日用", "清洁剂A", 0),
    Item("daily-clean2", "日用", "清洁剂B", 0)
  ]

  const ClassicTag := "经典"
  const EcoTag := "环保"

  /** `PRODUCTS`: the classic card tagged `'经典'`, then the eco card tagged `'环保'`, for every base item. */
  const Products: seq<Product> := Expand(BaseItems, ClassicTag, EcoTag)

  lemma BaseIdsDistinct()
    ensures DistinctIds(BaseItems)
  {
    forall i, j | 0 <= i < j < |BaseItems| ensures BaseItems[i].id != BaseItems[j].id {
    }
  }

  /** 16 cards with distinct keys; every classic card carries `'经典'` and every eco card `'环保'`. */
  lemma ProductsTags()
    ensures |Products| == 16 && DistinctKeys(Products)
    ensures forall k :: 0 <= k < 16 ==>
      (Products[k].variant == Classic <==> k % 2 == 0) &&
      Products[k].tag == (if Products[k].variant == Classic then ClassicTag else EcoTag) &&
      Products[k].baseId == BaseItems[k / 2].id
  {
    ExpandShape(BaseItems, ClassicTag, EcoTag);
    BaseIdsDistinct();
    ExpandKeysDistinct(BaseItems, ClassicTag, EcoTag);
    forall k | 0 <= k < 16
      ensures (Products[k].variant == Classic <==> k % 2 == 0) &&
        Products[k].tag == (if Products[k].variant == Classic then ClassicTag else EcoTag) &&
        Products[k].baseId == BaseItems[k / 2].id
    {
      ExpandFrom(BaseItems, ClassicTag, EcoTag, k);
    }
  }

  /** The text of one cart line: `${p.category}-${p.name}（${p.tag}）`. */
  function CartLabel(p: Product): string {
    p.category + "-" + p.name + "（" + p.tag + "）"
  }

  /** The cart lines over the catalogue `ps`: one per selected key that names a card, in selection order. */
  function LabelLines(ps: seq<Product>, selected: seq<string>): (lines: seq<string>)
    ensures |lines| == |Lookup(selected, ps)|
    ensures forall i :: 0 <= i < |lines| ==> lines[i] == CartLabel(Lookup(selected, ps)[i])
  {
    var found := Lookup(selected, ps);
    seq(|found|, i requires 0 <= i < |found| => CartLabel(found[i]))
  }

  /** One more key adds the line of its card, or nothing for a key that names no card. */
  lemma LabelLinesSnoc(ps: seq<Product>, selected: seq<string>, id: string)
    ensures LabelLines(ps, selected + [id]) ==
      LabelLines(ps, selected) + (match Find(ps, id) case Some(p) => [CartLabel(p)] case None => [])
  {
    assert (selected + [id])[..|selected|] == selected;
  }

  /** `renderCart`'s lines: one per selected key that names a card, in selection order. */
  function CartLines(selected: seq<string>): (lines: seq<string>)
    ensures |lines| == KnownCount(selected, Products) == |Lookup(selected, Products)|
    ensures forall i :: 0 <= i < |lines| ==> lines[i] == CartLabel(Lookup(selected, Products)[i])
  {
    LookupLength(selected, Products);
    LabelLines(Products, selected)
  }

  /** The list has one line for each known key, and a key that names no card adds no line. */
  lemma CartLinesCount(selected: seq<string>, unknown: string)
    requires Find(Products, unknown).None?
    ensures |CartLines(selected)| == KnownCount(selected, Products)
    ensures CartLines(selected + [unknown]) == CartLines(selected)
  {
    LabelLinesSnoc(Products, selected, unknown);
  }

  /** One more key adds the line of its card, or nothing for an unknown key. */
  lemma CartLinesSnoc(selected: seq<string>, id: string)
    ensures CartLines(selected + [id]) ==
      CartLines(selected) + (match Find(Products, id) case Some(p) => [CartLabel(p)] case None => [])
  {
    LabelLinesSnoc(Products, selected, id);
  }

  /** `renderCart`'s `forEach`: find each key's card, skip the unknown ones, append a line. */
  method RenderLines(ps: seq<Product>, selected: seq<string>) returns (lines: seq<string>)
    ensures lines == LabelLines(ps, selected)
  {
    lines := [];
    var i := 0;
    while i < |selected|
      invariant 0 <= i <= |selected|
      invariant lines == LabelLines(ps, selected[..i])
    {
      var p := Find(ps, selected[i]);
      LabelLinesSnoc(ps, selected[..i], selected[i]);
      assert selected[..i + 1] == selected[..i] + [selected[i]];
      if p.Some? {
        lines := lines + [CartLabel(p.value)];
      }
      i := i + 1;
    }
    assert selected[..i] == selected;
  }

  /** A one-key selection that names card `p` lists exactly `p`'s line. */
  lemma CartLinesOne(id: string, p: Product)
    requires Find(Products, id) == Some(p)
    ensures CartLines([id]) == [CartLabel(p)]
  {
    CartLinesSnoc([], id);
    assert [] + [id] == [id];
  }

  /** `state` and the page's music bookkeeping. */
  class Page {
    var selectedItems: seq<string>
    var musicPlayed: bool
    var playCalls: nat             // calls of `audioManager.playGroupMusic`
    var musicTrack: Option<string>
    var musicStartTime: Option<int>
    var badge: string              // the text of `#bgm-type`

    ghost predicate Valid()
      reads this
    {
      playCalls == (if musicPlayed then 1 else 0) && NoDups(selectedItems)
    }

    constructor ()
      ensures Valid() && selectedItems == [] && !musicPlayed && musicTrack.None? && musicStartTime.None?
    {
      selectedItems, musicPlayed, playCalls := [], false, 0;
      musicTrack, musicStartTime, badge := None, None, "";
    }

    /** `toggleCart(id)`: `splice` the first copy out, or `push` the key. */
    method ToggleCart(id: string)
      requires Valid()
      modifies this`selectedItems
      ensures Valid() && selectedItems == Cart.Toggled(old(selectedItems), id)
    {
      Cart.ToggleKeepsNoDups(selectedItems, id);
      var idx := Cart.FirstIndex(selectedItems, id);
      if idx.Some? {
        selectedItems := selectedItems[..idx.value] + selectedItems[idx.value + 1..];
      } else {
        selectedItems := selectedItems + [id];
      }
    }

    /** `renderCart`: the lines of the current selection. */
    method RenderCart() returns (lines: seq<string>)
      ensures lines == CartLines(selectedItems)
    {
      lines := RenderLines(Products, selectedItems);
    }

    /**
     * `tryPlayMusic`: once only, play the group's music; a resolution
     * records its track and start time and names the music type, a
     * rejection records `'music_error'` at `now`.
     */
    method TryPlayMusic(group: string, outcome: ExperimentAudio.Outcome, now: int)
      requires Valid()
      modifies this`musicPlayed, this`playCalls, this`musicTrack, this`musicStartTime, this`badge
      ensures Valid() && musicPlayed
      ensures old(musicPlayed) ==>
        playCalls == old(playCalls) && musicTrack == old(musicTrack) && musicStartTime == old(musicStartTime) && badge == old(badge)
      ensures !old(musicPlayed) ==> playCalls == 1
      ensures !old(musicPlayed) && outcome.Resolved? ==>
        musicTrack == Some(outcome.track) && musicStartTime == Some(outcome.startTime) &&
        badge == (if group == "nostalgia" then "怀旧音乐" else "中性音乐")
      ensures !old(musicPlayed) && outcome.Rejected? ==>
        musicTrack == Some("music_error") && musicStartTime == Some(now) && badge == "音乐加载失败"
      ensures !old(musicPlayed) && outcome.Pending? ==>
        musicTrack == old(musicTrack) && musicStartTime == old(musicStartTime) && badge == old(badge)
    {
      if musicPlayed {
        return;
      }
      musicPlayed := true;
      playCalls := playCalls + 1;
      match outcome {
        case Resolved(track, start) =>
          musicTrack, musicStartTime := Some(track), Some(start);
          badge := if group == "nostalgia" then "怀旧音乐" else "中性音乐";
        case Rejected(_) =>
          musicTrack, musicStartTime, badge := Some("music_error"), Some(now), "音乐加载失败";
        case Pending =>
      }
    }
  }
}
