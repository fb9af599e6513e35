/**
 * An opus of the first generation (opus.py): the loaded cards sorted by
 * element, name and card id; the sheets of r x c - 1 cards they are cut
 * into; where each card's image, and the back, lands on a sheet image; and
 * the Tabletop Simulator deck of the cards a filter accepts.
 */
module LegacyOpus {
  import opened Wrappers
  import opened Strings
  import opened Sorting
  import Grids
  import LegacyCards
  import TtsObjects

  /**
   * A card as the loader threads deliver it. opus.py sorts on `_cardid`
   * and loads through `Card.load`, which card.py does not have; the id the
   * card was loaded under is kept beside the card.
   */
  datatype Loaded = Loaded(cardId: int, card: LegacyCards.Card)

  function IdKey(x: Loaded): Key { Num(x.cardId) }

  function NameKey(x: Loaded): Key { Text(x.card.name) }

  function ElementKey(x: Loaded): Key { Text(x.card.element) }

  /** Lines 91-93: three stable sorts, by card id, then name, then element. */
  function SortedCards(loaded: seq<Loaded>): seq<Loaded> {
    SortBy(SortBy(SortBy(loaded, IdKey), NameKey), ElementKey)
  }

  /**
   * The sorts leave the cards a permutation of the loaded ones, ordered by
   * element, then by name, then by card id.
   */
  lemma LoadOrder(loaded: seq<Loaded>)
    ensures var r := SortedCards(loaded);
            && multiset(r) == multiset(loaded)
            && forall i, j :: 0 <= i < j < |r| ==>
                 StrLe(r[i].card.element, r[j].card.element)
                 && (r[i].card.element == r[j].card.element ==>
                       StrLe(r[i].card.name, r[j].card.name)
                       && (r[i].card.name == r[j].card.name ==> r[i].cardId <= r[j].cardId))
  {
    var minor := Lex(NameKey, IdKey);
    var lex := Lex(ElementKey, minor);
    SortTwice(loaded, IdKey, NameKey);
    SortTwice(loaded, minor, ElementKey);
    SortSortedPermutation(loaded, lex);
    SortedByElementNameId(SortBy(loaded, lex));
  }

  lemma SortedByElementNameId(r: seq<Loaded>)
    requires SortedBy(r, Lex(ElementKey, Lex(NameKey, IdKey)))
    ensures forall i, j :: 0 <= i < j < |r| ==>
              StrLe(r[i].card.element, r[j].card.element)
              && (r[i].card.element == r[j].card.element ==>
                    StrLe(r[i].card.name, r[j].card.name)
                    && (r[i].card.name == r[j].card.name ==> r[i].cardId <= r[j].cardId))
  {
    var minor := Lex(NameKey, IdKey);
    var lex := Lex(ElementKey, minor);
    forall i, j | 0 <= i < j < |r|
      ensures StrLe(r[i].card.element, r[j].card.element)
              && (r[i].card.element == r[j].card.element ==>
                    StrLe(r[i].card.name, r[j].card.name)
                    && (r[i].card.name == r[j].card.name ==> r[i].cardId <= r[j].cardId))
    {
      assert KeyLe(lex(r[i]), lex(r[j]));
      assert lex(r[i]) == Pair(ElementKey(r[i]), minor(r[i]));
      assert lex(r[j]) == Pair(ElementKey(r[j]), minor(r[j]));
      if ElementKey(r[i]) == ElementKey(r[j]) {
        StrLeReflexive(r[i].card.element);
        assert KeyLe(minor(r[i]), minor(r[j]));
        assert minor(r[i]) == Pair(NameKey(r[i]), IdKey(r[i]));
        assert minor(r[j]) == Pair(NameKey(r[j]), IdKey(r[j]));
        if NameKey(r[i]) == NameKey(r[j]) {
          StrLeReflexive(r[i].card.name);
          assert KeyLe(IdKey(r[i]), IdKey(r[j]));
        } else {
          assert KeyLe(NameKey(r[i]), NameKey(r[j]));
        }
      } else {
        assert KeyLe(ElementKey(r[i]), ElementKey(r[j]));
      }
    }
  }

  /** Line 97: a sheet holds every slot but the last, which shows the back. */
  function SheetSize(r: nat, c: nat): int { r * c - 1 }

  /** Where one image is pasted on a sheet: its slot, its card and its top-left pixel. */
  datatype Placement = Placement(slot: nat, card: LegacyCards.Card, x: int, y: int)

  /** A composed sheet image: its size and what was pasted where. */
  datatype Page = Page(width: int, height: int, placements: seq<Placement>)

  /** Line 64: slot `i` is pasted at column `i mod c`, row `i div c`. */
  function PlacementAt(i: nat, card: LegacyCards.Card, r: nat, c: nat, w: nat, h: nat): (p: Placement)
    requires c >= 1
    ensures Grids.SlotPosition(Grids.Grid(c, r), i, w, h) == Ok((p.x, p.y))
  {
    var pos := Grids.SlotPosition(Grids.Grid(c, r), i, w, h).value;
    Placement(i, card, pos.0, pos.1)
  }

  /** Lines 114-126: every card of the sheet at its slot, then the back at slot r*c - 1. */
  function PageOf(sheet: seq<Loaded>, r: nat, c: nat, w: nat, h: nat): (page: Page)
    requires r >= 1 && c >= 1
  {
    var back := LegacyCards.New(LegacyCards.Zero).value;
    Page(c * w, r * h,
         seq(|sheet|, i requires 0 <= i < |sheet| => PlacementAt(i, sheet[i].card, r, c, w, h))
         + [PlacementAt(r * c - 1, back, r, c, w, h)])
  }

  /**
   * On a sheet of at most r*c - 1 cards, every card and the back get their
   * own slot and position, all inside the page, the back in the
   * bottom-right cell.
   */
  lemma PageLayout(sheet: seq<Loaded>, r: nat, c: nat, w: nat, h: nat)
    requires r >= 1 && c >= 1 && w > 0 && h > 0 && |sheet| <= SheetSize(r, c)
    ensures var p := PageOf(sheet, r, c, w, h).placements;
            && |p| == |sheet| + 1
            && (forall i :: 0 <= i < |sheet| ==> p[i].slot == i && p[i].card == sheet[i].card)
            && p[|sheet|].slot == r * c - 1 && p[|sheet|].card.imageUrl == LegacyCards.BACK_URL
            && p[|sheet|].x == (c - 1) * w && p[|sheet|].y == (r - 1) * h
            && (forall i, j :: 0 <= i < j < |p| ==> (p[i].x, p[i].y) != (p[j].x, p[j].y))
            && (forall i :: 0 <= i < |p| ==> 0 <= p[i].x && p[i].x + w <= c * w && 0 <= p[i].y && p[i].y + h <= r * h)
  {
    var g := Grids.Grid(c, r);
    var p := PageOf(sheet, r, c, w, h).placements;
    Grids.BackSlotBottomRight(g, w, h);
    forall i | 0 <= i < |p| ensures 0 <= p[i].x && p[i].x + w <= c * w && 0 <= p[i].y && p[i].y + h <= r * h {
      Grids.SlotInsidePage(g, p[i].slot, w, h);
    }
    forall i, j | 0 <= i < j < |p| ensures (p[i].x, p[i].y) != (p[j].x, p[j].y) {
      Grids.SlotPositionsDistinct(g, p[i].slot, p[j].slot, w, h);
    }
  }

  /** Lines 149-173 and 182-187: one CustomDeck sheet. */
  datatype SheetInfo = SheetInfo(faceUrl: string, backUrl: string, numWidth: int, numHeight: int)

  /** A contained card: `get_dict()` with its CardID and its own sheet. */
  datatype Contained = Contained(card: LegacyCards.CardDict, cardId: int, customDeck: map<string, SheetInfo>)

  datatype Deck = Deck(name: string, nickname: string, description: string, transform: TtsObjects.Transform,
                       flags: TtsObjects.Flags, hands: bool, sidewaysCard: bool,
                       deckIds: seq<int>, customDeck: map<string, SheetInfo>, contained: seq<Contained>)

  /** `{"ObjectStates": [deck]}` */
  datatype SaveFile = ObjectStates(states: seq<Deck>)

  /** Line 194 as written: hundreds for the sheet, tens for the row, units for the column. */
  function CardIdAsWritten(sheet: nat, n: nat, c: nat): int
    requires c >= 1
  {
    (sheet + 1) * 100 + (n / c) * 10 + n % c
  }

  /** The id Tabletop Simulator reads: hundreds for the sheet, then the slot index. */
  function CardId(sheet: nat, n: nat): int {
    (sheet + 1) * 100 + n
  }

  /** With eleven columns, slots 10 and 11 of the first sheet both get id 110. */
  lemma CardIdAsWrittenCollides()
    ensures CardIdAsWritten(0, 10, 11) == CardIdAsWritten(0, 11, 11) == 110
  {
  }

  /** With ten columns, the default grid, the written formula is the slot index. */
  lemma CardIdAsWrittenTenColumns(sheet: nat, n: nat)
    ensures CardIdAsWritten(sheet, n, 10) == CardId(sheet, n)
  {
    assert n == (n / 10) * 10 + n % 10;
  }

  /**
   * With any other column count the written formula misplaces a card: the
   * first card of the second row, slot `c`, gets the id of slot 10.
   */
  lemma CardIdAsWrittenMisplaces(sheet: nat, c: nat)
    requires c >= 1 && c != 10
    ensures CardIdAsWritten(sheet, c, c) == CardId(sheet, 10)
    ensures CardIdAsWritten(sheet, c, c) != CardId(sheet, c)
  {
    assert c / c == 1 && c % c == 0;
  }

  /** On sheets of at most 100 slots an id names one sheet and one slot. */
  lemma CardIdInjective(s1: nat, n1: nat, s2: nat, n2: nat)
    requires n1 < 100 && n2 < 100
    ensures CardId(s1, n1) == CardId(s2, n2) ==> s1 == s2 && n1 == n2
    ensures CardId(s1, n1) / 100 == s1 + 1 && CardId(s1, n1) % 100 == n1
  {
    Grids.DivUnique(CardId(s1, n1), 100, s1 + 1, n1);
    Grids.DivUnique(CardId(s2, n2), 100, s2 + 1, n2);
  }

  /** The CustomDeck entry of sheet `k`, lines 182-187. */
  function InfoOf(faceUrl: string, r: nat, c: nat): SheetInfo {
    SheetInfo(faceUrl, LegacyCards.BACK_URL, c, r)
  }

  /** Lines 189-201 on the first cards of sheet `k`: the accepted ones, each with the id of its slot. */
  function SheetContained(sheet: seq<Loaded>, k: nat, info: SheetInfo, accept: Loaded -> bool): seq<Contained> {
    if sheet == [] then []
    else
      var n := |sheet| - 1;
      SheetContained(sheet[..n], k, info, accept)
      + (if accept(sheet[n]) then [Contained(LegacyCards.Dict(sheet[n].card), CardId(k, n), map[NatStr(k + 1) := info])] else [])
  }

  /** Line 195: the ids DeckIDs receives from the first cards of sheet `k`. */
  function SheetIds(sheet: seq<Loaded>, k: nat, accept: Loaded -> bool): seq<int> {
    if sheet == [] then []
    else
      var n := |sheet| - 1;
      SheetIds(sheet[..n], k, accept) + (if accept(sheet[n]) then [CardId(k, n)] else [])
  }

  predicate Accepts(sheet: seq<Loaded>, accept: Loaded -> bool) {
    exists n :: 0 <= n < |sheet| && accept(sheet[n])
  }

  /** The whole deck over the first sheets: contained cards, ids, and CustomDeck. */
  function AllContained(sheets: seq<seq<Loaded>>, faceUrls: seq<string>, r: nat, c: nat, accept: Loaded -> bool): seq<Contained>
    requires |sheets| <= |faceUrls|
  {
    if sheets == [] then []
    else
      var k := |sheets| - 1;
      AllContained(sheets[..k], faceUrls, r, c, accept) + SheetContained(sheets[k], k, InfoOf(faceUrls[k], r, c), accept)
  }

  function AllIds(sheets: seq<seq<Loaded>>, accept: Loaded -> bool): seq<int> {
    if sheets == [] then []
    else
      var k := |sheets| - 1;
      AllIds(sheets[..k], accept) + SheetIds(sheets[k], k, accept)
  }

  function AllCustomDeck(sheets: seq<seq<Loaded>>, faceUrls: seq<string>, r: nat, c: nat, accept: Loaded -> bool): map<string, SheetInfo>
    requires |sheets| <= |faceUrls|
  {
    if sheets == [] then map[]
    else
      var k := |sheets| - 1;
      var m := AllCustomDeck(sheets[..k], faceUrls, r, c, accept);
      if Accepts(sheets[k], accept) then m[NatStr(k + 1) := InfoOf(faceUrls[k], r, c)] else m
  }

  /** The deck parts of the first `k + 1` sheets extend those of the first `k` by sheet `k`'s. */
  lemma AllStep(sheets: seq<seq<Loaded>>, k: nat, faceUrls: seq<string>, r: nat, c: nat, accept: Loaded -> bool)
    requires k < |sheets| && k < |faceUrls|
    ensures AllIds(sheets[..k + 1], accept) == AllIds(sheets[..k], accept) + SheetIds(sheets[k], k, accept)
    ensures AllContained(sheets[..k + 1], faceUrls, r, c, accept)
            == AllContained(sheets[..k], faceUrls, r, c, accept) + SheetContained(sheets[k], k, InfoOf(faceUrls[k], r, c), accept)
    ensures AllCustomDeck(sheets[..k + 1], faceUrls, r, c, accept)
            == if Accepts(sheets[k], accept) then AllCustomDeck(sheets[..k], faceUrls, r, c, accept)[NatStr(k + 1) := InfoOf(faceUrls[k], r, c)]
               else AllCustomDeck(sheets[..k], faceUrls, r, c, accept)
  {
    assert sheets[..k + 1][..k] == sheets[..k];
  }

  /**
   * Lines 140-206: the deck of the accepted cards; reading `faceurls[sheet]`
   * fails when there are fewer face URLs than sheets.
   */
  function DeckJson(opusId: int, deckName: string, sheets: seq<seq<Loaded>>, faceUrls: seq<string>,
                    r: nat, c: nat, accept: Loaded -> bool): Result<SaveFile>
  {
    if |faceUrls| < |sheets| then Err("IndexError: list index out of range")
    else
      Ok(ObjectStates([Deck("Deck", "Opus " + IntStr(opusId) + " " + deckName, "",
                            TtsObjects.Transform(TtsObjects.SCALE_XZ, TtsObjects.SCALE_Y, TtsObjects.SCALE_XZ, None, None),
                            TtsObjects.COMMON_FLAGS, false, false,
                            AllIds(sheets, accept), AllCustomDeck(sheets, faceUrls, r, c, accept),
                            AllContained(sheets, faceUrls, r, c, accept))]))
  }

  /** DeckIDs gets the contained cards' ids, in the same order. */
  lemma {:induction false} SheetIdsMatch(sheet: seq<Loaded>, k: nat, info: SheetInfo, accept: Loaded -> bool)
    ensures SheetIds(sheet, k, accept) == IdsOf(SheetContained(sheet, k, info, accept))
  {
    if sheet != [] {
      var n := |sheet| - 1;
      SheetIdsMatch(sheet[..n], k, info, accept);
      var before := SheetContained(sheet[..n], k, info, accept);
      var cs := SheetContained(sheet, k, info, accept);
      assert IdsOf(cs) == IdsOf(before) + (if accept(sheet[n]) then [CardId(k, n)] else []);
    }
  }

  /** The contained card `x` stands for slot `n` of sheet `k`. */
  predicate FromSlot(x: Contained, sheet: seq<Loaded>, k: nat, info: SheetInfo, accept: Loaded -> bool, n: int) {
    0 <= n < |sheet| && accept(sheet[n]) && x.cardId == CardId(k, n)
    && x.card == LegacyCards.Dict(sheet[n].card) && x.customDeck == map[NatStr(k + 1) := info]
  }

  /**
   * Every contained card is an accepted card of the sheet, with the id of
   * its own slot (skipped cards do not shift the others) and its sheet.
   */
  lemma {:induction false} SheetMembers(sheet: seq<Loaded>, k: nat, info: SheetInfo, accept: Loaded -> bool)
    ensures forall i :: 0 <= i < |SheetContained(sheet, k, info, accept)| ==>
              var x := SheetContained(sheet, k, info, accept)[i];
              FromSlot(x, sheet, k, info, accept, x.cardId - CardId(k, 0))
  {
    if sheet != [] {
      var n := |sheet| - 1;
      var prefix := sheet[..n];
      SheetMembers(prefix, k, info, accept);
      var cs := SheetContained(sheet, k, info, accept);
      var before := SheetContained(prefix, k, info, accept);
      forall i | 0 <= i < |cs| ensures FromSlot(cs[i], sheet, k, info, accept, cs[i].cardId - CardId(k, 0)) {
        if i < |before| {
          var m := before[i].cardId - CardId(k, 0);
          assert FromSlot(before[i], prefix, k, info, accept, m);
          assert prefix[m] == sheet[m];
        } else {
          assert FromSlot(cs[i], sheet, k, info, accept, n);
        }
      }
    }
  }

  /** Every accepted card of the sheet is contained, under the id of its slot. */
  lemma {:induction false} SheetCoverage(sheet: seq<Loaded>, k: nat, info: SheetInfo, accept: Loaded -> bool, m: nat)
    requires m < |sheet| && accept(sheet[m])
    ensures exists i :: 0 <= i < |SheetContained(sheet, k, info, accept)|
                        && SheetContained(sheet, k, info, accept)[i].cardId == CardId(k, m)
  {
    var n := |sheet| - 1;
    var prefix := sheet[..n];
    var cs := SheetContained(sheet, k, info, accept);
    var before := SheetContained(prefix, k, info, accept);
    var extra := if accept(sheet[n]) then [Contained(LegacyCards.Dict(sheet[n].card), CardId(k, n), map[NatStr(k + 1) := info])] else [];
    assert cs == before + extra;
    if m < n {
      assert prefix[m] == sheet[m];
      SheetCoverage(prefix, k, info, accept, m);
      var i :| 0 <= i < |before| && before[i].cardId == CardId(k, m);
      assert cs[i] == before[i];
    } else {
      assert cs[|before|].cardId == CardId(k, n);
    }
  }

  /** The ids of a sheet increase, and lie between the sheet's first and one past its last slot. */
  lemma {:induction false} SheetIdsIncrease(sheet: seq<Loaded>, k: nat, accept: Loaded -> bool)
    ensures forall i, j :: 0 <= i < j < |SheetIds(sheet, k, accept)| ==> SheetIds(sheet, k, accept)[i] < SheetIds(sheet, k, accept)[j]
    ensures forall i :: 0 <= i < |SheetIds(sheet, k, accept)| ==>
              CardId(k, 0) <= SheetIds(sheet, k, accept)[i] < CardId(k, |sheet|)
  {
    if sheet != [] {
      var n := |sheet| - 1;
      SheetIdsIncrease(sheet[..n], k, accept);
      var before := SheetIds(sheet[..n], k, accept);
      var ids := SheetIds(sheet, k, accept);
      assert ids == before + (if accept(sheet[n]) then [CardId(k, n)] else []);
      assert |sheet[..n]| == n;
      assert forall i :: 0 <= i < |before| ==> before[i] < CardId(k, n);
      assert forall i :: 0 <= i < |before| ==> ids[i] == before[i];
    }
  }

  function IdsOf(cs: seq<Contained>): (ids: seq<int>)
    ensures |ids| == |cs| && forall i :: 0 <= i < |cs| ==> ids[i] == cs[i].cardId
  {
    seq(|cs|, i requires 0 <= i < |cs| => cs[i].cardId)
  }

  class Opus {
    var opusId: int
    var cards: seq<Loaded>

    constructor ()
      ensures cards == []
    {
      opusId := 0;
      cards := [];
    }

    /**
     * Lines 74-93. The loader threads fetch cards 1 to `maxsize` in an
     * order the model leaves open: `loaded` is what they delivered.
     */
    method Load(opusId: int, loaded: seq<Loaded>)
      modifies this
      ensures this.opusId == opusId && cards == SortedCards(loaded)
    {
      this.opusId := opusId;
      cards := loaded;
      cards := SortBy(cards, IdKey);
      cards := SortBy(cards, NameKey);
      cards := SortBy(cards, ElementKey);
    }

    /** Lines 95-106: the chunks of r*c - 1 cards. A grid of one slot would never end. */
    method GetSheets(r: nat, c: nat) returns (sheets: seq<seq<Loaded>>)
      requires r * c >= 2 || cards == []
      ensures sheets == Grids.ChunksOf(cards, SheetSize(r, c))
      ensures Grids.Flatten(sheets) == cards
    {
      sheets := Grids.Chunks(Grids.Grid(c, r), cards);
    }

    /** Lines 108-138: one composed page per sheet. */
    method GetImages(r: nat, c: nat, w: nat, h: nat) returns (pages: seq<Page>)
      requires r * c >= 2 || cards == []
      ensures var sheets := Grids.ChunksOf(cards, SheetSize(r, c));
              |pages| == |sheets| && forall k :: 0 <= k < |sheets| ==> c >= 1 && pages[k] == PageOf(sheets[k], r, c, w, h)
    {
      var sheets := GetSheets(r, c);
      pages := [];
      for k := 0 to |sheets|
        invariant |pages| == k
        invariant forall j :: 0 <= j < k ==> r >= 1 && c >= 1 && pages[j] == PageOf(sheets[j], r, c, w, h)
      {
        assert r >= 1 && c >= 1;
        pages := pages + [PageOf(sheets[k], r, c, w, h)];
      }
    }

    /** Lines 140-206: the deck of the cards `accept` lets through. */
    method GetJson(deckName: string, r: nat, c: nat, accept: Loaded -> bool, faceUrls: seq<string>)
        returns (result: Result<SaveFile>)
      requires r * c >= 2 || cards == []
      ensures result == DeckJson(opusId, deckName, Grids.ChunksOf(cards, SheetSize(r, c)), faceUrls, r, c, accept)
    {
      var sheets := GetSheets(r, c);
      var ids: seq<int> := [];
      var contained: seq<Contained> := [];
      var customDeck: map<string, SheetInfo> := map[];
      for k := 0 to |sheets|
        invariant k <= |faceUrls|
        invariant ids == AllIds(sheets[..k], accept)
        invariant contained == AllContained(sheets[..k], faceUrls, r, c, accept)
        invariant customDeck == AllCustomDeck(sheets[..k], faceUrls, r, c, accept)
      {
        if k >= |faceUrls| {
          return Err("IndexError: list index out of range");
        }
        AllStep(sheets, k, faceUrls, r, c, accept);
        var info := InfoOf(faceUrls[k], r, c);
        var sheetIds, sheetContained, used := SheetJson(sheets[k], k, info, accept);
        ids := ids + sheetIds;
        contained := contained + sheetContained;
        if used {
          customDeck := customDeck[NatStr(k + 1) := info];
        }
      }
      assert sheets[..|sheets|] == sheets;
      result := Ok(ObjectStates([Deck("Deck", "Opus " + IntStr(opusId) + " " + deckName, "",
                                      TtsObjects.Transform(TtsObjects.SCALE_XZ, TtsObjects.SCALE_Y, TtsObjects.SCALE_XZ, None, None),
                                      TtsObjects.COMMON_FLAGS, false, false, ids, customDeck, contained)]));
    }
  }

  /** Lines 189-204 for one sheet. */
  method SheetJson(sheet: seq<Loaded>, k: nat, info: SheetInfo, accept: Loaded -> bool)
      returns (ids: seq<int>, contained: seq<Contained>, used: bool)
    ensures ids == SheetIds(sheet, k, accept)
    ensures contained == SheetContained(sheet, k, info, accept)
    ensures used == Accepts(sheet, accept)
  {
    ids, contained, used := [], [], false;
    for n := 0 to |sheet|
      invariant ids == SheetIds(sheet[..n], k, accept)
      invariant contained == SheetContained(sheet[..n], k, info, accept)
      invariant used == Accepts(sheet[..n], accept)
    {
      assert sheet[..n + 1][..n] == sheet[..n];
      if accept(sheet[n]) {
        ids := ids + [CardId(k, n)];
        contained := contained + [Contained(LegacyCards.Dict(sheet[n].card), CardId(k, n), map[NatStr(k + 1) := info])];
        used := true;
      }
      if !used {
        assert !Accepts(sheet[..n + 1], accept) by {
          assert forall m :: 0 <= m < n ==> sheet[..n + 1][m] == sheet[..n][m];
        }
      }
    }
    assert sheet[..|sheet|] == sheet;
  }
}
