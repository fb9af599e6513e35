/**
 * The Tabletop Simulator save-file objects both deck encoders build: a
 * deck object with its CustomDeck sheets and contained card objects. The
 * float scale constants are kept as their decimal text.
 */
module TtsObjects {
  import opened Wrappers
  import opened Strings
  import Addressing
  import Utils

  /** The `Transform` dictionary; `rotY`/`rotZ` are present only where the encoder adds them. */
  datatype Transform = Transform(scaleX: string, scaleY: string, scaleZ: string, rotY: Option<string>, rotZ: Option<string>)

  /** The flags every deck and card object carries. */
  datatype Flags = Flags(locked: bool, grid: bool, snap: bool, autoraise: bool, sticky: bool, tooltip: bool, gridProjection: bool)

  const COMMON_FLAGS := Flags(false, true, true, true, true, true, false)
  const SCALE_XZ := "2.17822933"
  const SCALE_Y := "1.0"

  /** One CustomDeck sheet: a 10 x 7 face image and the shared back. */
  datatype SheetEntry = SheetEntry(numWidth: string, numHeight: string, faceUrl: string, backUrl: string)

  /** A contained card object ("Name": "Card", "Hands": true, "SidewaysCard": false). */
  datatype CardObject = CardObject(nickname: string, description: string, cardId: int,
                                   name: string, hands: bool, sidewaysCard: bool,
                                   transform: Transform, flags: Flags)

  /** The deck object ("Name": "Deck", "Hands": false, "SidewaysCard": false). */
  datatype DeckObject = DeckObject(nickname: string, description: string, deckIds: seq<int>,
                                   customDeck: map<string, SheetEntry>, contained: seq<CardObject>,
                                   name: string, hands: bool, sidewaysCard: bool,
                                   transform: Transform, flags: Flags)

  /** `{"ObjectStates": [deck]}` */
  datatype SaveObject = ObjectStates(states: seq<DeckObject>)

  function CardObjectOf(nickname: string, description: string, cardId: int, t: Transform): CardObject {
    CardObject(nickname, description, cardId, "Card", true, false, t, COMMON_FLAGS)
  }

  function DeckIdsOf(contained: seq<CardObject>): (ids: seq<int>)
    ensures |ids| == |contained|
    ensures forall i :: 0 <= i < |contained| ==> ids[i] == contained[i].cardId
  {
    seq(|contained|, i requires 0 <= i < |contained| => contained[i].cardId)
  }

  function DeckObjectOf(nickname: string, description: string, customDeck: map<string, SheetEntry>,
                        contained: seq<CardObject>, t: Transform): DeckObject {
    DeckObject(nickname, description, DeckIdsOf(contained), customDeck, contained, "Deck", false, false, t, COMMON_FLAGS)
  }

  /** One CustomDeck sheet per face of `idx`, keyed `str(index)`, its image URL given by `urlOf`. */
  function CustomDeck(idx: map<string, nat>, urlOf: string -> string): (m: map<string, SheetEntry>)
    requires Addressing.Bijective(idx, |idx.Keys|)
    ensures m.Keys == Addressing.DeckKeys(idx)
    ensures forall f :: f in idx ==> m[NatStr(idx[f])] == SheetEntry("10", "7", urlOf(f), Utils.CARD_BACK_URL)
  {
    Addressing.DeckKeysInjective(idx, |idx.Keys|);
    var m := map f | f in idx :: NatStr(idx[f]) := SheetEntry("10", "7", urlOf(f), Utils.CARD_BACK_URL);
    assert forall f :: f in idx ==> m[NatStr(idx[f])] == SheetEntry("10", "7", urlOf(f), Utils.CARD_BACK_URL);
    m
  }
}
