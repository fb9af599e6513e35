/**
 * Second-generation Tabletop Simulator decks (fftcg/ttsdeck.py): a named
 * card collection looked up code by code in the card database, each
 * distinct face URL given a sheet index, encoded as one deck object.
 * The card's face URL and slot index are not attributes of the card
 * record of this generation; they are supplied as `faceUrlOf` and
 * `indexOf`.
 */
module TtsDecks {
  import opened Wrappers
  import opened Strings
  import opened TtsObjects
  import Codes
  import CardRecords
  import CardDatabase
  import Collections
  import Addressing
  import Utils

  /** `[carddb[code] for code in codes]`: KeyError at the first code the database lacks. */
  function LookupAll(cards: map<string, CardRecords.Card>, codes: seq<Codes.Code>): (r: Result<seq<CardRecords.Card>>)
    ensures r.Ok? <==> forall i :: 0 <= i < |codes| ==> Codes.Short(codes[i]) in cards
    ensures r.Ok? ==> |r.value| == |codes|
                      && forall i :: 0 <= i < |codes| ==> r.value[i] == cards[Codes.Short(codes[i])]
  {
    if codes == [] then Ok([])
    else if Codes.Short(codes[0]) !in cards then Err("KeyError: " + Codes.Str(codes[0]))
    else match LookupAll(cards, codes[1..])
      case Err(e) => Err(e)
      case Ok(rest) => Ok([cards[Codes.Short(codes[0])]] + rest)
  }

  function FaceUrls(cards: seq<CardRecords.Card>, faceUrlOf: CardRecords.Card -> string): set<string> {
    set i | 0 <= i < |cards| :: faceUrlOf(cards[i])
  }

  class TTSDeck {
    const name: string
    const description: string
    const items: seq<CardRecords.Card>
    const faceUrlOf: CardRecords.Card -> string
    const indexOf: CardRecords.Card -> nat
    /** `__url_indices`: each distinct face URL of the deck to its sheet number. */
    const urlIndices: map<string, nat>

    predicate Valid() {
      urlIndices.Keys == FaceUrls(items, faceUrlOf)
      && Addressing.Bijective(urlIndices, |urlIndices.Keys|)
    }

    constructor (name: string, description: string, cards: seq<CardRecords.Card>,
                 faceUrlOf: CardRecords.Card -> string, indexOf: CardRecords.Card -> nat)
      ensures this.name == name && this.description == description && items == cards
      ensures this.faceUrlOf == faceUrlOf && this.indexOf == indexOf
      ensures Valid()
    {
      this.name := name;
      this.description := description;
      items := cards;
      this.faceUrlOf := faceUrlOf;
      this.indexOf := indexOf;
      var idx := Addressing.IndexFaces(FaceUrls(cards, faceUrlOf));
      urlIndices := idx;
    }

    /** The contained card objects, in deck order. */
    function Contained(t: Transform): (cs: seq<CardObject>)
      requires Valid()
      ensures |cs| == |items|
      ensures forall i :: 0 <= i < |items| ==>
                faceUrlOf(items[i]) in urlIndices
                && cs[i] == CardObjectOf(items[i].name, items[i].text,
                                         Addressing.CardId(urlIndices[faceUrlOf(items[i])], indexOf(items[i])), t)
    {
      seq(|items|, i requires 0 <= i < |items| =>
        assert faceUrlOf(items[i]) in FaceUrls(items, faceUrlOf);
        CardObjectOf(items[i].name, items[i].text,
                     Addressing.CardId(urlIndices[faceUrlOf(items[i])], indexOf(items[i])), t))
    }

    /** `tts_object` */
    function TtsObject(): (r: SaveObject)
      requires Valid()
      ensures |r.states| == 1
      ensures var d := r.states[0];
              && d.nickname == name && d.description == description
              && d.transform == Transform(SCALE_XZ, SCALE_Y, SCALE_XZ, None, None)
              && d.contained == Contained(d.transform)
              && d.deckIds == DeckIdsOf(d.contained)
              && d.customDeck == CustomDeck(urlIndices, url => url)
    {
      var t := Transform(SCALE_XZ, SCALE_Y, SCALE_XZ, None, None);
      ObjectStates([DeckObjectOf(name, description, CustomDeck(urlIndices, url => url), Contained(t), t)])
    }

    /** `save()`: a file is written only for a deck with cards. */
    function Save(): (r: Option<(string, SaveObject)>)
      requires Valid()
      ensures r.Some? <==> |items| > 0
      ensures r.Some? ==> r.value.0 == Collections.FileName(name) + ".json" && r.value.1 == TtsObject()
    {
      if |items| > 0 then Some((Collections.FileName(name) + ".json", TtsObject())) else None
    }
  }

  /** `TTSDeck(codes, name, description)`: fails when a code is missing from the database. */
  method New(db: CardDatabase.CardDB, codes: seq<Codes.Code>, name: string, description: string,
             faceUrlOf: CardRecords.Card -> string, indexOf: CardRecords.Card -> nat)
      returns (r: Result<TTSDeck>)
    ensures r.Ok? <==> forall i :: 0 <= i < |codes| ==> db.Contains(codes[i])
    ensures r.Ok? ==> fresh(r.value) && r.value.Valid() && r.value.name == name && r.value.description == description
                      && r.value.faceUrlOf == faceUrlOf && r.value.indexOf == indexOf
                      && LookupAll(db.cards, codes) == Ok(r.value.items)
  {
    match LookupAll(db.cards, codes)
    case Err(e) => r := Err(e);
    case Ok(cards) =>
      var deck := new TTSDeck(name, description, cards, faceUrlOf, indexOf);
      r := Ok(deck);
  }

  /**
   * A card id names the sheet holding the card's face and the card's slot
   * on it: with a slot below 100, the CustomDeck entry under the id's
   * hundreds is the card's face URL, and the remainder is its slot.
   */
  lemma CardIdLocatesFace(deck: TTSDeck, i: nat)
    requires deck.Valid() && i < |deck.items| && deck.indexOf(deck.items[i]) < 100
    ensures var d := deck.TtsObject().states[0];
            var id := d.contained[i].cardId;
            id >= 0 && NatStr(id / 100) in d.customDeck
            && d.customDeck[NatStr(id / 100)].faceUrl == deck.faceUrlOf(deck.items[i])
            && id % 100 == deck.indexOf(deck.items[i])
            && d.deckIds[i] == id
  {
    var d := deck.TtsObject().states[0];
    var url := deck.faceUrlOf(deck.items[i]);
    Addressing.CardIdDecode(deck.urlIndices[url], deck.indexOf(deck.items[i]));
  }

  /** Two cards share a CustomDeck sheet exactly when they share a face URL. */
  lemma SameSheetIffSameFace(deck: TTSDeck, i: nat, j: nat)
    requires deck.Valid() && i < |deck.items| && j < |deck.items|
    requires deck.indexOf(deck.items[i]) < 100 && deck.indexOf(deck.items[j]) < 100
    ensures var d := deck.TtsObject().states[0];
            d.contained[i].cardId / 100 == d.contained[j].cardId / 100
            <==> deck.faceUrlOf(deck.items[i]) == deck.faceUrlOf(deck.items[j])
  {
    var u, v := deck.faceUrlOf(deck.items[i]), deck.faceUrlOf(deck.items[j]);
    Addressing.CardIdDecode(deck.urlIndices[u], deck.indexOf(deck.items[i]));
    Addressing.CardIdDecode(deck.urlIndices[v], deck.indexOf(deck.items[j]));
  }
}
