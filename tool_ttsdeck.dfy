/**
 * Third-generation Tabletop Simulator decks (fftcgtool/ttsdeck.py). Codes
 * the database lacks are reported once each and removed from the
 * caller's list in place; the deck holds the database's cards for the
 * rest. Encoding picks the content of one language, gives each distinct
 * face a sheet index, and resolves faces to URLs through the database.
 */
module ToolTtsDecks {
  import opened Wrappers
  import opened Strings
  import opened TtsObjects
  import CardMaps
  import Codes
  import ToolCards
  import ToolCardDatabase
  import Collections
  import Addressing
  import Languages

  /** The codes of `s` whose short form is not in `drop`, in order. */
  function Filter(s: seq<Codes.Code>, drop: set<string>): (r: seq<Codes.Code>)
    ensures |r| <= |s|
    ensures forall i :: 0 <= i < |r| ==> Codes.Short(r[i]) !in drop
  {
    if s == [] then []
    else (if Codes.Short(s[0]) in drop then [] else [s[0]]) + Filter(s[1..], drop)
  }

  /** The codes of `s` the database has, in order. */
  function Present<V>(s: seq<Codes.Code>, cards: map<string, V>): (r: seq<Codes.Code>)
    ensures forall i :: 0 <= i < |r| ==> Codes.Short(r[i]) in cards
  {
    if s == [] then []
    else (if Codes.Short(s[0]) in cards then [s[0]] else []) + Present(s[1..], cards)
  }

  /** The distinct short forms of the codes the database lacks. */
  function Missing<V>(s: seq<Codes.Code>, cards: map<string, V>): set<string> {
    set i | 0 <= i < |s| && Codes.Short(s[i]) !in cards :: Codes.Short(s[i])
  }

  lemma MissingMembers<V>(s: seq<Codes.Code>, cards: map<string, V>)
    ensures forall i :: 0 <= i < |s| ==> (Codes.Short(s[i]) in Missing(s, cards) <==> Codes.Short(s[i]) !in cards)
    ensures forall k :: k in Missing(s, cards) ==> HasShort(s, k)
  {
    forall k | k in Missing(s, cards) ensures HasShort(s, k) {
      var i :| 0 <= i < |s| && Codes.Short(s[i]) !in cards && Codes.Short(s[i]) == k;
    }
  }

  lemma MissingHas<V>(s: seq<Codes.Code>, cards: map<string, V>, k: string)
    requires k in Missing(s, cards)
    ensures HasShort(s, k)
  {
    MissingMembers(s, cards);
  }

  /** Dropping every missing code leaves the present ones. */
  lemma FilterAllMissing<V>(s: seq<Codes.Code>, cards: map<string, V>)
    ensures Filter(s, Missing(s, cards)) == Present(s, cards)
  {
    MissingMembers(s, cards);
    FilterMissing(s, cards, Missing(s, cards));
  }

  /** How many codes of `s` the database has. */
  function CountPresent<V>(s: seq<Codes.Code>, cards: map<string, V>): nat {
    if s == [] then 0 else (if Codes.Short(s[0]) in cards then 1 else 0) + CountPresent(s[1..], cards)
  }

  /** `list.remove(code)`: the first element equal to `code` (same short form) is removed. */
  function RemoveFirst(s: seq<Codes.Code>, k: string): seq<Codes.Code> {
    if s == [] then []
    else if Codes.Short(s[0]) == k then s[1..]
    else [s[0]] + RemoveFirst(s[1..], k)
  }

  /** The first code of `s` with short form `k`: the one a frozenset built from `s` keeps. */
  function FirstWith(s: seq<Codes.Code>, k: string): (c: Codes.Code)
    requires HasShort(s, k)
    ensures c in s && Codes.Short(c) == k
  {
    if Codes.Short(s[0]) == k then s[0] else FirstWith(s[1..], k)
  }

  lemma {:induction false} FilterRemoveFirst(s: seq<Codes.Code>, k: string, drop: set<string>)
    requires k in drop
    ensures Filter(RemoveFirst(s, k), drop) == Filter(s, drop)
    decreases |s|
  {
    if s != [] && Codes.Short(s[0]) != k {
      FilterRemoveFirst(s[1..], k, drop);
    }
  }

  lemma {:induction false} RemoveFirstShorter(s: seq<Codes.Code>, k: string)
    requires HasShort(s, k)
    ensures |RemoveFirst(s, k)| == |s| - 1
    decreases |s|
  {
    if Codes.Short(s[0]) != k {
      var i :| 0 <= i < |s| && Codes.Short(s[i]) == k;
      assert s[1..][i - 1] == s[i];
      RemoveFirstShorter(s[1..], k);
    }
  }

  lemma {:induction false} FilterKeepsAll(s: seq<Codes.Code>, drop: set<string>)
    requires forall i :: 0 <= i < |s| ==> Codes.Short(s[i]) !in drop
    ensures Filter(s, drop) == s
    decreases |s|
  {
    if s != [] {
      FilterKeepsAll(s[1..], drop);
    }
  }

  lemma {:induction false} FilterTwice(s: seq<Codes.Code>, a: set<string>, b: set<string>)
    ensures Filter(Filter(s, a), b) == Filter(s, a + b)
    decreases |s|
  {
    if s != [] {
      FilterTwice(s[1..], a, b);
      var t := Filter(s[1..], a);
      if Codes.Short(s[0]) !in a {
        assert Filter(s, a) == [s[0]] + t;
        assert ([s[0]] + t)[0] == s[0] && ([s[0]] + t)[1..] == t;
      } else {
        assert Filter(s, a) == t;
        assert Filter(s, a + b) == Filter(s[1..], a + b);
      }
    }
  }

  /** Dropping exactly the missing codes leaves the present ones. */
  lemma {:induction false} FilterMissing<V>(s: seq<Codes.Code>, cards: map<string, V>, drop: set<string>)
    requires forall i :: 0 <= i < |s| ==> (Codes.Short(s[i]) in drop <==> Codes.Short(s[i]) !in cards)
    ensures Filter(s, drop) == Present(s, cards)
    decreases |s|
  {
    if s != [] {
      FilterMissing(s[1..], cards, drop);
    }
  }

  /** The kept codes are the input's present codes in order, and there are as many as the input has. */
  lemma {:induction false} PresentCount<V>(s: seq<Codes.Code>, cards: map<string, V>)
    ensures |Present(s, cards)| == CountPresent(s, cards)
    ensures forall c :: c in Present(s, cards) <==> c in s && Codes.Short(c) in cards
    decreases |s|
  {
    if s != [] {
      PresentCount(s[1..], cards);
      assert s == [s[0]] + s[1..];
    }
  }

  /** Some code of `s` has short form `k`. */
  predicate HasShort(s: seq<Codes.Code>, k: string) {
    exists i :: 0 <= i < |s| && Codes.Short(s[i]) == k
  }

  /** `code in codes` */
  predicate Has(s: seq<Codes.Code>, code: Codes.Code) {
    HasShort(s, Codes.Short(code))
  }

  /** The caller's list of codes, mutated in place. */
  class CodeList {
    var items: seq<Codes.Code>

    constructor (codes: seq<Codes.Code>)
      ensures items == codes
    {
      items := codes;
    }

    /** `codes.remove(code)`: ValueError when no element equals `code`. */
    method Remove(code: Codes.Code) returns (r: Result<bool>)
      modifies this
      ensures Has(old(items), code) ==> r.Ok? && items == RemoveFirst(old(items), Codes.Short(code))
      ensures !Has(old(items), code) ==> r.Err? && items == old(items)
    {
      if Has(items, code) {
        items := RemoveFirst(items, Codes.Short(code));
        r := Ok(true);
      } else {
        r := Err("ValueError: list.remove(x): x not in list");
      }
    }
  }

  /** `while code in codes: codes.remove(code)` */
  method RemoveAll(codes: CodeList, code: Codes.Code)
    modifies codes
    ensures codes.items == Filter(old(codes.items), {Codes.Short(code)})
  {
    var k := Codes.Short(code);
    while Has(codes.items, code)
      invariant Filter(codes.items, {k}) == Filter(old(codes.items), {k})
      decreases |codes.items|
    {
      RemoveFirstShorter(codes.items, k);
      FilterRemoveFirst(codes.items, k, {k});
      var _ := codes.Remove(code);
    }
    FilterKeepsAll(codes.items, {k});
  }

  function ShortsOf(s: seq<Codes.Code>): (ks: seq<string>)
    ensures |ks| == |s| && forall j :: 0 <= j < |s| ==> ks[j] == Codes.Short(s[j])
  {
    seq(|s|, j requires 0 <= j < |s| => Codes.Short(s[j]))
  }

  /** The reported short forms are exactly `done`, each once. */
  predicate Reports(ks: seq<string>, done: set<string>) {
    && |ks| == |done|
    && (forall k :: k in ks ==> k in done)
    && (forall k :: k in done ==> k in ks)
    && CardMaps.Distinct(ks)
  }

  lemma ReportOneMore(ks: seq<string>, done: set<string>, k: string)
    requires Reports(ks, done) && k !in done
    ensures Reports(ks + [k], done + {k})
  {
  }

  /** The bookkeeping of the removal loop: `done` is reported and removed, `remaining` is still to do. */
  predicate DropState(orig: seq<Codes.Code>, items: seq<Codes.Code>, ignored: seq<Codes.Code>,
                      done: set<string>, remaining: set<string>, invalid: set<string>)
  {
    && done + remaining == invalid && done !! remaining
    && items == Filter(orig, done)
    && Reports(ShortsOf(ignored), done)
    && (forall j :: 0 <= j < |ignored| ==> ignored[j] in orig)
  }

  /** Reporting `code` and removing its short form from the list keeps the bookkeeping. */
  lemma DropStep(orig: seq<Codes.Code>, items: seq<Codes.Code>, ignored: seq<Codes.Code>,
                 done: set<string>, remaining: set<string>, invalid: set<string>, code: Codes.Code)
    requires DropState(orig, items, ignored, done, remaining, invalid)
    requires code in orig && Codes.Short(code) in remaining
    ensures DropState(orig, Filter(items, {Codes.Short(code)}), ignored + [code], done + {Codes.Short(code)},
                      remaining - {Codes.Short(code)}, invalid)
    ensures |remaining - {Codes.Short(code)}| < |remaining|
  {
    var k := Codes.Short(code);
    ReportCode(ignored, done, code);
    FilterTwice(orig, done, {k});
    MoveDone(done, remaining, invalid, k);
    AllInSnoc(ignored, code, orig);
  }

  lemma AllInSnoc(ignored: seq<Codes.Code>, code: Codes.Code, orig: seq<Codes.Code>)
    requires (forall j :: 0 <= j < |ignored| ==> ignored[j] in orig) && code in orig
    ensures forall j :: 0 <= j < |ignored + [code]| ==> (ignored + [code])[j] in orig
  {
  }

  lemma ReportCode(ignored: seq<Codes.Code>, done: set<string>, code: Codes.Code)
    requires Reports(ShortsOf(ignored), done) && Codes.Short(code) !in done
    ensures Reports(ShortsOf(ignored + [code]), done + {Codes.Short(code)})
  {
    ReportOneMore(ShortsOf(ignored), done, Codes.Short(code));
    assert ShortsOf(ignored + [code]) == ShortsOf(ignored) + [Codes.Short(code)];
  }

  lemma MoveDone(done: set<string>, remaining: set<string>, invalid: set<string>, k: string)
    requires done + remaining == invalid && done !! remaining && k in remaining
    ensures (done + {k}) + (remaining - {k}) == invalid && (done + {k}) !! (remaining - {k})
    ensures |remaining - {k}| < |remaining|
  {
  }

  /**
   * Lines 25-35: each distinct missing code is reported once, by its first
   * occurrence, and every occurrence of it is removed from `codes`. The
   * frozenset's iteration order is not specified, so neither is the order
   * of the reports.
   */
  method DropInvalid<V>(codes: CodeList, cards: map<string, V>) returns (ignored: seq<Codes.Code>)
    modifies codes
    ensures codes.items == Present(old(codes.items), cards)
    ensures Reports(ShortsOf(ignored), Missing(old(codes.items), cards))
    ensures forall j :: 0 <= j < |ignored| ==> ignored[j] in old(codes.items)
  {
    var orig := codes.items;
    var invalid := Missing(orig, cards);
    var remaining := invalid;
    ghost var done: set<string> := {};
    ignored := [];
    FilterKeepsAll(orig, {});
    while remaining != {}
      invariant DropState(orig, codes.items, ignored, done, remaining, invalid)
      decreases |remaining|
    {
      var k :| k in remaining;
      MissingHas(orig, cards, k);
      var code := FirstWith(orig, k);
      ghost var before := codes.items;
      RemoveAll(codes, code);
      DropStep(orig, before, ignored, done, remaining, invalid, code);
      ignored := ignored + [code];
      done := done + {k};
      remaining := remaining - {k};
    }
    FilterAllMissing(orig, cards);
  }

  /** `f"Code '{code}' not in CardDB, ignoring!"` */
  function ErrorMessage(code: Codes.Code): string {
    "Code '" + Codes.Str(code) + "' not in CardDB, ignoring!"
  }

  class TTSDeck {
    const name: string
    const description: string
    const faceDown: bool
    const items: seq<ToolCards.Card>
    /** The codes reported as missing, one per distinct missing code. */
    const ignored: seq<Codes.Code>

    /** `TTSDeck(codes, name, description, face_down)` */
    constructor (codes: CodeList, name: string, description: string, faceDown: bool, db: ToolCardDatabase.CardDB)
      modifies codes
      ensures this.name == name && this.description == description && this.faceDown == faceDown
      ensures codes.items == Present(old(codes.items), db.cards)
      ensures |items| == |codes.items| == CountPresent(old(codes.items), db.cards)
      ensures forall i :: 0 <= i < |items| ==> items[i] == db.cards[Codes.Short(codes.items[i])]
      ensures Reports(ShortsOf(ignored), Missing(old(codes.items), db.cards))
      ensures forall j :: 0 <= j < |ignored| ==> ignored[j] in old(codes.items)
    {
      this.name := name;
      this.description := description;
      this.faceDown := faceDown;
      ghost var orig := codes.items;
      var dropped := DropInvalid(codes, db.cards);
      ignored := dropped;
      var kept := codes.items;
      var cards := db.cards;
      PresentCount(orig, cards);
      items := seq(|kept|, i requires 0 <= i < |kept| => cards[Codes.Short(kept[i])]);
    }

    /** The messages logged while the deck was built. */
    function Errors(): (r: seq<string>)
      ensures |r| == |ignored|
      ensures forall j :: 0 <= j < |r| ==> r[j] == ErrorMessage(ignored[j])
    {
      seq(|ignored|, j requires 0 <= j < |ignored| => ErrorMessage(ignored[j]))
    }

    /** `file_name`: the collection's file name with ".json" appended. */
    function FileName(): (f: string)
      ensures f == Collections.FileName(name) + ".json"
    {
      Collections.FileName(name) + ".json"
    }

    /** Every card has content in `language`. */
    predicate HasLanguage(language: Languages.Language)
      reads items
    {
      forall i :: 0 <= i < |items| ==> language in items[i].content
    }

    /** The contents of the cards in `language`, in deck order. */
    function Contents(language: Languages.Language): (cs: seq<ToolCards.CardContent>)
      requires HasLanguage(language)
      reads items
      ensures |cs| == |items| && forall i :: 0 <= i < |items| ==> cs[i] == items[i].content[language]
    {
      seq(|items|, i requires 0 <= i < |items| && language in items[i].content reads items => items[i].content[language])
    }

    /** The slot indices of the cards, in deck order. */
    function Indices(): (ix: seq<int>)
      reads items
      ensures |ix| == |items| && forall i :: 0 <= i < |items| ==> ix[i] == items[i].index
    {
      seq(|items|, i requires 0 <= i < |items| reads items => items[i].index)
    }

    /**
     * `get_tts_object(language)`: KeyError when a card has no content in
     * `language`. `faceIndices` is the face-to-sheet map the encoding used.
     */
    method GetTtsObject(language: Languages.Language, db: ToolCardDatabase.CardDB)
        returns (r: Result<SaveObject>, faceIndices: map<string, nat>)
      ensures r.Ok? <==> HasLanguage(language)
      ensures r.Ok? ==> var cs := Contents(language);
                        && faceIndices.Keys == DeckFaces(cs)
                        && Addressing.Bijective(faceIndices, |faceIndices.Keys|)
                        && r.value == Encode(name, description, faceDown, cs, Indices(), faceIndices, db.faceToUrl)
    {
      faceIndices := map[];
      if !HasLanguage(language) {
        return Err("KeyError"), faceIndices;
      }
      var cs := Contents(language);
      faceIndices := Addressing.IndexFaces(DeckFaces(cs));
      r := Ok(Encode(name, description, faceDown, cs, Indices(), faceIndices, db.faceToUrl));
    }

    /**
     * `save(language)`: a file in the decks directory, only for a deck with
     * cards, holding the deck's encoding. `faceIndices` is the face-to-sheet
     * map that encoding used.
     */
    method Save(language: Languages.Language, db: ToolCardDatabase.CardDB, decksDir: string)
        returns (r: Result<Option<(string, SaveObject)>>, faceIndices: map<string, nat>)
      ensures |items| == 0 ==> r == Ok(None)
      ensures |items| > 0 ==> (r.Ok? <==> HasLanguage(language))
      ensures r.Ok? && r.value.Some? ==> |items| > 0 && r.value.value.0 == decksDir + "/" + FileName()
      ensures r.Ok? && r.value.Some? ==> var cs := Contents(language);
                        && faceIndices.Keys == DeckFaces(cs)
                        && Addressing.Bijective(faceIndices, |faceIndices.Keys|)
                        && r.value.value.1 == Encode(name, description, faceDown, cs, Indices(), faceIndices, db.faceToUrl)
    {
      faceIndices := map[];
      if |items| == 0 {
        return Ok(None), faceIndices;
      }
      var obj;
      obj, faceIndices := GetTtsObject(language, db);
      match obj
      case Err(e) => r := Err(e);
      case Ok(o) => r := Ok(Some((decksDir + "/" + FileName(), o)));
    }
  }

  /** The deck items for codes the database holds. */
  function ItemsOf(codes: seq<Codes.Code>, cards: map<string, ToolCards.Card>): (r: seq<ToolCards.Card>)
    requires forall i :: 0 <= i < |codes| ==> Codes.Short(codes[i]) in cards
    ensures |r| == |codes| && forall i :: 0 <= i < |codes| ==> r[i] == cards[Codes.Short(codes[i])]
  {
    seq(|codes|, i requires 0 <= i < |codes| && Codes.Short(codes[i]) in cards => cards[Codes.Short(codes[i])])
  }

  /** `d` is what `TTSDeck(codes, name, description, face_down)` builds against `db`. */
  predicate Built(d: TTSDeck, name: string, description: string, faceDown: bool, codes: seq<Codes.Code>,
                  db: ToolCardDatabase.CardDB)
    reads db
  {
    && d.name == name && d.description == description && d.faceDown == faceDown
    && d.items == ItemsOf(Present(codes, db.cards), db.cards)
    && Reports(ShortsOf(d.ignored), Missing(codes, db.cards))
  }

  /** A deck of fresh codes: the caller's list is not kept. */
  method NewDeck(name: string, description: string, faceDown: bool, codes: seq<Codes.Code>,
                 db: ToolCardDatabase.CardDB) returns (d: TTSDeck)
    ensures Built(d, name, description, faceDown, codes, db)
  {
    var list := new CodeList(codes);
    d := new TTSDeck(list, name, description, faceDown, db);
  }

  /** A deck holds one card per code of its list that the database has. */
  lemma BuiltSize(d: TTSDeck, name: string, description: string, faceDown: bool, codes: seq<Codes.Code>,
                  db: ToolCardDatabase.CardDB)
    requires Built(d, name, description, faceDown, codes, db)
    ensures |d.items| == CountPresent(codes, db.cards)
  {
    PresentCount(codes, db.cards);
  }

  /** The distinct faces of the chosen contents. */
  function DeckFaces(cs: seq<ToolCards.CardContent>): set<string> {
    set i | 0 <= i < |cs| :: cs[i].face
  }

  /** The `Transform` shared by the deck and every card: rotY 180 always, rotZ 180 for a face-down deck. */
  function DeckTransform(faceDown: bool): Transform {
    Transform(SCALE_XZ, SCALE_Y, SCALE_XZ, Some("180.0"), if faceDown then Some("180.0") else None)
  }

  function ContainedOf(cs: seq<ToolCards.CardContent>, indices: seq<int>, idx: map<string, nat>, t: Transform): (r: seq<CardObject>)
    requires |indices| == |cs| && DeckFaces(cs) <= idx.Keys
    ensures |r| == |cs|
    ensures forall i :: 0 <= i < |cs| ==>
              (cs[i].face in idx
               && r[i] == CardObjectOf(cs[i].name, cs[i].text, Addressing.CardId(idx[cs[i].face], indices[i]), t))
  {
    seq(|cs|, i requires 0 <= i < |cs| =>
      assert cs[i].face in DeckFaces(cs);
      CardObjectOf(cs[i].name, cs[i].text, Addressing.CardId(idx[cs[i].face], indices[i]), t))
  }

  /** The save object of lines 62-127, given the chosen contents, slot indices and face indices. */
  function Encode(name: string, description: string, faceDown: bool, cs: seq<ToolCards.CardContent>,
                  indices: seq<int>, idx: map<string, nat>, urls: map<string, string>): SaveObject
    requires |indices| == |cs| && idx.Keys == DeckFaces(cs) && Addressing.Bijective(idx, |idx.Keys|)
  {
    var t := DeckTransform(faceDown);
    ObjectStates([DeckObjectOf(name, description, CustomDeck(idx, face => CardMaps.FaceUrl(urls, face)),
                               ContainedOf(cs, indices, idx, t), t)])
  }

  /**
   * The encoded deck: one CustomDeck sheet per distinct face, holding the
   * database's URL for it; DeckIDs are the card ids in card order; every
   * card, like the deck, carries rotY 180 and, face down, rotZ 180.
   */
  lemma EncodeShape(name: string, description: string, faceDown: bool, cs: seq<ToolCards.CardContent>,
                    indices: seq<int>, idx: map<string, nat>, urls: map<string, string>)
    requires |indices| == |cs| && idx.Keys == DeckFaces(cs) && Addressing.Bijective(idx, |idx.Keys|)
    ensures var o := Encode(name, description, faceDown, cs, indices, idx, urls);
            |o.states| == 1
            && var d := o.states[0];
               d.nickname == name && d.description == description
               && d.customDeck.Keys == Addressing.DeckKeys(idx)
               && (forall f :: f in idx ==> d.customDeck[NatStr(idx[f])].faceUrl == CardMaps.FaceUrl(urls, f))
               && |d.contained| == |cs| && d.deckIds == DeckIdsOf(d.contained)
               && d.transform.rotY == Some("180.0")
               && (d.transform.rotZ.Some? <==> faceDown)
               && (forall i :: 0 <= i < |cs| ==>
                     (d.contained[i].transform == d.transform
                      && d.contained[i].nickname == cs[i].name && d.contained[i].description == cs[i].text))
  {
  }

  /**
   * A card id with a slot below 100 names the sheet of the card's face:
   * the CustomDeck entry under its hundreds holds that face's URL, and the
   * remainder is the card's slot.
   */
  lemma EncodeLocatesFace(name: string, description: string, faceDown: bool, cs: seq<ToolCards.CardContent>,
                          indices: seq<int>, idx: map<string, nat>, urls: map<string, string>, i: nat)
    requires |indices| == |cs| && idx.Keys == DeckFaces(cs) && Addressing.Bijective(idx, |idx.Keys|)
    requires i < |cs| && 0 <= indices[i] < 100
    ensures var d := Encode(name, description, faceDown, cs, indices, idx, urls).states[0];
            var id := d.contained[i].cardId;
            id >= 0 && NatStr(id / 100) in d.customDeck
            && d.customDeck[NatStr(id / 100)].faceUrl == CardMaps.FaceUrl(urls, cs[i].face)
            && id % 100 == indices[i] && d.deckIds[i] == id
  {
    assert cs[i].face in DeckFaces(cs);
    Addressing.CardIdDecode(idx[cs[i].face], indices[i]);
  }
}
