/**
 * One opus of the third generation (fftcgtool/opus.py): the opus id picks
 * the collection's name, its number and the query for the card service;
 * the cards the service returns are kept when they belong to the opus,
 * sorted by opus and serial, and given the faces the database knows. The
 * collection is then split into decks by element.
 */
module ToolOpus {
  import opened Wrappers
  import opened Strings
  import opened Sorting
  import Codes
  import Languages
  import CardRecords
  import ToolCards
  import ToolCardDatabase
  import ToolTtsDecks

  /** `str.isnumeric()` on ASCII text: non-empty and all digits. */
  predicate IsNumeric(s: string) { s != [] && AllDigits(s) }

  /** A query parameter of the card service: a list of strings or one string. */
  datatype ParamValue = Values(items: seq<string>) | Plain(text: string)

  type Params = map<string, ParamValue>

  /** What the opus id decides: the collection's name, its number and the query. */
  datatype Header = Header(name: string, number: string, params: Params)

  /** The "set" query of a numbered opus, lines 27-35. `toRoman` is the roman-numeral library. */
  function NumberedSet(n: nat, toRoman: nat -> Result<string>): Result<Params> {
    if n <= 14 then
      match toRoman(n)
      case Err(e) => Err(e)
      case Ok(numeral) => Ok(map["set" := Values(["Opus " + Upper(numeral)])])
    else if n == 15 then Ok(map["set" := Values(["Crystal Dominion"])])
    else if n == 16 then Ok(map["set" := Values(["Emissaries of Light"])])
    else Err("KeyError: " + NatStr(n))
  }

  /** Lines 62-63: the service needs "text", which defaults to "". */
  function WithText(params: Params): Params {
    if "text" in params then params else params["text" := Plain("")]
  }

  /** Lines 22-63: the name, number and query an opus id stands for. */
  function HeaderOf(opusId: string, language: Languages.Language, toRoman: nat -> Result<string>): Result<Header> {
    if IsNumeric(opusId) then
      match NumberedSet(DigitsValue(opusId), toRoman)
      case Err(e) => Err(e)
      case Ok(params) => Ok(Header("Opus " + opusId + " (" + language.short + ")", opusId, WithText(params)))
    else if opusId == "chaos" then
      Ok(Header("Boss Deck Chaos (" + language.short + ")", "B", WithText(map["set" := Values(["Boss Deck Chaos"])])))
    else if opusId == "promo" then
      Ok(Header("Promo (" + language.short + ")", "PR", WithText(map["rarity" := Values(["pr"])])))
    else
      Ok(Header("?", "?", WithText(map["set" := Plain("?")])))
  }

  /**
   * A numeric id names "Opus {id} ({language})" with the id as its number;
   * opus 15 and 16 have their set names, opus 14 and below the upper-cased
   * roman numeral, and an id above 16 is not in the table.
   */
  lemma HeaderNumbered(opusId: string, language: Languages.Language, toRoman: nat -> Result<string>)
    requires IsNumeric(opusId)
    ensures var n := DigitsValue(opusId);
            var h := HeaderOf(opusId, language, toRoman);
            && (h.Ok? ==> h.value.name == "Opus " + opusId + " (" + language.short + ")" && h.value.number == opusId)
            && (n > 16 ==> h.Err?)
            && (n == 15 ==> h.Ok? && h.value.params["set"] == Values(["Crystal Dominion"]))
            && (n == 16 ==> h.Ok? && h.value.params["set"] == Values(["Emissaries of Light"]))
            && (n <= 14 ==> (h.Ok? <==> toRoman(n).Ok?))
            && (n <= 14 && toRoman(n).Ok? ==> h.value.params["set"] == Values(["Opus " + Upper(toRoman(n).value)]))
  {
  }

  /** "chaos" is the boss deck "B", "promo" the promos "PR", and anything else the unknown opus "?". */
  lemma HeaderNamed(opusId: string, language: Languages.Language, toRoman: nat -> Result<string>)
    requires !IsNumeric(opusId)
    ensures var h := HeaderOf(opusId, language, toRoman);
            && h.Ok?
            && (opusId == "chaos" ==> h.value.number == "B" && h.value.name == "Boss Deck Chaos (" + language.short + ")"
                                      && h.value.params["set"] == Values(["Boss Deck Chaos"]))
            && (opusId == "promo" ==> h.value.number == "PR" && h.value.name == "Promo (" + language.short + ")"
                                      && h.value.params["rarity"] == Values(["pr"]))
            && (opusId != "chaos" && opusId != "promo" ==>
                  h.value.number == "?" && h.value.name == "?" && h.value.params["set"] == Plain("?"))
  {
  }

  /** Every query carries "text", and since no branch sets it, it is always "". */
  lemma HeaderText(opusId: string, language: Languages.Language, toRoman: nat -> Result<string>)
    ensures var h := HeaderOf(opusId, language, toRoman);
            h.Ok? ==> "text" in h.value.params && h.value.params["text"] == Plain("")
  {
  }

  /** Line 77: a card belongs to the opus when its opus is the number, or is not a number at all. */
  predicate Keep(code: Codes.Code, number: string) {
    code.opus == number || !IsNumeric(code.opus)
  }

  /** Line 74-78: the cards of the opus, in the order the service returned them. */
  function KeptCards(cs: seq<ToolCards.Card>, number: string): (r: seq<ToolCards.Card>)
    ensures forall i :: 0 <= i < |r| ==> Keep(r[i].code, number)
    ensures multiset(r) <= multiset(cs)
  {
    if cs == [] then []
    else
      assert cs == [cs[0]] + cs[1..];
      (if Keep(cs[0].code, number) then [cs[0]] else []) + KeptCards(cs[1..], number)
  }

  /** Every card that belongs to the opus is kept. */
  lemma {:induction false} KeptMembers(cs: seq<ToolCards.Card>, number: string, i: nat)
    requires i < |cs| && Keep(cs[i].code, number)
    ensures cs[i] in KeptCards(cs, number)
  {
    if i > 0 {
      KeptMembers(cs[1..], number, i - 1);
    }
  }

  /** The serial number, where there is one; the sort runs only when every card has one. */
  function SerialNum(code: Codes.Code): int {
    match Codes.Serial(code)
    case Ok(n) => n
    case Err(_) => -1
  }

  function SerialKey(c: ToolCards.Card): Key { Num(SerialNum(c.code)) }

  function OpusKey(c: ToolCards.Card): Key { Text(c.code.opus) }

  /** `int(serial)` succeeds for every card, so the sort by serial does not raise. */
  predicate AllSerials(cs: seq<ToolCards.Card>) {
    forall i :: 0 <= i < |cs| ==> Codes.Serial(cs[i].code).Ok?
  }

  /** Every card has English content, which `str(card)` reads. */
  predicate AllEnglish(cs: seq<ToolCards.Card>)
    reads cs
  {
    forall i :: 0 <= i < |cs| ==> Languages.Language("en") in cs[i].content
  }

  /** A record whose card is kept but has no English content, so `str(card)` raises. */
  predicate UnprintableKept(data: CardRecords.Record, number: string, langs: seq<Languages.Language>,
                            elementMarkup: string -> string, hintMarkup: string -> string)
  {
    var p := ToolCards.FromSquareApiData(data, langs, elementMarkup, hintMarkup);
    p.Ok? && Keep(p.value.code, number) && Languages.Language("en") !in p.value.content
  }

  /** A kept card has no English content exactly when the service's languages leave English out. */
  lemma UnprintableIffNoEnglish(data: CardRecords.Record, number: string, langs: seq<Languages.Language>,
                                elementMarkup: string -> string, hintMarkup: string -> string)
    requires ToolCards.FromSquareApiData(data, langs, elementMarkup, hintMarkup).Ok?
    requires Keep(ToolCards.FromSquareApiData(data, langs, elementMarkup, hintMarkup).value.code, number)
    ensures UnprintableKept(data, number, langs, elementMarkup, hintMarkup) <==> Languages.Language("en") !in langs
  {
    if data != map[] {
      ToolCards.FromSquareApiDataFields(data, langs, elementMarkup, hintMarkup);
    }
  }

  /**
   * The two stable sorts order the cards by opus text, then by serial
   * number, as a permutation of the collection that keeps the order of
   * cards with the same opus and serial.
   */
  lemma OpusOrder(cs: seq<ToolCards.Card>)
    ensures var r := SortBy(SortBy(cs, SerialKey), OpusKey);
            && multiset(r) == multiset(cs)
            && (forall i, j :: 0 <= i < j < |r| ==>
                  StrLe(r[i].code.opus, r[j].code.opus)
                  && (r[i].code.opus == r[j].code.opus ==> SerialNum(r[i].code) <= SerialNum(r[j].code)))
            && (forall k :: KeyFilter(r, Lex(OpusKey, SerialKey), k) == KeyFilter(cs, Lex(OpusKey, SerialKey), k))
  {
    var lex := Lex(OpusKey, SerialKey);
    SortTwice(cs, SerialKey, OpusKey);
    SortSortedPermutation(cs, lex);
    SortedByOpusThenSerial(SortBy(cs, lex));
    forall k ensures KeyFilter(SortBy(cs, lex), lex, k) == KeyFilter(cs, lex, k) {
      SortStable(cs, lex, k);
    }
  }

  lemma SortedByOpusThenSerial(r: seq<ToolCards.Card>)
    requires SortedBy(r, Lex(OpusKey, SerialKey))
    ensures forall i, j :: 0 <= i < j < |r| ==>
              StrLe(r[i].code.opus, r[j].code.opus)
              && (r[i].code.opus == r[j].code.opus ==> SerialNum(r[i].code) <= SerialNum(r[j].code))
  {
    var lex := Lex(OpusKey, SerialKey);
    forall i, j | 0 <= i < j < |r|
      ensures StrLe(r[i].code.opus, r[j].code.opus)
              && (r[i].code.opus == r[j].code.opus ==> SerialNum(r[i].code) <= SerialNum(r[j].code))
    {
      assert KeyLe(lex(r[i]), lex(r[j]));
      assert lex(r[i]) == Pair(OpusKey(r[i]), SerialKey(r[i]));
      assert lex(r[j]) == Pair(OpusKey(r[j]), SerialKey(r[j]));
      if OpusKey(r[i]) == OpusKey(r[j]) {
        StrLeReflexive(r[i].code.opus);
        assert KeyLe(SerialKey(r[i]), SerialKey(r[j]));
      } else {
        assert KeyLe(OpusKey(r[i]), OpusKey(r[j]));
      }
    }
  }

  /** What the database holds for a code: its card's content, or nothing. */
  function DbContent(db: ToolCardDatabase.CardDB, code: Codes.Code): Option<ToolCards.Content>
    reads db, db.cards.Values
  {
    if Codes.Short(code) in db.cards then Some(db.cards[Codes.Short(code)].content) else None
  }

  /**
   * Lines 88-93 for one card: for each API language in turn, the content
   * gets the database card's face; the first KeyError (no database card,
   * or a language either side lacks) ends the loop and keeps what was done.
   */
  function CopiedContent(content: ToolCards.Content, dbContent: Option<ToolCards.Content>,
                         langs: seq<Languages.Language>): ToolCards.Content
  {
    if langs == [] || dbContent.None? || langs[0] !in content || langs[0] !in dbContent.value then content
    else
      var l := langs[0];
      CopiedContent(content[l := content[l].(face := dbContent.value[l].face)], dbContent, langs[1..])
  }

  /**
   * No language is added or dropped. A card the database lacks keeps its
   * content. When both sides have every language, each gets the database's
   * face and keeps its own name and text.
   */
  lemma {:induction false} CopiedContentFaces(content: ToolCards.Content, dbContent: Option<ToolCards.Content>,
                                              langs: seq<Languages.Language>)
    ensures CopiedContent(content, dbContent, langs).Keys == content.Keys
    ensures dbContent.None? ==> CopiedContent(content, dbContent, langs) == content
    ensures dbContent.Some? && (forall l :: l in langs ==> l in content && l in dbContent.value) ==>
              var r := CopiedContent(content, dbContent, langs);
              forall l :: l in content ==>
                r[l] == if l in langs then content[l].(face := dbContent.value[l].face) else content[l]
  {
    if langs != [] && dbContent.Some? && langs[0] in content && langs[0] in dbContent.value {
      var l := langs[0];
      var next := content[l := content[l].(face := dbContent.value[l].face)];
      CopiedContentFaces(next, dbContent, langs[1..]);
      assert forall m :: m in langs <==> m == l || m in langs[1..];
    }
  }

  /** One card of the loop in lines 87-93. */
  method CopyCardFaces(card: ToolCards.Card, dbContent: Option<ToolCards.Content>, langs: seq<Languages.Language>)
    modifies card
    ensures card.content == CopiedContent(old(card.content), dbContent, langs)
    ensures card.index == old(card.index)
  {
    var i := 0;
    while i < |langs|
      invariant 0 <= i <= |langs|
      invariant CopiedContent(old(card.content), dbContent, langs) == CopiedContent(card.content, dbContent, langs[i..])
      invariant card.index == old(card.index)
    {
      var l := langs[i];
      assert langs[i..][0] == l && langs[i..][1..] == langs[i + 1..];
      if dbContent.None? || l !in card.content || l !in dbContent.value {
        return;
      }
      card.Set(ToolCards.ByLanguage(l), card.content[l].(face := dbContent.value[l].face));
      i := i + 1;
    }
  }

  /** No card object occurs twice. */
  predicate Distinct(cs: seq<ToolCards.Card>) {
    forall c | c in multiset(cs) :: multiset(cs)[c] <= 1
  }

  /** A card occurring at two positions would occur twice. */
  lemma DistinctIndices(cs: seq<ToolCards.Card>, i: nat, j: nat)
    requires Distinct(cs) && i < j < |cs|
    ensures cs[i] != cs[j]
  {
    assert cs == cs[..j] + cs[j..];
    assert multiset(cs)[cs[j]] == multiset(cs[..j])[cs[j]] + multiset(cs[j..])[cs[j]];
    assert cs[j] in multiset(cs[j..]);
    assert cs[j] !in cs[..j];
    assert cs[..j][i] == cs[i];
  }

  lemma DistinctSnoc(cs: seq<ToolCards.Card>, c: ToolCards.Card)
    requires Distinct(cs) && c !in cs
    ensures Distinct(cs + [c])
  {
    assert multiset(cs + [c]) == multiset(cs) + multiset{c};
  }

  /** A card object holds the parts of a parsed record, and the first face index. */
  predicate HoldsParts(c: ToolCards.Card, p: ToolCards.Parts)
    reads c
  {
    c.code == p.code && c.elements == p.elements && c.content == p.content && c.index == 0
  }

  /** A card object holds what `Card.from_square_api_data` built from one record. */
  predicate CreatedFrom(c: ToolCards.Card, data: CardRecords.Record, langs: seq<Languages.Language>,
                        elementMarkup: string -> string, hintMarkup: string -> string)
    reads c
  {
    var p := ToolCards.FromSquareApiData(data, langs, elementMarkup, hintMarkup);
    p.Ok? && HoldsParts(c, p.value)
  }

  /** `Card.from_square_api_data` on every record the service returned, in order. */
  method CreateCards(records: seq<CardRecords.Record>, langs: seq<Languages.Language>,
                     elementMarkup: string -> string, hintMarkup: string -> string)
      returns (r: Result<seq<ToolCards.Card>>)
    ensures r.Ok? <==> forall i :: 0 <= i < |records| ==> ToolCards.FromSquareApiData(records[i], langs, elementMarkup, hintMarkup).Ok?
    ensures r.Ok? ==> |r.value| == |records| && Distinct(r.value)
    ensures r.Ok? ==> forall i :: 0 <= i < |records| ==>
              fresh(r.value[i]) && CreatedFrom(r.value[i], records[i], langs, elementMarkup, hintMarkup)
  {
    var cards: seq<ToolCards.Card> := [];
    ghost var parsed: seq<ToolCards.Parts> := [];
    var i := 0;
    while i < |records|
      invariant 0 <= i <= |records| && |cards| == i && |parsed| == i && Distinct(cards)
      invariant forall j :: 0 <= j < i ==> fresh(cards[j])
      invariant ParsedAll(records[..i], parsed, langs, elementMarkup, hintMarkup)
      invariant forall j :: 0 <= j < i ==> HoldsParts(cards[j], parsed[j])
    {
      var c := ToolCards.NewFromSquareApiData(records[i], langs, elementMarkup, hintMarkup);
      if c.Err? {
        return Err(c.error);
      }
      DistinctSnoc(cards, c.value);
      ghost var p := ToolCards.FromSquareApiData(records[i], langs, elementMarkup, hintMarkup).value;
      ParsedSnoc(records, i, parsed, p, langs, elementMarkup, hintMarkup);
      parsed := parsed + [p];
      cards := cards + [c.value];
      i := i + 1;
    }
    assert records[..i] == records;
    r := Ok(cards);
  }

  /** `parsed` holds what every record parses to. */
  ghost predicate ParsedAll(records: seq<CardRecords.Record>, parsed: seq<ToolCards.Parts>, langs: seq<Languages.Language>,
                            elementMarkup: string -> string, hintMarkup: string -> string)
  {
    |parsed| == |records|
    && forall j :: 0 <= j < |records| ==> ToolCards.FromSquareApiData(records[j], langs, elementMarkup, hintMarkup) == Ok(parsed[j])
  }

  lemma ParsedSnoc(records: seq<CardRecords.Record>, i: nat, parsed: seq<ToolCards.Parts>, p: ToolCards.Parts,
                   langs: seq<Languages.Language>, elementMarkup: string -> string, hintMarkup: string -> string)
    requires i < |records| && ParsedAll(records[..i], parsed, langs, elementMarkup, hintMarkup)
    requires ToolCards.FromSquareApiData(records[i], langs, elementMarkup, hintMarkup) == Ok(p)
    ensures ParsedAll(records[..i + 1], parsed + [p], langs, elementMarkup, hintMarkup)
  {
    forall j | 0 <= j < i + 1
      ensures ToolCards.FromSquareApiData(records[..i + 1][j], langs, elementMarkup, hintMarkup) == Ok((parsed + [p])[j])
    {
      if j < i {
        assert records[..i + 1][j] == records[..i][j];
      }
    }
  }

  /** The card codes, in collection order. */
  function CodesOf(cs: seq<ToolCards.Card>): (r: seq<Codes.Code>)
    ensures |r| == |cs| && forall i :: 0 <= i < |cs| ==> r[i] == cs[i].code
  {
    seq(|cs|, i requires 0 <= i < |cs| => cs[i].code)
  }

  class Opus {
    const name: string
    const number: string
    const language: Languages.Language
    var items: seq<ToolCards.Card>

    /** `Cards.__init__(name, cards)` with the opus' own fields. */
    constructor (name: string, number: string, language: Languages.Language, items: seq<ToolCards.Card>)
      ensures this.name == name && this.number == number && this.language == language && this.items == items
    {
      this.name := name;
      this.number := number;
      this.language := language;
      this.items := items;
    }

    /** Lines 84-85: sort in place by serial, then by opus; `int("???")` raises and leaves the list as it was. */
    method SortCards() returns (r: Result<bool>)
      modifies this
      ensures AllSerials(old(items)) ==> r.Ok? && items == SortBy(SortBy(old(items), SerialKey), OpusKey)
      ensures !AllSerials(old(items)) ==> r.Err? && items == old(items)
    {
      if !AllSerials(items) {
        return Err("ValueError: invalid literal for int() with base 10: '???'");
      }
      items := SortBy(items, SerialKey);
      items := SortBy(items, OpusKey);
      r := Ok(true);
    }

    /**
     * Lines 87-93: every card gets the faces of the database's card with
     * the same code. The cards are the opus' own, none of them held by the
     * database.
     */
    method CopyFaces(db: ToolCardDatabase.CardDB, langs: seq<Languages.Language>)
      requires Distinct(items)
      requires forall i :: 0 <= i < |items| ==> items[i] !in db.cards.Values
      modifies items
      ensures forall i :: 0 <= i < |items| ==>
                items[i].content == CopiedContent(old(items[i].content), DbContent(db, items[i].code), langs)
                && items[i].index == old(items[i].index)
    {
      var i := 0;
      while i < |items|
        invariant 0 <= i <= |items|
        invariant forall j :: 0 <= j < i ==>
                    items[j].content == CopiedContent(old(items[j].content), DbContent(db, items[j].code), langs)
        invariant forall j :: i <= j < |items| ==> items[j].content == old(items[j].content)
        invariant forall j :: 0 <= j < |items| ==> items[j].index == old(items[j].index)
      {
        var card := items[i];
        forall j | 0 <= j < |items| && j != i ensures items[j] != card {
          if j < i { DistinctIndices(items, j, i); } else { DistinctIndices(items, i, j); }
        }
        var dbContent := if Codes.Short(card.code) in db.cards then Some(db.cards[Codes.Short(card.code)].content) else None;
        CopyCardFaces(card, dbContent, langs);
        i := i + 1;
      }
    }

    /**
     * Line 95: the message `f"imported card {card}"` is built for every card
     * whatever the log level, so `str(card)` fails for a card without
     * English content (KeyError) or without any content (TypeError).
     */
    method LogImported() returns (r: Result<seq<string>>)
      ensures r.Ok? <==> AllEnglish(items)
      ensures r.Ok? ==> |r.value| == |items| && forall i :: 0 <= i < |items| ==>
                items[i].Str().Ok? && r.value[i] == "imported card " + items[i].Str().value
    {
      var logged := [];
      var i := 0;
      while i < |items|
        invariant 0 <= i <= |items|
        invariant forall j :: 0 <= j < i ==> Languages.Language("en") in items[j].content
        invariant |logged| == i && forall j :: 0 <= j < i ==>
                    items[j].Str().Ok? && logged[j] == "imported card " + items[j].Str().value
      {
        var s := items[i].Str();
        if s.Err? {
          return Err(s.error);
        }
        logged := logged + ["imported card " + s.value];
        i := i + 1;
      }
      r := Ok(logged);
    }

    /**
     * Lines 101-156: the promo and boss collections are one deck of all
     * their cards; any other opus gets one deck per element filter, its
     * cards sorted by element and then by name, and empty decks dropped.
     */
    method ElementalDecks(db: ToolCardDatabase.CardDB) returns (r: Result<seq<ToolTtsDecks.TTSDeck>>)
      ensures number == "PR" || number == "B" ==>
                r.Ok? && |r.value| == 1
                && ToolTtsDecks.Built(r.value[0], name, "All " + name + " Cards", false, CodesOf(items), db)
      ensures number != "PR" && number != "B" ==>
                var es := EntriesOf(items, language);
                && (r.Ok? <==> ElementalError(es).None?)
                && (r.Ok? ==> DecksFor(r.value, NonEmptySpecs(ElementalSpecs(name, es), db.cards), db))
    {
      if number == "PR" || number == "B" {
        var d := ToolTtsDecks.NewDeck(name, "All " + name + " Cards", false, CodesOf(items), db);
        return Ok([d]);
      }
      var es := EntriesOf(items, language);
      var error := ElementalError(es);
      if error.Some? {
        return Err(error.value);
      }
      var decks := BuildDecks(ElementalSpecs(name, es), db);
      r := Ok(decks);
    }
  }

  /** Kept cards of distinct objects are distinct. */
  lemma DistinctSub(a: seq<ToolCards.Card>, b: seq<ToolCards.Card>)
    requires multiset(a) <= multiset(b) && Distinct(b)
    ensures Distinct(a)
  {
    forall c | c in multiset(a) ensures multiset(a)[c] <= 1 {
      assert multiset(a)[c] <= multiset(b)[c];
    }
  }

  /** What the constructor leaves in a card made from one record. */
  predicate ImportedFrom(c: ToolCards.Card, data: CardRecords.Record, number: string, db: ToolCardDatabase.CardDB,
                         langs: seq<Languages.Language>, elementMarkup: string -> string, hintMarkup: string -> string)
    reads c, db, db.cards.Values
  {
    var p := ToolCards.FromSquareApiData(data, langs, elementMarkup, hintMarkup);
    && p.Ok? && c.code == p.value.code && c.elements == p.value.elements && c.index == 0
    && c.content == if Keep(p.value.code, number) then CopiedContent(p.value.content, DbContent(db, p.value.code), langs)
                    else p.value.content
  }

  /**
   * Lines 18-95: the opus an id names. `fetch` stands for the card
   * service's answer to a query, `langs` for the languages it serves. A new
   * card is made for every record (`created`); those of the opus are kept,
   * sorted by opus and serial, and given the database's faces.
   */
  method New(opusId: string, language: Languages.Language, toRoman: nat -> Result<string>,
             fetch: Params -> seq<CardRecords.Record>, langs: seq<Languages.Language>,
             elementMarkup: string -> string, hintMarkup: string -> string, db: ToolCardDatabase.CardDB)
      returns (r: Result<Opus>, ghost created: seq<ToolCards.Card>)
    ensures HeaderOf(opusId, language, toRoman).Err? ==> r.Err?
    ensures HeaderOf(opusId, language, toRoman).Ok? ==>
              var h := HeaderOf(opusId, language, toRoman).value;
              var records := fetch(h.params);
              && (r.Err? ==> (exists j :: 0 <= j < |records|
                                && ToolCards.FromSquareApiData(records[j], langs, elementMarkup, hintMarkup).Err?)
                             || !AllSerials(KeptCards(created, h.number))
                             || (exists j :: 0 <= j < |records| && UnprintableKept(records[j], h.number, langs, elementMarkup, hintMarkup)))
              && (r.Ok? ==>
                    && fresh(r.value) && r.value.name == h.name && r.value.number == h.number
                    && r.value.language == language
                    && |created| == |records|
                    && (forall j :: 0 <= j < |records| ==>
                          fresh(created[j]) && ImportedFrom(created[j], records[j], h.number, db, langs, elementMarkup, hintMarkup))
                    && AllSerials(KeptCards(created, h.number))
                    && (forall j :: 0 <= j < |records| ==> !UnprintableKept(records[j], h.number, langs, elementMarkup, hintMarkup))
                    && r.value.items == SortBy(SortBy(KeptCards(created, h.number), SerialKey), OpusKey))
  {
    created := [];
    var header := HeaderOf(opusId, language, toRoman);
    if header.Err? {
      return Err(header.error), created;
    }
    var h := header.value;
    var records := fetch(h.params);
    var made := CreateCards(records, langs, elementMarkup, hintMarkup);
    label made:
    if made.Err? {
      return Err(made.error), created;
    }
    var cards := made.value;
    created := cards;
    ghost var parts := seq(|records|, j requires 0 <= j < |records| =>
                             ToolCards.FromSquareApiData(records[j], langs, elementMarkup, hintMarkup));
    assert forall j :: 0 <= j < |records| ==> parts[j].Ok? && HoldsParts(cards[j], parts[j].value);
    label assemble:
    var opus := Assemble(h, language, cards, db, langs);
    if opus.Err? {
      if AllSerials(KeptCards(cards, h.number)) {
        ghost var j :| 0 <= j < |cards| && Keep(cards[j].code, h.number) && Languages.Language("en") !in old@assemble(cards[j].content);
        assert old@made(HoldsParts(cards[j], parts[j].value));
        assert UnprintableKept(records[j], h.number, langs, elementMarkup, hintMarkup);
      }
      return Err(opus.error), created;
    }
    forall j | 0 <= j < |records|
      ensures ImportedFrom(created[j], records[j], h.number, db, langs, elementMarkup, hintMarkup)
      ensures !UnprintableKept(records[j], h.number, langs, elementMarkup, hintMarkup)
    {
      assert old@made(HoldsParts(cards[j], parts[j].value));
    }
    r := Ok(opus.value);
  }

  /**
   * Lines 74-95 once the cards exist: keep the opus' cards, sort them,
   * copy the database's faces into them, and build each card's log message.
   */
  method Assemble(h: Header, language: Languages.Language, cards: seq<ToolCards.Card>,
                  db: ToolCardDatabase.CardDB, langs: seq<Languages.Language>)
      returns (r: Result<Opus>)
    requires Distinct(cards)
    requires forall i :: 0 <= i < |cards| ==> cards[i] !in db.cards.Values
    modifies cards
    ensures r.Ok? <==> && AllSerials(KeptCards(cards, h.number))
                       && forall j :: 0 <= j < |cards| && Keep(cards[j].code, h.number) ==>
                            Languages.Language("en") in old(cards[j].content)
    ensures r.Ok? ==> && fresh(r.value) && r.value.name == h.name && r.value.number == h.number
                      && r.value.language == language
                      && r.value.items == SortBy(SortBy(KeptCards(cards, h.number), SerialKey), OpusKey)
    ensures r.Ok? ==> forall j :: 0 <= j < |cards| ==>
              cards[j].index == old(cards[j].index)
              && cards[j].content == if Keep(cards[j].code, h.number)
                                     then CopiedContent(old(cards[j].content), DbContent(db, cards[j].code), langs)
                                     else old(cards[j].content)
  {
    ghost var contents := seq(|cards|, j requires 0 <= j < |cards| reads cards => cards[j].content);
    var sorted := SortAndCopy(h, language, cards, db, langs);
    if sorted.Err? {
      return sorted;
    }
    var opus := sorted.value;
    EnglishKept(cards, h.number, opus.items, contents, db, langs);
    var logged := opus.LogImported();
    if logged.Err? {
      return Err(logged.error);
    }
    r := sorted;
  }

  /**
   * Lines 74-93 once the cards exist: keep the opus' cards, sort them, and
   * copy the database's faces into them.
   */
  method SortAndCopy(h: Header, language: Languages.Language, cards: seq<ToolCards.Card>,
                     db: ToolCardDatabase.CardDB, langs: seq<Languages.Language>)
      returns (r: Result<Opus>)
    requires Distinct(cards)
    requires forall i :: 0 <= i < |cards| ==> cards[i] !in db.cards.Values
    modifies cards
    ensures r.Ok? <==> AllSerials(KeptCards(cards, h.number))
    ensures r.Ok? ==> && fresh(r.value) && r.value.name == h.name && r.value.number == h.number
                      && r.value.language == language
                      && r.value.items == SortBy(SortBy(KeptCards(cards, h.number), SerialKey), OpusKey)
    ensures r.Ok? ==> forall j :: 0 <= j < |cards| ==>
              cards[j].index == old(cards[j].index)
              && cards[j].content == if Keep(cards[j].code, h.number)
                                     then CopiedContent(old(cards[j].content), DbContent(db, cards[j].code), langs)
                                     else old(cards[j].content)
  {
    ghost var contents := seq(|cards|, j requires 0 <= j < |cards| reads cards => cards[j].content);
    var sorted := SortedOpus(h, language, cards);
    if sorted.Err? {
      return Err(sorted.error);
    }
    var opus := sorted.value;
    ghost var before := opus.items;
    forall i | 0 <= i < |before| ensures before[i] !in db.cards.Values {
      var j :| 0 <= j < |cards| && cards[j] == before[i];
    }
    assert forall j :: 0 <= j < |cards| ==> cards[j].content == contents[j];
    label copy:
    opus.CopyFaces(db, langs);
    forall j | 0 <= j < |cards|
      ensures cards[j].content == if Keep(cards[j].code, h.number)
                                  then CopiedContent(contents[j], DbContent(db, cards[j].code), langs)
                                  else contents[j]
    {
      var c := cards[j];
      if Keep(c.code, h.number) {
        KeptMembers(cards, h.number, j);
        KeptSorted(cards, h.number, before, c);
        var i :| 0 <= i < |before| && before[i] == c;
        assert old@copy(c.content) == contents[j];
      } else {
        assert c !in before;
      }
    }
    r := Ok(opus);
  }

  /**
   * The face copy adds and drops no language, so the sorted opus has
   * English content everywhere exactly when the kept cards had it before.
   */
  lemma EnglishKept(cards: seq<ToolCards.Card>, number: string, sorted: seq<ToolCards.Card>,
                    contents: seq<ToolCards.Content>, db: ToolCardDatabase.CardDB, langs: seq<Languages.Language>)
    requires sorted == SortBy(SortBy(KeptCards(cards, number), SerialKey), OpusKey)
    requires |contents| == |cards|
    requires forall j :: 0 <= j < |cards| ==>
               cards[j].content == if Keep(cards[j].code, number)
                                   then CopiedContent(contents[j], DbContent(db, cards[j].code), langs)
                                   else contents[j]
    ensures AllEnglish(sorted) <==>
              forall j :: 0 <= j < |cards| && Keep(cards[j].code, number) ==> Languages.Language("en") in contents[j]
  {
    var kept := KeptCards(cards, number);
    SortSortedPermutation(kept, SerialKey);
    SortSortedPermutation(SortBy(kept, SerialKey), OpusKey);
    forall j | 0 <= j < |cards| && Keep(cards[j].code, number)
      ensures cards[j].content.Keys == contents[j].Keys
    {
      CopiedContentFaces(contents[j], DbContent(db, cards[j].code), langs);
    }
    if AllEnglish(sorted) {
      forall j | 0 <= j < |cards| && Keep(cards[j].code, number)
        ensures Languages.Language("en") in contents[j]
      {
        KeptMembers(cards, number, j);
        KeptSorted(cards, number, sorted, cards[j]);
        var i :| 0 <= i < |sorted| && sorted[i] == cards[j];
      }
    }
    if forall j :: 0 <= j < |cards| && Keep(cards[j].code, number) ==> Languages.Language("en") in contents[j] {
      forall i | 0 <= i < |sorted| ensures Languages.Language("en") in sorted[i].content {
        assert sorted[i] in multiset(kept);
        var k :| 0 <= k < |kept| && kept[k] == sorted[i];
        assert sorted[i] in multiset(cards);
        var j :| 0 <= j < |cards| && cards[j] == sorted[i];
      }
    }
  }

  /** The kept cards, sorted in a new opus: lines 74-85. */
  method SortedOpus(h: Header, language: Languages.Language, cards: seq<ToolCards.Card>) returns (r: Result<Opus>)
    requires Distinct(cards)
    ensures r.Ok? <==> AllSerials(KeptCards(cards, h.number))
    ensures r.Ok? ==> && fresh(r.value) && r.value.name == h.name && r.value.number == h.number
                      && r.value.language == language
                      && r.value.items == SortBy(SortBy(KeptCards(cards, h.number), SerialKey), OpusKey)
                      && Distinct(r.value.items)
                      && forall i :: 0 <= i < |r.value.items| ==>
                           (exists j :: 0 <= j < |cards| && cards[j] == r.value.items[i])
                           && Keep(r.value.items[i].code, h.number)
  {
    var kept := KeptCards(cards, h.number);
    var opus := new Opus(h.name, h.number, language, kept);
    var sorted := opus.SortCards();
    if sorted.Err? {
      return Err(sorted.error);
    }
    SortSortedPermutation(kept, SerialKey);
    SortSortedPermutation(SortBy(kept, SerialKey), OpusKey);
    DistinctSub(kept, cards);
    DistinctSub(opus.items, kept);
    forall i | 0 <= i < |opus.items|
      ensures (exists j :: 0 <= j < |cards| && cards[j] == opus.items[i]) && Keep(opus.items[i].code, h.number)
    {
      assert opus.items[i] in multiset(kept);
      var k :| 0 <= k < |kept| && kept[k] == opus.items[i];
      assert opus.items[i] in multiset(cards);
      var j :| 0 <= j < |cards| && cards[j] == opus.items[i];
    }
    r := Ok(opus);
  }

  /** A kept card is in the sorted collection. */
  lemma KeptSorted(cards: seq<ToolCards.Card>, number: string, sorted: seq<ToolCards.Card>, c: ToolCards.Card)
    requires sorted == SortBy(SortBy(KeptCards(cards, number), SerialKey), OpusKey)
    requires c in KeptCards(cards, number)
    ensures c in sorted
  {
    var kept := KeptCards(cards, number);
    SortSortedPermutation(kept, SerialKey);
    SortSortedPermutation(SortBy(kept, SerialKey), OpusKey);
    assert c in multiset(sorted);
  }

  /** What `elemental_decks` reads of a card: its code, its elements and its name in the opus language. */
  datatype Entry = Entry(code: Codes.Code, elements: seq<string>, name: Option<string>)

  function EntryOf(c: ToolCards.Card, language: Languages.Language): Entry
    reads c
  {
    Entry(c.code, c.elements, if language in c.content then Some(c.content[language].name) else None)
  }

  function EntriesOf(cs: seq<ToolCards.Card>, language: Languages.Language): (r: seq<Entry>)
    reads cs
    ensures |r| == |cs| && forall i :: 0 <= i < |cs| ==> r[i] == EntryOf(cs[i], language)
  {
    if cs == [] then [] else [EntryOf(cs[0], language)] + EntriesOf(cs[1..], language)
  }

  /** The deck spec `TTSDeck(codes, name, description, face_down=False)` is built from. */
  datatype DeckSpec = DeckSpec(name: string, description: string, codes: seq<Codes.Code>)

  /** Lines 119-130: the decks in the order of the filter dictionary. */
  const DeckElements: seq<string> := ["Fire", "Ice", "Wind", "Earth", "Lightning", "Water", "Light-Darkness", "Multi"]

  /** The filter of the deck named `elem`. */
  predicate Matches(elem: string, elements: seq<string>) {
    if elem == "Light-Darkness" then elements == ["Light"] || elements == ["Darkness"]
    else if elem == "Multi" then "Crystal" in elements || |elements| > 1
    else elements == [elem]
  }

  /** Line 135: the element sort key, "Multi" for a card of several elements. */
  function ElementName(elements: seq<string>): string {
    if |elements| > 1 then "Multi" else if elements == [] then "" else elements[0]
  }

  function ElementKey(e: Entry): Key { Text(ElementName(e.elements)) }

  /** The name in the opus language, "" when there is none. */
  function NameOf(e: Entry): string { if e.name.Some? then e.name.value else "" }

  function NameKey(e: Entry): Key { Text(NameOf(e)) }

  /** Lines 133-135: by element, then alphabetically by name. */
  function SortedEntries(es: seq<Entry>): seq<Entry> {
    SortBy(SortBy(es, NameKey), ElementKey)
  }

  /**
   * The sort keys raise for a card without a name in the opus language
   * (KeyError, the first sort) or without any element (IndexError, the
   * second).
   */
  function ElementalError(es: seq<Entry>): Option<string> {
    if exists i :: 0 <= i < |es| && es[i].name.None? then Some("KeyError")
    else if exists i :: 0 <= i < |es| && es[i].elements == [] then Some("IndexError: list index out of range")
    else None
  }

  /** The entries a filter keeps, in order. */
  function FilterEntries(es: seq<Entry>, elem: string): (r: seq<Entry>)
    ensures forall i :: 0 <= i < |r| ==> Matches(elem, r[i].elements)
  {
    if es == [] then []
    else (if Matches(elem, es[0].elements) then [es[0]] else []) + FilterEntries(es[1..], elem)
  }

  function EntryCodes(es: seq<Entry>): (r: seq<Codes.Code>)
    ensures |r| == |es| && forall i :: 0 <= i < |es| ==> r[i] == es[i].code
  {
    seq(|es|, i requires 0 <= i < |es| => es[i].code)
  }

  /** Lines 138-149: one deck per filter, over the sorted cards. */
  function ElementalSpecs(name: string, es: seq<Entry>): (r: seq<DeckSpec>)
    ensures |r| == |DeckElements|
    ensures forall k :: 0 <= k < |r| ==>
              r[k].name == name + " " + DeckElements[k]
              && r[k].codes == EntryCodes(FilterEntries(SortedEntries(es), DeckElements[k]))
  {
    var sorted := SortedEntries(es);
    seq(|DeckElements|, k requires 0 <= k < |DeckElements| =>
      DeckSpec(name + " " + DeckElements[k],
               "All " + name + " Cards with " + DeckElements[k] + " element in alphabetical order",
               EntryCodes(FilterEntries(sorted, DeckElements[k]))))
  }

  /** Lines 152-156: a deck without any card the database knows is dropped. */
  function NonEmptySpecs<V>(specs: seq<DeckSpec>, cards: map<string, V>): seq<DeckSpec> {
    if specs == [] then []
    else
      var last := specs[|specs| - 1];
      NonEmptySpecs(specs[..|specs| - 1], cards)
      + (if ToolTtsDecks.Present(last.codes, cards) != [] then [last] else [])
  }

  /** The decks were built from the specs, one each, not face down. */
  predicate DecksFor(decks: seq<ToolTtsDecks.TTSDeck>, specs: seq<DeckSpec>, db: ToolCardDatabase.CardDB)
    reads db
  {
    |decks| == |specs|
    && forall i :: 0 <= i < |decks| ==> ToolTtsDecks.Built(decks[i], specs[i].name, specs[i].description, false, specs[i].codes, db)
  }

  /** Lines 138-156: a deck per spec, keeping the ones that hold a card. */
  method BuildDecks(specs: seq<DeckSpec>, db: ToolCardDatabase.CardDB) returns (decks: seq<ToolTtsDecks.TTSDeck>)
    ensures DecksFor(decks, NonEmptySpecs(specs, db.cards), db)
  {
    decks := [];
    var k := 0;
    while k < |specs|
      invariant 0 <= k <= |specs|
      invariant DecksFor(decks, NonEmptySpecs(specs[..k], db.cards), db)
    {
      var d := ToolTtsDecks.NewDeck(specs[k].name, specs[k].description, false, specs[k].codes, db);
      assert specs[..k + 1][..k] == specs[..k];
      if |d.items| > 0 {
        decks := decks + [d];
      }
      k := k + 1;
    }
    assert specs[..k] == specs;
  }

  /**
   * The filters partition the cards: one with English element names falls
   * into exactly one deck, "Multi" when it has several elements.
   */
  lemma ElementPartition(elements: seq<string>)
    requires elements != []
    requires forall i :: 0 <= i < |elements| ==> elements[i] in CardRecords.ElementsMap.Values
    ensures exists k :: 0 <= k < |DeckElements| && Matches(DeckElements[k], elements)
    ensures forall k, k2 :: 0 <= k < k2 < |DeckElements| ==>
              !(Matches(DeckElements[k], elements) && Matches(DeckElements[k2], elements))
    ensures |elements| > 1 ==> Matches("Multi", elements)
  {
    if |elements| == 1 {
      var e := elements[0];
      assert e in ["Fire", "Ice", "Wind", "Earth", "Lightning", "Water", "Light", "Darkness"];
      if e == "Light" || e == "Darkness" {
        assert Matches(DeckElements[6], elements);
      } else {
        assert Matches(DeckElements[if e == "Fire" then 0 else if e == "Ice" then 1 else if e == "Wind" then 2
                                    else if e == "Earth" then 3 else if e == "Lightning" then 4 else 5], elements);
      }
    } else {
      assert Matches(DeckElements[7], elements);
    }
  }

  lemma {:induction false} FilterCount(es: seq<Entry>, elem: string, x: Entry)
    ensures multiset(FilterEntries(es, elem))[x] == if Matches(elem, x.elements) then multiset(es)[x] else 0
  {
    if es != [] {
      FilterCount(es[1..], elem, x);
      assert es == [es[0]] + es[1..];
    }
  }

  /** Each deck holds exactly the opus' cards its filter accepts, as often as the opus holds them. */
  lemma DeckContents(es: seq<Entry>, elem: string)
    ensures multiset(FilterEntries(SortedEntries(es), elem)) == multiset(FilterEntries(es, elem))
  {
    SortSortedPermutation(es, NameKey);
    SortSortedPermutation(SortBy(es, NameKey), ElementKey);
    forall x ensures multiset(FilterEntries(SortedEntries(es), elem))[x] == multiset(FilterEntries(es, elem))[x] {
      FilterCount(SortedEntries(es), elem, x);
      FilterCount(es, elem, x);
    }
  }

  lemma FilterMember(es: seq<Entry>, elem: string, x: Entry)
    requires x in FilterEntries(es, elem)
    ensures x in es
  {
    FilterCount(es, elem, x);
    assert x in multiset(FilterEntries(es, elem));
  }

  /** Filtering a sequence keeps it ordered. */
  lemma {:induction false} FilterKeepsOrder(es: seq<Entry>, elem: string, key: Entry -> Key)
    requires SortedBy(es, key)
    ensures SortedBy(FilterEntries(es, elem), key)
  {
    if es != [] {
      var tail := es[1..];
      assert SortedBy(tail, key) by {
        forall i, j | 0 <= i < j < |tail| ensures KeyLe(key(tail[i]), key(tail[j])) {
          assert tail[i] == es[i + 1] && tail[j] == es[j + 1];
        }
      }
      FilterKeepsOrder(tail, elem, key);
      var rest := FilterEntries(tail, elem);
      if Matches(elem, es[0].elements) {
        var r := [es[0]] + rest;
        forall i, j | 0 <= i < j < |r| ensures KeyLe(key(r[i]), key(r[j])) {
          if i == 0 {
            FilterMember(tail, elem, r[j]);
            var m :| 0 <= m < |tail| && tail[m] == r[j];
            assert es[m + 1] == r[j];
          } else {
            assert r[i] == rest[i - 1] && r[j] == rest[j - 1];
          }
        }
      }
    }
  }

  /**
   * Every deck is ordered by element and, among cards of one element,
   * alphabetically; in the six single-element decks every card has that
   * element, so the whole deck is alphabetical.
   */
  lemma DeckOrder(es: seq<Entry>, k: nat)
    requires k < |DeckElements| && ElementalError(es).None?
    ensures var d := FilterEntries(SortedEntries(es), DeckElements[k]);
            && (forall i :: 0 <= i < |d| ==> d[i] in es && d[i].name.Some?)
            && (forall i, j :: 0 <= i < j < |d| ==>
                  StrLe(ElementName(d[i].elements), ElementName(d[j].elements))
                  && (ElementName(d[i].elements) == ElementName(d[j].elements) ==> StrLe(d[i].name.value, d[j].name.value)))
            && (k < 6 ==> forall i :: 0 <= i < |d| ==> d[i].elements == [DeckElements[k]])
  {
    DeckMembers(es, DeckElements[k]);
    DeckSorted(es, DeckElements[k]);
  }

  /** A deck holds only cards of the opus, each with a name. */
  lemma DeckMembers(es: seq<Entry>, elem: string)
    requires ElementalError(es).None?
    ensures var d := FilterEntries(SortedEntries(es), elem);
            forall i :: 0 <= i < |d| ==> d[i] in es && d[i].name.Some?
  {
    var sorted := SortedEntries(es);
    var d := FilterEntries(sorted, elem);
    SortTwice(es, NameKey, ElementKey);
    SortSortedPermutation(es, Lex(ElementKey, NameKey));
    forall i | 0 <= i < |d| ensures d[i] in es && d[i].name.Some? {
      FilterMember(sorted, elem, d[i]);
      assert d[i] in multiset(sorted);
      var m :| 0 <= m < |es| && es[m] == d[i];
    }
  }

  /** A deck is ordered by element name, then by card name. */
  lemma DeckSorted(es: seq<Entry>, elem: string)
    ensures var d := FilterEntries(SortedEntries(es), elem);
            forall i, j :: 0 <= i < j < |d| ==>
              StrLe(ElementName(d[i].elements), ElementName(d[j].elements))
              && (ElementName(d[i].elements) == ElementName(d[j].elements) ==> StrLe(NameOf(d[i]), NameOf(d[j])))
  {
    var lex := Lex(ElementKey, NameKey);
    var sorted := SortedEntries(es);
    var d := FilterEntries(sorted, elem);
    SortTwice(es, NameKey, ElementKey);
    SortSortedPermutation(es, lex);
    FilterKeepsOrder(sorted, elem, lex);
    forall i, j | 0 <= i < j < |d|
      ensures StrLe(ElementName(d[i].elements), ElementName(d[j].elements))
              && (ElementName(d[i].elements) == ElementName(d[j].elements) ==> StrLe(NameOf(d[i]), NameOf(d[j])))
    {
      assert KeyLe(lex(d[i]), lex(d[j]));
      assert lex(d[i]) == Pair(ElementKey(d[i]), NameKey(d[i]));
      assert lex(d[j]) == Pair(ElementKey(d[j]), NameKey(d[j]));
      if ElementKey(d[i]) == ElementKey(d[j]) {
        StrLeReflexive(ElementName(d[i].elements));
        assert KeyLe(NameKey(d[i]), NameKey(d[j]));
      } else {
        assert KeyLe(ElementKey(d[i]), ElementKey(d[j]));
      }
    }
  }
}
