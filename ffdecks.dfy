/**
 * Decks imported from the FFDecks service (fftcgtool/ffdecks.py). Deck ids
 * are taken from bare numbers or deck URLs; every deck the service returns
 * is sorted by card type and then by cost, two full-art promos are mapped
 * to their normal-art codes, each entry is repeated as often as the deck
 * holds it, and the result becomes a face-down deck.
 */
module FFDecks {
  import opened Wrappers
  import opened Strings
  import opened Sorting
  import Codes
  import ToolCards
  import ToolCardDatabase
  import ToolTtsDecks

  /** The length of the run of '/' at the start of `s`: what a greedy `/+` consumes. */
  function SlashRun(s: string): (n: nat)
    ensures n <= |s| && (forall i :: 0 <= i < n ==> s[i] == '/') && (n < |s| ==> s[n] != '/')
  {
    if s != [] && s[0] == '/' then 1 + SlashRun(s[1..]) else 0
  }

  /** After the `deck` keyword at `e`: `/+`, whose end is where the id starts. */
  function AfterDeck(s: string, e: nat): Option<nat>
    requires e <= |s|
  {
    var n := SlashRun(s[e..]);
    if n == 0 then None else Some(e + n)
  }

  /** The end of `(https?://)?` at the start of `s`. */
  function SchemeEnd(s: string): (a: nat)
    ensures a <= |s|
  {
    if StartsWith(s, "https://") then 8 else if StartsWith(s, "http://") then 7 else 0
  }

  /** The rest of the URL part from `c`, just after "ffdecks.com/": `(api/+)?deck/+`. */
  function PathEnd(s: string, c: nat): (r: Option<nat>)
    requires c <= |s|
    ensures r.Some? ==> r.value <= |s|
  {
    if StartsWith(s[c..], "api") then
      var n2 := SlashRun(s[c + 3..]);
      var d := c + 3 + n2;
      if n2 == 0 || !StartsWith(s[d..], "deck") then None else AfterDeck(s, d + 4)
    else if StartsWith(s[c..], "deck") then AfterDeck(s, c + 4)
    else None
  }

  /**
   * Where the id starts when `s` begins with the URL part
   * `(https?://)?ffdecks\.com(/+api)?/+deck/+`. Every part is determined by
   * the characters that follow it, so the pattern matches in at most one way.
   */
  function PrefixEnd(s: string): (r: Option<nat>)
    ensures r.Some? ==> r.value <= |s|
  {
    var a := SchemeEnd(s);
    if !StartsWith(s[a..], "ffdecks.com") then None
    else
      var b := a + 11;
      var n1 := SlashRun(s[b..]);
      if n1 == 0 then None else PathEnd(s, b + n1)
  }

  /** The pattern with its URL group left out: `[0-9]+` at the start. */
  function BareId(s: string): Option<string> {
    var n := DigitRun(s);
    if n == 0 then None else Some(s[..n])
  }

  /**
   * `__RE_FFDECKS_ID.match(s)` and its fourth group: the digit run after the
   * optional URL part; whatever follows it is ignored.
   */
  function SanitizedId(s: string): (r: Option<string>)
    ensures r.Some? ==> r.value != [] && AllDigits(r.value)
  {
    match PrefixEnd(s)
    case Some(p) =>
      var n := DigitRun(s[p..]);
      if n > 0 then Some(s[p..][..n]) else BareId(s)
    case None => BareId(s)
  }

  /** `sanitized_ids(deck_ids)`: one result per input, in input order. */
  function SanitizedIds(ids: seq<string>): (r: seq<Option<string>>)
    ensures |r| == |ids| && forall i :: 0 <= i < |ids| ==> r[i] == SanitizedId(ids[i])
  {
    seq(|ids|, i requires 0 <= i < |ids| => SanitizedId(ids[i]))
  }

  lemma DigitRunAll(d: string, t: string)
    requires d != [] && AllDigits(d) && (t != [] ==> !IsDigit(t[0]))
    ensures DigitRun(d + t) == |d| && (d + t)[..|d|] == d
  {
    Codes.DigitRunOfDigits(d, t);
  }

  /** A bare number is its own id; text after the digits is ignored. */
  lemma SanitizedBareNumber(d: string, t: string)
    requires d != [] && AllDigits(d) && (t != [] ==> !IsDigit(t[0]))
    ensures SanitizedId(d + t) == Some(d)
  {
    var s := d + t;
    assert s[0] == d[0];
    assert !StartsWith(s, "https://") && !StartsWith(s, "http://");
    assert !StartsWith(s[0..], "ffdecks.com") by { assert s[0..][0] == s[0]; }
    DigitRunAll(d, t);
  }

  lemma SlashRunOne(s: string)
    requires s != [] && s[0] == '/' && (|s| > 1 ==> s[1] != '/')
    ensures SlashRun(s) == 1
  {
  }

  /** After "/deck/": the id is the digit run. */
  lemma SanitizedAfterDeck(s: string, e: nat, d: string, t: string)
    requires e + 1 <= |s| && s[e..] == "/" + d + t
    requires d != [] && AllDigits(d) && (t != [] ==> !IsDigit(t[0]))
    ensures AfterDeck(s, e) == Some(e + 1) && DigitRun(s[e + 1..]) == |d| && s[e + 1..][..|d|] == d
  {
    assert s[e..][0] == '/' && s[e..][1] == d[0];
    SlashRunOne(s[e..]);
    assert s[e + 1..] == d + t;
    DigitRunAll(d, t);
  }

  lemma SchemeEndOf(scheme: string, rest: string)
    requires scheme == "" || scheme == "http://" || scheme == "https://"
    requires rest != [] && rest[0] == 'f'
    ensures SchemeEnd(scheme + rest) == |scheme|
  {
    var s := scheme + rest;
    if scheme == "https://" {
      assert s[..8] == scheme;
    } else if scheme == "http://" {
      assert s[..7] == scheme;
      assert s[4] == ':';
    } else {
      assert s[0] == 'f';
    }
  }

  /** `s` continues at `i` with `p` and then `r`. */
  lemma Peel(s: string, i: nat, p: string, r: string)
    requires i <= |s| && s[i..] == p + r
    ensures StartsWith(s[i..], p) && i + |p| <= |s| && s[i + |p|..] == r
  {
    assert s[i..][..|p|] == p;
    assert s[i + |p|..] == s[i..][|p|..];
  }

  lemma PathDeck(s: string, c: nat, d: string, t: string)
    requires c <= |s| && s[c..] == "deck" + ("/" + (d + t))
    requires d != [] && AllDigits(d) && (t != [] ==> !IsDigit(t[0]))
    ensures PathEnd(s, c) == Some(c + 5) && s[c + 5..] == d + t
  {
    Peel(s, c, "deck", "/" + (d + t));
    assert !StartsWith(s[c..], "api") by { assert s[c..][0] == 'd'; }
    assert s[c + 4..] == "/" + d + t;
    SanitizedAfterDeck(s, c + 4, d, t);
  }

  lemma PathApi(s: string, c: nat, d: string, t: string)
    requires c <= |s| && s[c..] == "api" + ("/" + ("deck" + ("/" + (d + t))))
    requires d != [] && AllDigits(d) && (t != [] ==> !IsDigit(t[0]))
    ensures PathEnd(s, c) == Some(c + 9) && s[c + 9..] == d + t
  {
    Peel(s, c, "api", "/" + ("deck" + ("/" + (d + t))));
    Peel(s, c + 3, "/", "deck" + ("/" + (d + t)));
    SlashRunOne(s[c + 3..]);
    PathDeck(s, c + 4, d, t);
  }

  /** After a scheme and "ffdecks.com/", the URL part continues with the path. */
  lemma HostPrefix(scheme: string, path: string)
    requires scheme == "" || scheme == "http://" || scheme == "https://"
    requires path != [] && path[0] != '/'
    ensures var s := scheme + ("ffdecks.com" + ("/" + path));
            && |scheme| + 12 <= |s| && s[|scheme| + 12..] == path
            && PrefixEnd(s) == PathEnd(s, |scheme| + 12)
  {
    var rest := "ffdecks.com" + ("/" + path);
    var s := scheme + rest;
    assert rest[0] == 'f';
    SchemeEndOf(scheme, rest);
    Peel(s, 0, scheme, rest);
    var a := |scheme|;
    Peel(s, a, "ffdecks.com", "/" + path);
    var b := a + 11;
    Peel(s, b, "/", path);
    assert s[b..][1] == path[0];
    SlashRunOne(s[b..]);
  }

  /**
   * A deck URL, with or without a scheme, yields the digits after
   * "/deck/"; text after them is ignored.
   */
  lemma SanitizedDeckUrl(scheme: string, d: string, t: string)
    requires scheme == "" || scheme == "http://" || scheme == "https://"
    requires d != [] && AllDigits(d) && (t != [] ==> !IsDigit(t[0]))
    ensures SanitizedId(scheme + ("ffdecks.com" + ("/" + ("deck" + ("/" + (d + t)))))) == Some(d)
  {
    var path := "deck" + ("/" + (d + t));
    var s := scheme + ("ffdecks.com" + ("/" + path));
    HostPrefix(scheme, path);
    var c := |scheme| + 12;
    PathDeck(s, c, d, t);
    DigitRunAll(d, t);
  }

  /** The same for the service's "/api/deck/" URLs. */
  lemma SanitizedApiDeckUrl(scheme: string, d: string, t: string)
    requires scheme == "" || scheme == "http://" || scheme == "https://"
    requires d != [] && AllDigits(d) && (t != [] ==> !IsDigit(t[0]))
    ensures SanitizedId(scheme + ("ffdecks.com" + ("/" + ("api" + ("/" + ("deck" + ("/" + (d + t)))))))) == Some(d)
  {
    var path := "api" + ("/" + ("deck" + ("/" + (d + t))));
    var s := scheme + ("ffdecks.com" + ("/" + path));
    HostPrefix(scheme, path);
    var c := |scheme| + 12;
    PathApi(s, c, d, t);
    DigitRunAll(d, t);
  }

  /** Text that starts with neither a digit nor a URL letter has no id. */
  lemma SanitizedNoId(s: string)
    requires s == [] || (!IsDigit(s[0]) && s[0] != 'h' && s[0] != 'f')
    ensures SanitizedId(s) == None
  {
    if s != [] {
      assert !StartsWith(s, "https://") && !StartsWith(s, "http://");
      assert !StartsWith(s[0..], "ffdecks.com") by { assert s[0..][0] == s[0]; }
    }
  }

  /** One card entry of a deck, as pre-extracted in lines 70-75. */
  datatype DeckCard = DeckCard(code: string, cardType: string, cost: int, count: int)

  /** The service's answer for one deck: its name and its card entries. */
  datatype ApiDeck = ApiDeck(name: string, cards: seq<DeckCard>)

  /** `by_type`: the priority of a card type. */
  function ByType(cardType: string): (p: nat)
    ensures 1 <= p <= 5
    ensures p == 4 <==> cardType !in {"Forward", "Summon", "Monster", "Backup"}
  {
    if cardType == "Forward" then 1
    else if cardType == "Summon" then 2
    else if cardType == "Monster" then 3
    else if cardType == "Backup" then 5
    else 4
  }

  function TypeKey(c: DeckCard): Key { Num(ByType(c.cardType)) }

  function CostKey(c: DeckCard): Key { Num(c.cost) }

  /** `sort(key=by_cost)` followed by `sort(key=by_type)`. */
  function SortedCards(cs: seq<DeckCard>): seq<DeckCard> {
    SortBy(SortBy(cs, CostKey), TypeKey)
  }

  /**
   * The two stable sorts leave the entries ordered by type priority, the
   * cheaper first within one priority, as a permutation of the input in
   * which entries with the same priority and cost keep their order.
   */
  lemma SortedCardsOrder(cs: seq<DeckCard>)
    ensures var r := SortedCards(cs);
            && multiset(r) == multiset(cs)
            && (forall i, j :: 0 <= i < j < |r| ==>
                  ByType(r[i].cardType) < ByType(r[j].cardType)
                  || (ByType(r[i].cardType) == ByType(r[j].cardType) && r[i].cost <= r[j].cost))
            && (forall k :: KeyFilter(r, Lex(TypeKey, CostKey), k) == KeyFilter(cs, Lex(TypeKey, CostKey), k))
  {
    var lex := Lex(TypeKey, CostKey);
    SortTwice(cs, CostKey, TypeKey);
    var r := SortedCards(cs);
    SortSortedPermutation(cs, lex);
    SortedByTypeThenCost(r);
    forall k ensures KeyFilter(r, lex, k) == KeyFilter(cs, lex, k) {
      SortStable(cs, lex, k);
    }
  }

  lemma SortedByTypeThenCost(r: seq<DeckCard>)
    requires SortedBy(r, Lex(TypeKey, CostKey))
    ensures forall i, j :: 0 <= i < j < |r| ==>
              ByType(r[i].cardType) < ByType(r[j].cardType)
              || (ByType(r[i].cardType) == ByType(r[j].cardType) && r[i].cost <= r[j].cost)
  {
    var lex := Lex(TypeKey, CostKey);
    forall i, j | 0 <= i < j < |r|
      ensures ByType(r[i].cardType) < ByType(r[j].cardType)
              || (ByType(r[i].cardType) == ByType(r[j].cardType) && r[i].cost <= r[j].cost)
    {
      assert KeyLe(lex(r[i]), lex(r[j]));
      assert lex(r[i]) == Pair(TypeKey(r[i]), CostKey(r[i]));
      assert lex(r[j]) == Pair(TypeKey(r[j]), CostKey(r[j]));
      if TypeKey(r[i]) == TypeKey(r[j]) {
        assert KeyLe(CostKey(r[i]), CostKey(r[j]));
      } else {
        assert KeyLe(TypeKey(r[i]), TypeKey(r[j]));
      }
    }
  }

  /** `replace_full_arts`: a full-art promo code maps to the code of its normal art. */
  function NormalArt(code: string): string {
    if code == "PR-051" then "11-083" else if code == "PR-055" then "11-062" else code
  }

  /** Exactly the two full-art promos are replaced; every other code stays. */
  lemma NormalArtReplacesTwo(code: string)
    ensures NormalArt("PR-051") == "11-083" && NormalArt("PR-055") == "11-062"
    ensures code != "PR-051" && code != "PR-055" ==> NormalArt(code) == code
    ensures NormalArt(NormalArt(code)) == NormalArt(code)
  {
  }

  function NormalArts(cs: seq<DeckCard>): seq<DeckCard> {
    seq(|cs|, i requires 0 <= i < |cs| => cs[i].(code := NormalArt(cs[i].code)))
  }

  /** Lines 90-94: rewrite each entry's code in place. */
  method ReplaceFullArts(cs: seq<DeckCard>) returns (r: seq<DeckCard>)
    ensures r == NormalArts(cs)
  {
    r := cs;
    var i := 0;
    while i < |r|
      invariant 0 <= i <= |r| == |cs|
      invariant forall j :: 0 <= j < i ==> r[j] == cs[j].(code := NormalArt(cs[j].code))
      invariant forall j :: i <= j < |r| ==> r[j] == cs[j]
    {
      r := r[i := r[i].(code := NormalArt(r[i].code))];
      i := i + 1;
    }
  }

  /** Replacing twice is replacing once: a normal-art code is not a full-art one. */
  lemma NormalArtsIdempotent(cs: seq<DeckCard>)
    ensures NormalArts(NormalArts(cs)) == NormalArts(cs)
    ensures |NormalArts(cs)| == |cs|
    ensures forall i :: 0 <= i < |cs| ==> NormalArts(cs)[i].count == cs[i].count
  {
  }

  /** `n` copies of `c`. */
  function Repeat(c: Codes.Code, n: nat): (r: seq<Codes.Code>)
    ensures |r| == n && forall i :: 0 <= i < n ==> r[i] == c
  {
    seq(n, _ => c)
  }

  /** How many codes the entries expand to: `range(count)` is empty for a count below one. */
  function TotalCount(cs: seq<DeckCard>): nat {
    if cs == [] then 0 else (if cs[0].count > 0 then cs[0].count else 0) + TotalCount(cs[1..])
  }

  /** One entry's copies, `range(count)` of them, each parsed with `Code`. */
  function ExpandEntry(c: DeckCard): Result<seq<Codes.Code>> {
    if c.count <= 0 then Ok([])
    else
      match Codes.Parse(c.code)
      case Err(e) => Err(e)
      case Ok(code) => Ok(Repeat(code, c.count))
  }

  /**
   * Lines 96-103: every entry repeated `count` times, in entry order. An
   * entry with no copies is never parsed, so only entries that are used can
   * make the list fail; the first failing one raises.
   */
  function Expand(cs: seq<DeckCard>): Result<seq<Codes.Code>> {
    if cs == [] then Ok([])
    else
      match ExpandEntry(cs[0])
      case Err(e) => Err(e)
      case Ok(first) =>
        match Expand(cs[1..])
        case Err(e) => Err(e)
        case Ok(rest) => Ok(first + rest)
  }

  /**
   * The list is built exactly when every entry that is used parses, and
   * then it holds the sum of the counts.
   */
  lemma {:induction false} ExpandCount(cs: seq<DeckCard>)
    ensures Expand(cs).Ok? <==> forall i :: 0 <= i < |cs| && cs[i].count > 0 ==> Codes.Parse(cs[i].code).Ok?
    ensures Expand(cs).Ok? ==> |Expand(cs).value| == TotalCount(cs)
  {
    if cs != [] {
      ExpandCount(cs[1..]);
      assert forall i :: 1 <= i < |cs| ==> cs[i] == cs[1..][i - 1];
    }
  }

  /** Expanding two runs of entries one after the other is expanding their concatenation. */
  lemma {:induction false} ExpandAppend(a: seq<DeckCard>, b: seq<DeckCard>)
    requires Expand(a).Ok? && Expand(b).Ok?
    ensures Expand(a + b) == Ok(Expand(a).value + Expand(b).value)
  {
    var y := Expand(b).value;
    if a == [] {
      assert a + b == b;
      assert [] + y == y;
    } else {
      ExpandAppend(a[1..], b);
      ExpandUnfold(a);
      ExpandAppendCons(a, b, ExpandEntry(a[0]).value, Expand(a[1..]).value, y);
    }
  }

  /** The step of the induction: the first entry's codes go in front. */
  lemma ExpandAppendCons(a: seq<DeckCard>, b: seq<DeckCard>, r: seq<Codes.Code>, x: seq<Codes.Code>, y: seq<Codes.Code>)
    requires a != [] && ExpandEntry(a[0]) == Ok(r) && Expand(a[1..] + b) == Ok(x + y)
    ensures Expand(a + b) == Ok((r + x) + y)
  {
    var ab := a + b;
    assert ab[0] == a[0] && ab[1..] == a[1..] + b;
    ExpandUnfold(ab);
    CodesAssoc(r, x, y);
  }

  lemma CodesAssoc(r: seq<Codes.Code>, x: seq<Codes.Code>, y: seq<Codes.Code>)
    ensures r + (x + y) == (r + x) + y
  {
  }

  /** A non-empty run expands to its first entry's codes, then the rest's. */
  lemma ExpandUnfold(s: seq<DeckCard>)
    requires s != []
    ensures Expand(s).Ok? <==> ExpandEntry(s[0]).Ok? && Expand(s[1..]).Ok?
    ensures Expand(s).Ok? ==> Expand(s).value == ExpandEntry(s[0]).value + Expand(s[1..]).value
  {
  }

  /** An entry expands to its parsed code, `count` times. */
  lemma ExpandOne(c: DeckCard)
    requires c.count > 0 && Codes.Parse(c.code).Ok?
    ensures Expand([c]) == Ok(Repeat(Codes.Parse(c.code).value, c.count))
  {
    var r := Repeat(Codes.Parse(c.code).value, c.count);
    assert [c][1..] == [];
    assert r + [] == r;
  }

  /** The codes of one deck: sorted, normal-art, expanded. */
  function DeckCodes(api: ApiDeck): Result<seq<Codes.Code>> {
    Expand(NormalArts(SortedCards(api.cards)))
  }

  /** What one sanitized id leads to: a logged skip, or a deck to build. */
  datatype Step = Skip(message: string) | Build(name: string, description: string, codes: seq<Codes.Code>)

  const MALFORMED := "Malformed Deck ID for FFDecks API!"

  function InvalidMessage(id: string): string {
    "Invalid Deck ID '" + id + "' for FFDecks API!"
  }

  /**
   * One turn of the loop in lines 51-106. `fetch(id)` stands for the
   * service's answer, `None` when the response is not ok. A code that
   * `Code` cannot parse raises, which ends the whole import.
   */
  function StepOf(id: Option<string>, fetch: string -> Option<ApiDeck>): Result<Step> {
    match id
    case None => Ok(Skip(MALFORMED))
    case Some(deckId) =>
      match fetch(deckId)
      case None => Ok(Skip(InvalidMessage(deckId)))
      case Some(api) =>
        match DeckCodes(api)
        case Err(e) => Err(e)
        case Ok(codes) => Ok(Build(api.name, deckId, codes))
  }

  /** The steps taken before the import ends, and the error that ended it early, if any. */
  datatype Plan = Plan(steps: seq<Step>, failure: Option<string>)

  function PlanOf(ids: seq<Option<string>>, fetch: string -> Option<ApiDeck>): Plan {
    if ids == [] then Plan([], None)
    else
      match StepOf(ids[0], fetch)
      case Err(e) => Plan([], Some(e))
      case Ok(st) =>
        var rest := PlanOf(ids[1..], fetch);
        Plan([st] + rest.steps, rest.failure)
  }

  /** The messages of the skipped ids, in order. */
  function Messages(steps: seq<Step>): seq<string> {
    if steps == [] then []
    else Messages(steps[..|steps| - 1]) + (if steps[|steps| - 1].Skip? then [steps[|steps| - 1].message] else [])
  }

  /** The decks to build, in order. */
  function Builds(steps: seq<Step>): (r: seq<Step>)
    ensures forall i :: 0 <= i < |r| ==> r[i].Build?
  {
    if steps == [] then []
    else Builds(steps[..|steps| - 1]) + (if steps[|steps| - 1].Build? then [steps[|steps| - 1]] else [])
  }

  /** Every id is either skipped with one message or builds one deck. */
  lemma {:induction false} StepsAccounted(steps: seq<Step>)
    ensures |Messages(steps)| + |Builds(steps)| == |steps|
  {
    if steps != [] {
      StepsAccounted(steps[..|steps| - 1]);
    }
  }

  /**
   * Each sanitized id is one step, so an import that does not fail has one
   * step per input id, and an id without a match is skipped with the
   * malformed-id message while the ids after it are still processed.
   */
  lemma {:induction false} PlanSteps(ids: seq<Option<string>>, fetch: string -> Option<ApiDeck>)
    ensures PlanOf(ids, fetch).failure.None? ==> |PlanOf(ids, fetch).steps| == |ids|
    ensures PlanOf(ids, fetch).failure.None? ==>
              forall i :: 0 <= i < |ids| && ids[i].None? ==> PlanOf(ids, fetch).steps[i] == Skip(MALFORMED)
  {
    if ids != [] {
      PlanSteps(ids[1..], fetch);
    }
  }

  /** A built deck is the face-down deck of its step's codes. */
  predicate DeckMatches(d: ToolTtsDecks.TTSDeck, b: Step, db: ToolCardDatabase.CardDB)
    reads db
  {
    b.Build? && ToolTtsDecks.Built(d, b.name, b.description, true, b.codes, db)
  }

  predicate DecksMatch(decks: seq<ToolTtsDecks.TTSDeck>, builds: seq<Step>, db: ToolCardDatabase.CardDB)
    reads db
  {
    |decks| == |builds| && forall i :: 0 <= i < |decks| ==> DeckMatches(decks[i], builds[i], db)
  }

  /** The codes of one fetched deck, computed as lines 70-103 do. */
  method ImportCodes(api: ApiDeck) returns (r: Result<seq<Codes.Code>>)
    ensures r == DeckCodes(api)
  {
    var deckCards := api.cards;
    deckCards := SortBy(deckCards, CostKey);
    deckCards := SortBy(deckCards, TypeKey);
    deckCards := ReplaceFullArts(deckCards);
    r := Expand(deckCards);
  }

  /**
   * One turn of the loop in lines 51-106: the step the id leads to, the
   * message it logs when skipped, and the deck it builds otherwise.
   */
  method ImportOne(id: Option<string>, fetch: string -> Option<ApiDeck>, db: ToolCardDatabase.CardDB)
      returns (r: Result<Step>, deck: Option<ToolTtsDecks.TTSDeck>)
    ensures r == StepOf(id, fetch)
    ensures r.Ok? && r.value.Build? ==> deck.Some? && DeckMatches(deck.value, r.value, db)
    ensures r.Ok? && r.value.Skip? ==> deck.None?
  {
    deck := None;
    match id
    case None =>
      r := Ok(Skip(MALFORMED));
    case Some(deckId) =>
      match fetch(deckId)
      case None =>
        r := Ok(Skip(InvalidMessage(deckId)));
      case Some(api) =>
        var codes := ImportCodes(api);
        if codes.Err? {
          r := Err(codes.error);
        } else {
          var step := Build(api.name, deckId, codes.value);
          var d := ToolTtsDecks.NewDeck(api.name, deckId, true, codes.value, db);
          r, deck := Ok(step), Some(d);
        }
  }

  /** Taking one more step keeps the plan split into the steps taken and the plan of the rest. */
  lemma PlanAdvance(ids: seq<Option<string>>, fetch: string -> Option<ApiDeck>, i: nat, steps: seq<Step>, st: Step)
    requires i < |ids|
    requires PlanOf(ids, fetch) == Plan(steps + PlanOf(ids[i..], fetch).steps, PlanOf(ids[i..], fetch).failure)
    requires StepOf(ids[i], fetch) == Ok(st)
    ensures PlanOf(ids, fetch) == Plan((steps + [st]) + PlanOf(ids[i + 1..], fetch).steps, PlanOf(ids[i + 1..], fetch).failure)
    ensures Messages(steps + [st]) == Messages(steps) + (if st.Skip? then [st.message] else [])
    ensures Builds(steps + [st]) == Builds(steps) + (if st.Build? then [st] else [])
  {
    var tail := ids[i..];
    assert tail[1..] == ids[i + 1..] && tail[0] == ids[i];
    var rest := PlanOf(ids[i + 1..], fetch);
    assert PlanOf(tail, fetch) == Plan([st] + rest.steps, rest.failure);
    StepsAssoc(steps, st, rest.steps);
    StepsSnoc(steps, st);
  }

  lemma StepsAssoc(steps: seq<Step>, st: Step, rest: seq<Step>)
    ensures steps + ([st] + rest) == (steps + [st]) + rest
  {
  }

  /** A step taken last adds its message, or its deck, at the end. */
  lemma StepsSnoc(steps: seq<Step>, st: Step)
    ensures Messages(steps + [st]) == Messages(steps) + (if st.Skip? then [st.message] else [])
    ensures Builds(steps + [st]) == Builds(steps) + (if st.Build? then [st] else [])
  {
    assert (steps + [st])[..|steps|] == steps;
  }

  /** A failing step ends the plan with the steps taken so far. */
  lemma PlanFail(ids: seq<Option<string>>, fetch: string -> Option<ApiDeck>, i: nat, steps: seq<Step>, e: string)
    requires i < |ids|
    requires PlanOf(ids, fetch) == Plan(steps + PlanOf(ids[i..], fetch).steps, PlanOf(ids[i..], fetch).failure)
    requires StepOf(ids[i], fetch) == Err(e)
    ensures PlanOf(ids, fetch) == Plan(steps, Some(e))
  {
    assert ids[i..][0] == ids[i];
    assert steps + [] == steps;
  }

  lemma DecksMatchMore(decks: seq<ToolTtsDecks.TTSDeck>, builds: seq<Step>, db: ToolCardDatabase.CardDB,
                       d: ToolTtsDecks.TTSDeck, b: Step)
    requires DecksMatch(decks, builds, db) && DeckMatches(d, b, db)
    ensures DecksMatch(decks + [d], builds + [b], db)
  {
  }

  /**
   * `FFDecks(deck_ids)`: the decks of the ids the service knows, in input
   * order, face down; `log` holds the errors logged for the others.
   * `failure` is the error raised by an unparsable code, which ends the
   * import. In the source the exception leaves the constructor, so the
   * caller gets no object; the decks built until then exist only here.
   */
  method Import(deckIds: seq<string>, fetch: string -> Option<ApiDeck>, db: ToolCardDatabase.CardDB)
      returns (decks: seq<ToolTtsDecks.TTSDeck>, log: seq<string>, failure: Option<string>)
    ensures var p := PlanOf(SanitizedIds(deckIds), fetch);
            && failure == p.failure
            && log == Messages(p.steps)
            && DecksMatch(decks, Builds(p.steps), db)
  {
    var ids := SanitizedIds(deckIds);
    ghost var steps: seq<Step> := [];
    decks, log, failure := [], [], None;
    var i := 0;
    while i < |ids|
      invariant 0 <= i <= |ids|
      invariant PlanOf(ids, fetch) == Plan(steps + PlanOf(ids[i..], fetch).steps, PlanOf(ids[i..], fetch).failure)
      invariant log == Messages(steps)
      invariant DecksMatch(decks, Builds(steps), db)
      decreases |ids| - i
    {
      var r, deck := ImportOne(ids[i], fetch, db);
      if r.Err? {
        PlanFail(ids, fetch, i, steps, r.error);
        failure := Some(r.error);
        return;
      }
      var st := r.value;
      PlanAdvance(ids, fetch, i, steps, st);
      if st.Skip? {
        log := log + [st.message];
      } else {
        DecksMatchMore(decks, Builds(steps), db, deck.value, st);
        decks := decks + [deck.value];
      }
      steps := steps + [st];
      i := i + 1;
    }
    assert ids[i..] == [];
    assert steps + [] == steps;
  }
}
