/**
 * Card records of the second generation (fftcg/card.py): a card built from
 * one record of the card service, its element names translated from the
 * service's Japanese symbols, its rules text passed through a chain of
 * substitutions.
 */
module CardRecords {
  import opened Wrappers
  import opened Strings
  import Codes
  import Utils

  datatype Card = Card(code: Codes.Code, elements: seq<string>, name: string, text: string)

  /** A record of the card service: field name to field text. */
  type Record = map<string, string>

  const ElementsMap: map<string, string> :=
    map["火" := "Fire", "氷" := "Ice", "風" := "Wind", "土" := "Earth",
        "雷" := "Lightning", "水" := "Water", "光" := "Light", "闇" := "Darkness"]

  /** Translate every part of the element field, failing on the first unknown symbol. */
  function MapElements(parts: seq<string>): (r: Result<seq<string>>)
    ensures r.Ok? <==> forall i :: 0 <= i < |parts| ==> parts[i] in ElementsMap
    ensures r.Ok? ==> (|r.value| == |parts|
                       && forall i :: 0 <= i < |parts| ==> r.value[i] == ElementsMap[parts[i]])
  {
    if parts == [] then Ok([])
    else if parts[0] !in ElementsMap then Err("KeyError: " + parts[0])
    else match MapElements(parts[1..])
      case Ok(rest) => Ok([ElementsMap[parts[0]]] + rest)
      case Err(e) => Err(e)
  }

  function Field(data: Record, key: string): Result<string> {
    if key in data then Ok(data[key]) else Err("KeyError: " + key)
  }

  /** The length of the run of `\s` characters at the start of `s`. */
  function SpaceRun(s: string): (n: nat)
    ensures n <= |s| && (forall i :: 0 <= i < n ==> IsSpace(s[i])) && (n < |s| ==> !IsSpace(s[n]))
  {
    if s != [] && IsSpace(s[0]) then 1 + SpaceRun(s[1..]) else 0
  }

  /** `s` starts with the break marker, in any letter case. */
  predicate BreakAt(s: string) {
    |s| >= 6 && s[0] == '[' && s[1] == '[' && LowerChar(s[2]) == 'b' && LowerChar(s[3]) == 'r'
    && s[4] == ']' && s[5] == ']'
  }

  /**
   * `re.sub(r"\s*\[\[br\]\]\s*", "\n\n", s, flags=re.IGNORECASE)`: a marker
   * and all whitespace around it become one blank line.
   */
  function BreakLines(s: string): string
    decreases |s|
  {
    var w := SpaceRun(s);
    if BreakAt(s[w..]) then
      var after := s[w + 6..];
      "\n\n" + BreakLines(after[SpaceRun(after)..])
    else if s == [] then []
    else [s[0]] + BreakLines(s[1..])
  }

  /** The circled S that replaces the "《S》" marker. */
  function CircledS(): string {
    match Utils.EncircleSymbol("S", false)
    case Ok(c) => [c]
    case Err(_) => ""
  }

  /** The marker becomes CIRCLED LATIN CAPITAL LETTER S, U+24C8. */
  lemma CircledSValue()
    ensures CircledS() == [0x24C8 as char]
  {
    Utils.EncircleLetter('S', false);
  }

  /**
   * The rules-text chain, lines 52-66. The regular-expression steps for
   * cost symbols and for formatting hints are supplied as `costMarkup` and
   * `hintMarkup`.
   */
  function TextOf(raw: string, costMarkup: string -> string, hintMarkup: string -> string): string {
    var t1 := ReplaceAll(raw, "《S》", CircledS());
    var t2 := costMarkup(t1);
    var t3 := ReplaceAll(t2, "《ダル》", "[⤵]");
    var t4 := hintMarkup(t3);
    BreakLines(t4)
  }

  /** `Card.from_data(data, language)` */
  function FromData(data: Record, language: string, costMarkup: string -> string, hintMarkup: string -> string): Result<Card> {
    if data == map[] then
      match Codes.Parse("")
      case Ok(c) => Ok(Card(c, [], "", ""))
      case Err(e) => Err(e)
    else
      match Field(data, "Text_" + language)
      case Err(e) => Err(e)
      case Ok(raw) =>
        var text := TextOf(raw, costMarkup, hintMarkup);
        match Field(data, "Code")
        case Err(e) => Err(e)
        case Ok(codeText) =>
          match Codes.Parse(codeText)
          case Err(e) => Err(e)
          case Ok(code) =>
            match Field(data, "Element")
            case Err(e) => Err(e)
            case Ok(elementText) =>
              match MapElements(Split(elementText, '/'))
              case Err(e) => Err(e)
              case Ok(elements) =>
                match Field(data, "Name_" + language)
                case Err(e) => Err(e)
                case Ok(name) => Ok(Card(code, elements, name, text))
  }

  /** `str(card)`: "'name' (E1/E2, code)" */
  function Str(c: Card): string {
    "'" + c.name + "' (" + Join(c.elements, "/") + ", " + Codes.Str(c.code) + ")"
  }

  /** The empty record takes the `Code("")` path, which fails. */
  lemma FromDataEmptyFails(language: string, costMarkup: string -> string, hintMarkup: string -> string)
    ensures FromData(map[], language, costMarkup, hintMarkup).Err?
  {
  }

  /**
   * A card built from a record carries that record's code, its name and text
   * in the requested language, and the translation of every "/"-separated
   * element symbol; so it always has at least one element.
   */
  lemma FromDataFields(data: Record, language: string, costMarkup: string -> string, hintMarkup: string -> string)
    requires FromData(data, language, costMarkup, hintMarkup).Ok?
    requires data != map[]
    ensures var c := FromData(data, language, costMarkup, hintMarkup).value;
            && Codes.Parse(data["Code"]) == Ok(c.code)
            && c.name == data["Name_" + language]
            && c.text == TextOf(data["Text_" + language], costMarkup, hintMarkup)
            && var parts := Split(data["Element"], '/');
               |c.elements| == |parts| >= 1
               && forall i :: 0 <= i < |parts| ==> c.elements[i] == ElementsMap[parts[i]]
  {
  }

  /** An element symbol outside the table makes the whole record fail. */
  lemma UnknownElementFails(data: Record, language: string, costMarkup: string -> string, hintMarkup: string -> string, i: nat)
    requires data != map[] && "Text_" + language in data && "Code" in data && Codes.Parse(data["Code"]).Ok?
    requires "Element" in data && i < |Split(data["Element"], '/')|
    requires Split(data["Element"], '/')[i] !in ElementsMap
    ensures FromData(data, language, costMarkup, hintMarkup).Err?
  {
  }

  /** The English element names contain no "/", so the rendered element list splits back into the elements. */
  lemma ElementsRoundTrip(c: Card)
    requires c.elements != []
    requires forall i :: 0 <= i < |c.elements| ==> c.elements[i] in ElementsMap.Values
    ensures Split(Join(c.elements, "/"), '/') == c.elements
  {
    forall i | 0 <= i < |c.elements| ensures '/' !in c.elements[i] {
      var e := c.elements[i];
      assert e in ["Fire", "Ice", "Wind", "Earth", "Lightning", "Water", "Light", "Darkness"];
    }
    JoinThenSplit(c.elements, '/');
  }

  lemma NoStartNoOccurrence(s: string, pat: string)
    requires |pat| > 0 && pat[0] !in s
    ensures forall i: nat :: !OccursAt(s, pat, i)
  {
    forall i: nat ensures !OccursAt(s, pat, i) {
      if i + |pat| <= |s| {
        assert s[i..i + |pat|][0] == s[i];
      }
    }
  }

  /** Text without '[' is left alone by the break step. */
  lemma {:induction false} BreakLinesPlain(s: string)
    requires '[' !in s
    ensures BreakLines(s) == s
    decreases |s|
  {
    if s != [] {
      var w := SpaceRun(s);
      assert !BreakAt(s[w..]) by {
        if |s[w..]| >= 6 {
          assert s[w..][0] == s[w];
        }
      }
      BreakLinesPlain(s[1..]);
    }
  }

  lemma BreakLinesKeep(s: string)
    requires s != [] && !BreakAt(s[SpaceRun(s)..])
    ensures BreakLines(s) == [s[0]] + BreakLines(s[1..])
  {
  }

  lemma BreakLinesReplace(s: string)
    requires BreakAt(s[SpaceRun(s)..])
    ensures var after := s[SpaceRun(s) + 6..];
            BreakLines(s) == "\n\n" + BreakLines(after[SpaceRun(after)..])
  {
  }

  lemma NoMarkerAfterPlain(a: string, b: string)
    requires a != [] && '[' !in a && !IsSpace(a[|a| - 1])
    ensures !BreakAt((a + b)[SpaceRun(a + b)..])
  {
    var s := a + b;
    var w := SpaceRun(s);
    assert s[|a| - 1] == a[|a| - 1];
    assert w < |a|;
    assert s[w..][0] == a[w];
  }

  lemma {:induction false} BreakLinesPrefix(a: string, b: string)
    requires '[' !in a && (a != [] ==> !IsSpace(a[|a| - 1]))
    ensures BreakLines(a + b) == a + BreakLines(b)
    decreases |a|
  {
    if a != [] {
      NoMarkerAfterPlain(a, b);
      BreakLinesKeep(a + b);
      PlainTail(a, b, BreakLines(b));
      BreakLinesPrefix(a[1..], b);
    } else {
      assert a + b == b;
    }
  }

  /** Splitting the first character off a plain prefix. */
  lemma PlainTail(a: string, b: string, c: string)
    requires a != [] && '[' !in a && !IsSpace(a[|a| - 1])
    ensures (a + b)[0] == a[0] && (a + b)[1..] == a[1..] + b
    ensures '[' !in a[1..] && (a[1..] != [] ==> !IsSpace(a[1..][|a[1..]| - 1]))
    ensures [a[0]] + (a[1..] + c) == a + c
  {
    assert a == [a[0]] + a[1..];
  }

  lemma {:induction false} SpaceRunOf(w: string, t: string)
    requires forall i :: 0 <= i < |w| ==> IsSpace(w[i])
    requires t != [] ==> !IsSpace(t[0])
    ensures SpaceRun(w + t) == |w|
    decreases |w|
  {
    if w == [] {
      assert w + t == t;
    } else {
      assert (w + t)[1..] == w[1..] + t;
      SpaceRunOf(w[1..], t);
    }
  }

  lemma {:induction false} BreakLinesAtMarker(w1: string, marker: string, w2: string, b: string)
    requires forall i :: 0 <= i < |w1| ==> IsSpace(w1[i])
    requires forall i :: 0 <= i < |w2| ==> IsSpace(w2[i])
    requires |marker| == 6 && BreakAt(marker)
    requires b != [] ==> !IsSpace(b[0])
    ensures BreakLines(w1 + marker + w2 + b) == "\n\n" + BreakLines(b)
  {
    var after := w2 + b;
    var m := marker + after;
    var t := w1 + m;
    assert w1 + marker + w2 + b == t;
    assert m[0] == '[';
    SpaceRunOf(w1, m);
    assert t[|w1|..] == m;
    assert m[..6] == marker;
    assert BreakAt(m);
    assert t[|w1| + 6..] == after;
    SpaceRunOf(w2, b);
    assert after[|w2|..] == b;
    BreakLinesReplace(t);
  }

  /**
   * The break marker, in any letter case and with all the whitespace around
   * it, becomes one blank line.
   */
  lemma {:induction false} BreakLinesMarker(a: string, w1: string, marker: string, w2: string, b: string)
    requires '[' !in a && (a != [] ==> !IsSpace(a[|a| - 1]))
    requires forall i :: 0 <= i < |w1| ==> IsSpace(w1[i])
    requires forall i :: 0 <= i < |w2| ==> IsSpace(w2[i])
    requires |marker| == 6 && BreakAt(marker)
    requires b != [] ==> !IsSpace(b[0])
    ensures BreakLines(a + w1 + marker + w2 + b) == a + "\n\n" + BreakLines(b)
  {
    var t := w1 + marker + w2 + b;
    MarkerRegroup(a, w1, marker, w2, b, BreakLines(b));
    BreakLinesPrefix(a, t);
    BreakLinesAtMarker(w1, marker, w2, b);
  }

  lemma MarkerRegroup(a: string, w1: string, marker: string, w2: string, b: string, c: string)
    ensures a + w1 + marker + w2 + b == a + (w1 + marker + w2 + b)
    ensures a + ("\n\n" + c) == a + "\n\n" + c
  {
  }
}
