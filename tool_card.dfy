/**
 * Third-generation cards (fftcgtool/card.py): a code, English element
 * names and, per language, an immutable `CardContent` (name, rules text,
 * face image name). The content map and the slot index are updated in
 * place. The code and language types of this generation (fftcgtool/code.py,
 * fftcgtool/language.py) are not part of this model; the second
 * generation's `Codes` and `Languages` stand in for them.
 */
module ToolCards {
  import opened Wrappers
  import opened Strings
  import Codes
  import Languages
  import CardRecords

  /** `CardContent`, a frozen dataclass: a new face means a new value. */
  datatype CardContent = CardContent(name: string, text: string, face: string)

  /** A content key: a `Language`, or a string that `Language(...)` normalises. */
  datatype Key = ByLanguage(lang: Languages.Language) | ByName(s: string)

  function Resolve(k: Key): Languages.Language {
    match k
    case ByLanguage(l) => l
    case ByName(s) => Languages.Of(s)
  }

  type Content = map<Languages.Language, CardContent>

  /** `card[key]`, raising KeyError when the language has no content. */
  function Lookup(content: Content, k: Key): (r: Result<CardContent>)
    ensures r.Ok? <==> Resolve(k) in content
    ensures r.Ok? ==> r.value == content[Resolve(k)]
  {
    if Resolve(k) in content then Ok(content[Resolve(k)]) else Err("KeyError")
  }

  /**
   * After `card[k] = v`, every key that names the same language reads `v`,
   * and every other key reads what it read before.
   */
  lemma LookupAfterSet(content: Content, k: Key, v: CardContent, k2: Key)
    ensures Lookup(content[Resolve(k) := v], k2)
            == if Resolve(k2) == Resolve(k) then Ok(v) else Lookup(content, k2)
  {
  }

  /** A string key is case-insensitive and reaches the entry of the language it names. */
  lemma StringKeysNormalise(content: Content, s: string)
    ensures Lookup(content, ByName(s)) == Lookup(content, ByName(Lower(s)))
    ensures Lookup(content, ByName(s)) == Lookup(content, ByLanguage(Languages.Of(s)))
  {
    LowerIdempotent(s);
  }

  /** `__ELEMENTS_JAP` and `__ELEMENTS_ENG` */
  const ElementsJap: seq<string> := ["火", "氷", "風", "土", "雷", "水", "光", "闇"]
  const ElementsEng: seq<string> := ["Fire", "Ice", "Wind", "Earth", "Lightning", "Water", "Light", "Darkness"]

  /** `{j: e for j, e in zip(jap, eng)}`: later pairs overwrite earlier ones. */
  function Zip(jap: seq<string>, eng: seq<string>): (m: map<string, string>)
    requires |jap| == |eng|
    decreases |jap|
  {
    if jap == [] then map[] else Zip(jap[..|jap| - 1], eng[..|eng| - 1])[jap[|jap| - 1] := eng[|eng| - 1]]
  }

  /** The zipped table is the second generation's element table. */
  lemma ElementsTableAgrees()
    ensures Zip(ElementsJap, ElementsEng) == CardRecords.ElementsMap
  {
    var j, e := ElementsJap, ElementsEng;
    ZipFirstFour();
    ZipStep(j, e, 4); ZipStep(j, e, 5); ZipStep(j, e, 6); ZipStep(j, e, 7);
    assert j[..8] == j && e[..8] == e;
  }

  /** The first four pairs: Fire, Ice, Wind and Earth. */
  lemma ZipFirstFour()
    ensures Zip(ElementsJap[..4], ElementsEng[..4]) == map["火" := "Fire", "氷" := "Ice", "風" := "Wind", "土" := "Earth"]
  {
    var j, e := ElementsJap, ElementsEng;
    ZipStep(j, e, 0); ZipStep(j, e, 1); ZipStep(j, e, 2); ZipStep(j, e, 3);
    assert j[..0] == [] && e[..0] == [];
  }

  /** One more pair of the zip. */
  lemma ZipStep(jap: seq<string>, eng: seq<string>, k: nat)
    requires |jap| == |eng| && k < |jap|
    ensures Zip(jap[..k + 1], eng[..k + 1]) == Zip(jap[..k], eng[..k])[jap[k] := eng[k]]
  {
    assert jap[..k + 1][..k] == jap[..k] && eng[..k + 1][..k] == eng[..k];
  }

  class Card {
    const code: Codes.Code
    const elements: seq<string>
    var content: Content
    var index: int

    constructor (code: Codes.Code, elements: seq<string>, content: Content, index: int)
      ensures this.code == code && this.elements == elements && this.content == content && this.index == index
    {
      this.code := code;
      this.elements := elements;
      this.content := content;
      this.index := index;
    }

    /** `card[key]` */
    function Get(k: Key): (r: Result<CardContent>)
      reads this
      ensures r == Lookup(content, k)
    {
      Lookup(content, k)
    }

    /** `card[key] = value` */
    method Set(k: Key, v: CardContent)
      modifies this
      ensures content == old(content)[Resolve(k) := v]
      ensures index == old(index)
    {
      content := content[Resolve(k) := v];
    }

    /** The `index` setter; the getter reads the field. */
    method SetIndex(i: int)
      modifies this
      ensures index == i && content == old(content)
    {
      index := i;
    }

    /**
     * `str(card)`: the English name, the elements and the code. A card
     * without content makes `__str__` return None, which `str` rejects.
     */
    function Str(): (r: Result<string>)
      reads this
      ensures content == map[] ==> r.Err?
      ensures content != map[] ==> (r.Ok? <==> Languages.Language("en") in content)
      ensures r.Ok? ==> r.value == "'" + content[Languages.Language("en")].name + "' ("
                                   + Join(elements, "/") + ", " + Codes.Str(code) + ")"
    {
      if content == map[] then Err("TypeError: __str__ returned non-string")
      else match Lookup(content, ByName(""))
        case Err(e) => Err(e)
        case Ok(c) => Ok("'" + c.name + "' (" + Join(elements, "/") + ", " + Codes.Str(code) + ")")
    }
  }

  /** `load_name(language)` and `load_text(language)` for each API language, in order. */
  function ContentOf(data: CardRecords.Record, langs: seq<Languages.Language>,
                     elementMarkup: string -> string, hintMarkup: string -> string): (r: Result<Content>)
    ensures r.Ok? <==> forall i :: 0 <= i < |langs| ==>
              "Name" + Languages.KeySuffix(langs[i]) in data && "Text" + Languages.KeySuffix(langs[i]) in data
    ensures r.Ok? ==> r.value.Keys == set i | 0 <= i < |langs| :: langs[i]
    decreases |langs|
  {
    if langs == [] then Ok(map[])
    else
      var l := langs[|langs| - 1];
      match ContentOf(data, langs[..|langs| - 1], elementMarkup, hintMarkup)
      case Err(e) => Err(e)
      case Ok(m) =>
        match CardRecords.Field(data, "Name" + Languages.KeySuffix(l))
        case Err(e) => Err(e)
        case Ok(name) =>
          match CardRecords.Field(data, "Text" + Languages.KeySuffix(l))
          case Err(e) => Err(e)
          case Ok(raw) =>
            var text := CardRecords.TextOf(raw, elementMarkup, hintMarkup);
            assert langs == langs[..|langs| - 1] + [l];
            Ok(m[l := CardContent(name, text, "")])
  }

  /** Every API language gets the name and processed text of its own fields, and an empty face. */
  lemma ContentOfEntries(data: CardRecords.Record, langs: seq<Languages.Language>,
                         elementMarkup: string -> string, hintMarkup: string -> string, l: Languages.Language)
    requires ContentOf(data, langs, elementMarkup, hintMarkup).Ok? && l in langs
    ensures var c := ContentOf(data, langs, elementMarkup, hintMarkup).value;
            l in c && c[l] == CardContent(data["Name" + Languages.KeySuffix(l)],
                                          CardRecords.TextOf(data["Text" + Languages.KeySuffix(l)], elementMarkup, hintMarkup),
                                          "")
  {
    ContentEntry(data, langs, elementMarkup, hintMarkup, l, ContentOf(data, langs, elementMarkup, hintMarkup).value);
  }

  lemma {:induction false} ContentEntry(data: CardRecords.Record, langs: seq<Languages.Language>,
                                        elementMarkup: string -> string, hintMarkup: string -> string,
                                        l: Languages.Language, c: Content)
    requires ContentOf(data, langs, elementMarkup, hintMarkup) == Ok(c) && l in langs
    ensures l in c && c[l] == CardContent(data["Name" + Languages.KeySuffix(l)],
                                          CardRecords.TextOf(data["Text" + Languages.KeySuffix(l)], elementMarkup, hintMarkup),
                                          "")
    decreases |langs|
  {
    var init := langs[..|langs| - 1];
    var last := langs[|langs| - 1];
    var prev := ContentLast(data, langs, elementMarkup, hintMarkup, c);
    if l != last {
      assert langs == init + [last];
      assert l in init;
      ContentEntry(data, init, elementMarkup, hintMarkup, l, prev);
    }
  }

  /** One unfolding of `ContentOf`: the last language is added to the content of the others. */
  lemma ContentLast(data: CardRecords.Record, langs: seq<Languages.Language>,
                    elementMarkup: string -> string, hintMarkup: string -> string, c: Content)
      returns (prev: Content)
    requires ContentOf(data, langs, elementMarkup, hintMarkup) == Ok(c) && |langs| > 0
    ensures ContentOf(data, langs[..|langs| - 1], elementMarkup, hintMarkup) == Ok(prev)
    ensures var l := langs[|langs| - 1];
            "Name" + Languages.KeySuffix(l) in data && "Text" + Languages.KeySuffix(l) in data
            && c == prev[l := CardContent(data["Name" + Languages.KeySuffix(l)],
                                          CardRecords.TextOf(data["Text" + Languages.KeySuffix(l)], elementMarkup, hintMarkup),
                                          "")]
  {
    prev := ContentOf(data, langs[..|langs| - 1], elementMarkup, hintMarkup).value;
  }

  /** The parts of a card `from_square_api_data` builds: code, elements, content. */
  datatype Parts = Parts(code: Codes.Code, elements: seq<string>, content: Content)

  /**
   * `Card.from_square_api_data(data)`. Falsy data takes the `Code("")`
   * path; otherwise the content of every API language is read first, then
   * the code, then the elements; the first missing field or unknown symbol
   * is the error.
   */
  function FromSquareApiData(data: CardRecords.Record, langs: seq<Languages.Language>,
                             elementMarkup: string -> string, hintMarkup: string -> string): Result<Parts> {
    if data == map[] then
      match Codes.Parse("")
      case Ok(c) => Ok(Parts(c, [], map[]))
      case Err(e) => Err(e)
    else
      match ContentOf(data, langs, elementMarkup, hintMarkup)
      case Err(e) => Err(e)
      case Ok(content) =>
        match CardRecords.Field(data, "Code")
        case Err(e) => Err(e)
        case Ok(codeText) =>
          match Codes.Parse(codeText)
          case Err(e) => Err(e)
          case Ok(code) =>
            match CardRecords.Field(data, "Element")
            case Err(e) => Err(e)
            case Ok(elementText) =>
              match CardRecords.MapElements(Split(elementText, '/'))
              case Err(e) => Err(e)
              case Ok(elements) => Ok(Parts(code, elements, content))
  }

  /** The empty record fails at `Code("")`. */
  lemma FromSquareApiDataEmptyFails(langs: seq<Languages.Language>, elementMarkup: string -> string, hintMarkup: string -> string)
    ensures FromSquareApiData(map[], langs, elementMarkup, hintMarkup).Err?
  {
  }

  /**
   * A card built from a record has the record's code, one English element
   * per "/"-separated symbol, and content for exactly the API languages,
   * each with an empty face.
   */
  lemma FromSquareApiDataFields(data: CardRecords.Record, langs: seq<Languages.Language>,
                                elementMarkup: string -> string, hintMarkup: string -> string)
    requires FromSquareApiData(data, langs, elementMarkup, hintMarkup).Ok? && data != map[]
    ensures var p := FromSquareApiData(data, langs, elementMarkup, hintMarkup).value;
            && Codes.Parse(data["Code"]) == Ok(p.code)
            && var parts := Split(data["Element"], '/');
               |p.elements| == |parts|
               && (forall i :: 0 <= i < |parts| ==> p.elements[i] == CardRecords.ElementsMap[parts[i]])
               && p.content.Keys == (set i | 0 <= i < |langs| :: langs[i])
               && (forall l :: l in p.content ==> p.content[l].face == "")
  {
    var p := FromSquareApiData(data, langs, elementMarkup, hintMarkup).value;
    forall l | l in p.content ensures p.content[l].face == "" {
      ContentOfEntries(data, langs, elementMarkup, hintMarkup, l);
    }
  }

  /** A symbol outside the element table fails the record. */
  lemma UnknownSymbolFails(data: CardRecords.Record, langs: seq<Languages.Language>,
                           elementMarkup: string -> string, hintMarkup: string -> string, i: nat)
    requires data != map[] && ContentOf(data, langs, elementMarkup, hintMarkup).Ok?
    requires "Code" in data && Codes.Parse(data["Code"]).Ok?
    requires "Element" in data && i < |Split(data["Element"], '/')| && Split(data["Element"], '/')[i] !in CardRecords.ElementsMap
    ensures FromSquareApiData(data, langs, elementMarkup, hintMarkup).Err?
  {
  }

  /** `Card.from_square_api_data(data)` building the object, slot index 0. */
  method NewFromSquareApiData(data: CardRecords.Record, langs: seq<Languages.Language>,
                              elementMarkup: string -> string, hintMarkup: string -> string)
      returns (r: Result<Card>)
    ensures r.Ok? <==> FromSquareApiData(data, langs, elementMarkup, hintMarkup).Ok?
    ensures r.Ok? ==> var p := FromSquareApiData(data, langs, elementMarkup, hintMarkup).value;
                      fresh(r.value) && r.value.code == p.code && r.value.elements == p.elements
                      && r.value.content == p.content && r.value.index == 0
  {
    match FromSquareApiData(data, langs, elementMarkup, hintMarkup)
    case Err(e) => r := Err(e);
    case Ok(p) =>
      var c := new Card(p.code, p.elements, p.content, 0);
      r := Ok(c);
  }
}
