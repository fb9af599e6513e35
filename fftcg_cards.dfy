/**
 * A named list of cards (fftcg/cards.py). The list itself is mutable (a
 * book sorts it in place); its name is fixed at construction.
 */
module Collections {
  import opened Wrappers
  import opened Strings
  import opened Sorting
  import CardRecords

  /** `name.lower().replace(" ", "_")` */
  function FileName(name: string): (f: string)
    ensures |f| == |name|
    ensures forall i :: 0 <= i < |f| ==> f[i] == (if LowerChar(name[i]) == ' ' then '_' else LowerChar(name[i]))
  {
    ReplaceAllChar(Lower(name), ' ', '_');
    ReplaceAll(Lower(name), " ", "_")
  }

  /** A file name has no spaces, and making a file name of it again changes nothing. */
  lemma FileNameIdempotent(name: string)
    ensures ' ' !in FileName(name)
    ensures FileName(FileName(name)) == FileName(name)
  {
    var f := FileName(name);
    assert forall i :: 0 <= i < |f| ==> f[i] != ' ';
    var g := FileName(f);
    assert forall i :: 0 <= i < |f| ==> g[i] == f[i];
  }

  /** `str(cards)`: the card strings, comma-separated, in brackets. */
  function Render(cards: seq<CardRecords.Card>): string {
    "[" + Join(seq(|cards|, i requires 0 <= i < |cards| => CardRecords.Str(cards[i])), ", ") + "]"
  }

  /** Rendering lists the cards in order: one more card adds its string before the bracket. */
  lemma RenderAppend(cards: seq<CardRecords.Card>, c: CardRecords.Card)
    ensures cards == [] ==> Render([c]) == "[" + CardRecords.Str(c) + "]"
    ensures var r := Render(cards);
            cards != [] ==> Render(cards + [c]) == r[..|r| - 1] + ", " + CardRecords.Str(c) + "]"
  {
    var strs := seq(|cards|, i requires 0 <= i < |cards| => CardRecords.Str(cards[i]));
    var strs2 := seq(|cards + [c]|, i requires 0 <= i < |cards + [c]| => CardRecords.Str((cards + [c])[i]));
    assert strs2 == strs + [CardRecords.Str(c)];
    if cards != [] {
      JoinSnoc(strs, CardRecords.Str(c), ", ");
      var r := Render(cards);
      assert r[..|r| - 1] == "[" + Join(strs, ", ");
    }
  }

  class Cards {
    const name: string
    var items: seq<CardRecords.Card>

    /** `Cards(name, cards)`: no list given means an empty one. */
    constructor(name: string, cards: Option<seq<CardRecords.Card>>)
      ensures this.name == name
      ensures items == (if cards.None? then [] else cards.value)
    {
      this.name := name;
      items := if cards.None? then [] else cards.value;
    }

    function Str(): string
      reads this
    {
      Render(items)
    }

    /** `cards.sort(key=...)`: Python's stable sort. */
    method Sort(key: CardRecords.Card -> Key)
      modifies this
      ensures items == SortBy(old(items), key)
    {
      items := SortBy(items, key);
    }
  }
}
