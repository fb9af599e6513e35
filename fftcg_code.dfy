/**
 * Card codes (fftcg/code.py): a card's catalog identifier, "opus-serial"
 * plus an optional rarity letter, e.g. "6-048C", "PR-051", "B-012".
 * Codes compare and hash by their short form "opus-serial" only.
 */
module Codes {
  import opened Wrappers
  import opened Strings

  datatype Code = Code(opus: string, serial: string, rarity: string)

  predicate IsRarity(c: char) { c == 'C' || c == 'R' || c == 'H' || c == 'L' || c == 'S' }

  /** The code of a card the parser does not recognise. */
  const Unknown := Code("?", "???", "?")

  /** `([0-9]+)-([0-9]+)([CRHLS]?)` matched at the start of `s`, greedily. */
  function MatchNumbered(s: string): Option<Code> {
    var n1 := DigitRun(s);
    if n1 == 0 || n1 >= |s| || s[n1] != '-' then None
    else
      var rest := s[n1 + 1..];
      var n2 := DigitRun(rest);
      if n2 == 0 then None
      else Some(Code(s[..n1], rest[..n2], if n2 < |rest| && IsRarity(rest[n2]) then [rest[n2]] else ""))
  }

  /** `(PR)-([0-9]+)` or `(B)-([0-9]+)` matched at the start of `s`. */
  function MatchPrefixed(s: string, prefix: string): Option<Code> {
    if !StartsWith(s, prefix + "-") then None
    else
      var rest := s[|prefix| + 1..];
      var n := DigitRun(rest);
      if n == 0 then None else Some(Code(prefix, rest[..n], ""))
  }

  function FromMatch(m: Option<Code>): Result<Code> {
    match m
    case Some(c) => Ok(c)
    case None => Err("AttributeError: 'NoneType' object has no attribute 'groups'")
  }

  /** `Code(s)` */
  function Parse(s: string): Result<Code> {
    if s == [] then Err("IndexError: string index out of range")
    else if IsDigit(s[0]) then FromMatch(MatchNumbered(s))
    else if StartsWith(s, "PR") then FromMatch(MatchPrefixed(s, "PR"))
    else if StartsWith(s, "B") then FromMatch(MatchPrefixed(s, "B"))
    else Ok(Unknown)
  }

  /** `str(code)` */
  function Str(c: Code): string { c.opus + "-" + c.serial + c.rarity }

  /** `code.short`, the part equality and hashing look at. */
  function Short(c: Code): string { c.opus + "-" + c.serial }

  /** `a == b` */
  predicate Same(a: Code, b: Code) { Short(a) == Short(b) }

  /** `code.serial`: `int()` of the serial digits. */
  function Serial(c: Code): Result<nat> {
    if c.serial != [] && AllDigits(c.serial) then Ok(DigitsValue(c.serial))
    else Err("ValueError: invalid literal for int()")
  }

  /** The codes the parser can produce. */
  predicate Valid(c: Code) {
    || (c.opus != [] && AllDigits(c.opus) && c.serial != [] && AllDigits(c.serial)
        && (c.rarity == "" || (|c.rarity| == 1 && IsRarity(c.rarity[0]))))
    || ((c.opus == "PR" || c.opus == "B") && c.serial != [] && AllDigits(c.serial) && c.rarity == "")
    || c == Unknown
  }

  lemma DigitRunOfDigits(d: string, t: string)
    requires AllDigits(d)
    requires t != [] ==> !IsDigit(t[0])
    ensures DigitRun(d + t) == |d|
    decreases |d|
  {
    if d != [] {
      assert (d + t)[1..] == d[1..] + t;
      DigitRunOfDigits(d[1..], t);
    } else {
      assert d + t == t;
    }
  }

  /**
   * A digit-led code splits into opus digits, serial digits and an optional
   * rarity letter; whatever follows the match is dropped.
   */
  lemma ParseNumbered(opus: string, serial: string, rarity: string, tail: string)
    requires opus != [] && AllDigits(opus) && serial != [] && AllDigits(serial)
    requires rarity == "" || (|rarity| == 1 && IsRarity(rarity[0]))
    requires rarity == "" && tail != [] ==> !IsDigit(tail[0]) && !IsRarity(tail[0])
    ensures Parse(opus + "-" + serial + rarity + tail) == Ok(Code(opus, serial, rarity))
  {
    var rest := serial + (rarity + tail);
    Regroup(opus, serial, rarity, tail);
    MatchSplit(opus, serial, rarity, tail);
    assert IsDigit((opus + ("-" + rest))[0]);
  }

  lemma Regroup(opus: string, serial: string, rarity: string, tail: string)
    ensures opus + "-" + serial + rarity + tail == opus + ("-" + (serial + (rarity + tail)))
  {
  }

  lemma MatchSplit(opus: string, serial: string, rarity: string, tail: string)
    requires opus != [] && AllDigits(opus) && serial != [] && AllDigits(serial)
    requires rarity == "" || (|rarity| == 1 && IsRarity(rarity[0]))
    requires rarity == "" && tail != [] ==> !IsDigit(tail[0]) && !IsRarity(tail[0])
    ensures MatchNumbered(opus + ("-" + (serial + (rarity + tail)))) == Some(Code(opus, serial, rarity))
    ensures (opus + ("-" + (serial + (rarity + tail))))[0] == opus[0]
  {
    OpusSplit(opus, serial + (rarity + tail));
    SerialSplit(serial, rarity, tail);
  }

  /** The opus digits, then the dash, then the rest. */
  lemma OpusSplit(opus: string, rest: string)
    requires opus != [] && AllDigits(opus)
    ensures var s := opus + ("-" + rest);
            DigitRun(s) == |opus| && s[|opus|] == '-' && s[|opus| + 1..] == rest
            && s[..|opus|] == opus && s[0] == opus[0]
  {
    DigitRunOfDigits(opus, "-" + rest);
  }

  /** The serial digits, then the rarity letter if there is one. */
  lemma SerialSplit(serial: string, rarity: string, tail: string)
    requires serial != [] && AllDigits(serial)
    requires rarity == "" || (|rarity| == 1 && IsRarity(rarity[0]))
    requires rarity == "" && tail != [] ==> !IsDigit(tail[0]) && !IsRarity(tail[0])
    ensures var rest := serial + (rarity + tail);
            var n := |serial|;
            DigitRun(rest) == n && rest[..n] == serial
            && (if n < |rest| && IsRarity(rest[n]) then [rest[n]] else "") == rarity
  {
    var t2 := rarity + tail;
    var rest := serial + t2;
    assert t2 != [] ==> !IsDigit(t2[0]);
    DigitRunOfDigits(serial, t2);
    if rarity != "" {
      assert rest[|serial|] == rarity[0];
      assert [rarity[0]] == rarity;
    } else if tail != [] {
      assert rest[|serial|] == tail[0];
    }
  }

  /** A promo or boss code "PR-n" / "B-n" gets an empty rarity. */
  lemma ParsePrefixed(prefix: string, serial: string, tail: string)
    requires prefix == "PR" || prefix == "B"
    requires serial != [] && AllDigits(serial)
    requires tail != [] ==> !IsDigit(tail[0])
    ensures Parse(prefix + "-" + serial + tail) == Ok(Code(prefix, serial, ""))
  {
    var s := (prefix + "-") + (serial + tail);
    Regroup3(prefix, serial, tail);
    MatchPrefixedSplit(prefix, serial, tail);
    assert s[0] == prefix[0];
    if prefix == "B" {
      assert s[1] == '-';
      assert !StartsWith(s, "PR");
    } else {
      assert s[..2] == "PR";
    }
  }

  lemma Regroup3(prefix: string, serial: string, tail: string)
    ensures prefix + "-" + serial + tail == (prefix + "-") + (serial + tail)
  {
  }

  lemma MatchPrefixedSplit(prefix: string, serial: string, tail: string)
    requires |prefix| > 0
    requires serial != [] && AllDigits(serial)
    requires tail != [] ==> !IsDigit(tail[0])
    ensures MatchPrefixed((prefix + "-") + (serial + tail), prefix) == Some(Code(prefix, serial, ""))
  {
    var s := (prefix + "-") + (serial + tail);
    assert s[..|prefix + "-"|] == prefix + "-";
    assert s[|prefix| + 1..] == serial + tail;
    DigitRunOfDigits(serial, tail);
    assert (serial + tail)[..|serial|] == serial;
  }

  /** Every code the parser produces is a valid code. */
  lemma ParseValid(s: string)
    ensures Parse(s).Ok? ==> Valid(Parse(s).value)
  {
    if s != [] && IsDigit(s[0]) && MatchNumbered(s).Some? {
      var n1 := DigitRun(s);
      var rest := s[n1 + 1..];
      var n2 := DigitRun(rest);
      assert rest[..n2] != [];
    }
  }

  /** Rendering a valid code and parsing it again gives the same code. */
  lemma ParseStrRoundTrip(c: Code)
    requires Valid(c)
    ensures Parse(Str(c)) == Ok(c)
  {
    if c == Unknown {
      ParseUnknown();
    } else if c.opus == "PR" || c.opus == "B" {
      ParsePrefixed(c.opus, c.serial, "");
      EmptyTail(Str(c));
    } else {
      ParseNumbered(c.opus, c.serial, c.rarity, "");
      EmptyTail(Str(c));
    }
  }

  lemma EmptyTail(s: string)
    ensures s + "" == s
  {
  }

  /** "?-????" starts with neither a digit, "PR" nor "B", so it parses to the unknown code. */
  lemma ParseUnknown()
    ensures Parse(Str(Unknown)) == Ok(Unknown)
  {
    var s := Str(Unknown);
    assert s == "?" + ("-" + "???" + "?");
    assert |s| > 0 && s[0] == '?';
    assert !StartsWith(s, "PR") && !StartsWith(s, "B");
  }

  lemma NumberedReadsPrefix(s: string)
    requires MatchNumbered(s).Some?
    ensures StartsWith(s, Str(MatchNumbered(s).value))
  {
    var c := MatchNumbered(s).value;
    var n1 := DigitRun(s);
    var rest := s[n1 + 1..];
    var n2 := DigitRun(rest);
    var k := n1 + 1 + n2 + |c.rarity|;
    assert c.opus == s[..n1] && c.serial == rest[..n2];
    assert s[..k] == s[..n1] + [s[n1]] + rest[..n2 + |c.rarity|];
    assert rest[..n2 + |c.rarity|] == rest[..n2] + c.rarity;
  }

  lemma PrefixedReadsPrefix(s: string, prefix: string)
    requires MatchPrefixed(s, prefix).Some?
    ensures StartsWith(s, Str(MatchPrefixed(s, prefix).value))
  {
    var rest := s[|prefix| + 1..];
    var n := DigitRun(rest);
    assert s[..|prefix| + 1] == prefix + "-";
    assert s[..|prefix| + 1 + n] == s[..|prefix| + 1] + rest[..n];
  }

  /** A successful parse reads a prefix of its input: trailing text is dropped, never invented. */
  lemma ParseReadsPrefix(s: string)
    requires Parse(s).Ok? && Parse(s).value != Unknown
    ensures StartsWith(s, Str(Parse(s).value))
  {
    if IsDigit(s[0]) {
      NumberedReadsPrefix(s);
    } else if StartsWith(s, "PR") {
      PrefixedReadsPrefix(s, "PR");
    } else {
      PrefixedReadsPrefix(s, "B");
    }
  }

  lemma NoDashInOpus(c: Code)
    requires Valid(c)
    ensures forall j :: 0 <= j < |c.opus| ==> c.opus[j] != '-'
  {
  }

  /** The short forms of two valid codes agree exactly when opus and serial do; rarity plays no part. */
  lemma SameIffOpusSerial(a: Code, b: Code)
    requires Valid(a) && Valid(b)
    ensures Same(a, b) <==> a.opus == b.opus && a.serial == b.serial
  {
    if Same(a, b) {
      NoDashInOpus(a);
      NoDashInOpus(b);
      var sa, sb := Short(a), Short(b);
      assert sa[|a.opus|] == '-' && sb[|b.opus|] == '-';
      assert forall j :: 0 <= j < |a.opus| ==> sa[j] == a.opus[j];
      assert forall j :: 0 <= j < |b.opus| ==> sb[j] == b.opus[j];
      assert IndexOf(sa, '-') == |a.opus|;
      assert IndexOf(sb, '-') == |b.opus|;
      assert a.opus == sa[..|a.opus|];
      assert b.opus == sb[..|b.opus|];
      assert a.serial == sa[|a.opus| + 1..];
      assert b.serial == sb[|b.opus| + 1..];
    }
  }

  lemma {:induction false} LeadingZero(d: string)
    requires AllDigits(d)
    ensures DigitsValue("0" + d) == DigitsValue(d)
    decreases |d|
  {
    if d != [] {
      var z := "0" + d;
      assert z[..|z| - 1] == "0" + d[..|d| - 1];
      LeadingZero(d[..|d| - 1]);
    }
  }

  /**
   * `serial` is the number with its zero padding gone, while `str` keeps the
   * padding: "1-001C" has serial 1 and renders as "1-001C".
   */
  lemma SerialDropsPadding(c: Code, digits: string)
    requires Valid(c) && c.opus != "?" && c.serial == "0" + digits && digits != []
    ensures Serial(c) == Serial(Code(c.opus, digits, c.rarity))
    ensures Str(c) == c.opus + "-0" + digits + c.rarity
  {
    LeadingZero(digits);
  }

  /**
   * Only the unrecognised code has no serial number: `int("???")` fails,
   * every other valid code has one.
   */
  lemma SerialDefinedIffRecognised(c: Code)
    requires Valid(c)
    ensures Serial(c).Err? <==> c == Unknown
  {
    if c == Unknown {
      assert !IsDigit(c.serial[0]);
    }
  }

  /** The failing inputs named by the source: the empty string, and a digit-led string without "-digits". */
  lemma ParseFailures()
    ensures Parse("").Err?
    ensures Parse("6x").Err?
    ensures Parse("6-").Err?
    ensures Parse("PRX").Err?
  {
    NumberedFailures();
    PromoFailure();
  }

  lemma NumberedFailures()
    ensures Parse("6x").Err? && Parse("6-").Err?
  {
    assert DigitRun("6x") == 1;
    assert DigitRun("6-") == 1;
    assert DigitRun("") == 0;
  }

  lemma PromoFailure()
    ensures Parse("PRX").Err?
  {
    var s := "PRX";
    assert s[..2] == "PR";
    assert !StartsWith(s, "PR-") by {
      assert s[2] != '-';
    }
  }
}
