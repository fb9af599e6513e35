/**
 * Languages (fftcg/language.py): a locale reduced to one of the six short
 * forms the card services know, with the suffixes used for face-image URLs
 * and for the card service's field names.
 */
module Languages {
  import opened Strings

  datatype Language = Language(short: string)

  /** The languages kept as given; everything else is English. */
  const Supported: seq<string> := ["de", "es", "fr", "ja", "it"]

  predicate Valid(l: Language) {
    l.short in Supported || l.short == "en"
  }

  /** `Language(s)`: lower-case the input, keep it when supported, otherwise "en". */
  function Of(s: string): (l: Language)
    ensures Valid(l)
  {
    var lower := Lower(s);
    if lower in Supported then Language(lower) else Language("en")
  }

  /** `str(language)` */
  function Str(l: Language): string { l.short }

  /** `a == b`, and the hash: both read the short string only. */
  predicate Same(a: Language, b: Language) { Str(a) == Str(b) }

  /** Suffix of face-image file names. */
  function ImageSuffix(l: Language): string {
    if l.short in ["de", "es", "fr", "it"] then l.short else "eg"
  }

  /** Suffix of the card service's per-language field names. */
  function KeySuffix(l: Language): string {
    if l.short in ["de", "es", "fr", "it"] then "_" + Upper(l.short)
    else if l.short == "ja" then ""
    else "_EN"
  }

  /** The input's case plays no part. */
  lemma OfIgnoresCase(s: string, t: string)
    requires Lower(s) == Lower(t)
    ensures Of(s) == Of(t)
  {
  }

  lemma LowerUpper(s: string)
    ensures Lower(Upper(s)) == Lower(s)
  {
  }

  /** In particular upper- and lower-casing the input change nothing. */
  lemma OfCaseVariants(s: string)
    ensures Of(Upper(s)) == Of(s) && Of(Lower(s)) == Of(s)
  {
    LowerUpper(s);
    LowerIdempotent(s);
  }

  /** A language is English exactly when its lower-cased input is not one of the five supported ones. */
  lemma EnglishIffUnsupported(s: string)
    ensures Of(s).short == "en" <==> Lower(s) !in Supported
  {
  }

  /** Normalising a valid language's string gives it back: `Language(str(l)) == l`. */
  lemma OfStrRoundTrip(l: Language)
    requires Valid(l)
    ensures Of(Str(l)) == l
  {
    assert Lower("de") == "de" && Lower("es") == "es" && Lower("fr") == "fr";
    assert Lower("ja") == "ja" && Lower("it") == "it" && Lower("en") == "en";
  }

  /** Normalisation is idempotent. */
  lemma OfIdempotent(s: string)
    ensures Of(Str(Of(s))) == Of(s)
  {
    OfStrRoundTrip(Of(s));
  }

  /** Equality of languages is equality of their short strings. */
  lemma SameIffEqual(a: Language, b: Language)
    ensures Same(a, b) <==> a == b
  {
  }

  /** The image suffix table: the short form for de/es/fr/it, "eg" for ja and en. */
  lemma ImageSuffixTable(l: Language)
    requires Valid(l)
    ensures l.short in ["de", "es", "fr", "it"] ==> ImageSuffix(l) == l.short
    ensures l.short == "ja" || l.short == "en" <==> ImageSuffix(l) == "eg"
  {
  }

  /** The key suffix table, written out. */
  lemma KeySuffixTable()
    ensures KeySuffix(Language("de")) == "_DE" && KeySuffix(Language("es")) == "_ES"
    ensures KeySuffix(Language("fr")) == "_FR" && KeySuffix(Language("it")) == "_IT"
    ensures KeySuffix(Language("ja")) == "" && KeySuffix(Language("en")) == "_EN"
  {
    assert Upper("de") == "DE" && Upper("es") == "ES" && Upper("fr") == "FR" && Upper("it") == "IT";
  }

  /** Distinct languages read distinct service fields, while ja and en share face images. */
  lemma SuffixesDistinguish(a: Language, b: Language)
    requires Valid(a) && Valid(b)
    ensures KeySuffix(a) == KeySuffix(b) <==> a == b
    ensures ImageSuffix(a) == ImageSuffix(b) <==> a == b || (ImageSuffix(a) == "eg" && ImageSuffix(b) == "eg")
  {
    KeySuffixTable();
  }
}
