/** `alexnerd.content.content.control.TitleNormalizer`: turns a title into a
    file name by keeping letters and digits and replacing every other code
    point by one separator code point. A Dafny `char` is a Unicode scalar
    value, so a `string` is the title's sequence of code points. */
module TitleNormalizer {
  import opened Base
  import opened Domain

  /** The configured normalizer: the separator code point chosen by `init`,
      and `Character.isLetterOrDigit`, which is Unicode data and is taken
      here as given. */
  datatype Normalizer = Normalizer(separator: char, isLetterOrDigit: char -> bool)

  /** The default of the `title.separator` configuration property. */
  const DefaultTitleSeparator: string := "-"

  /** `init`: the first code point of the configured separator; an empty
      separator has no first code point and `orElseThrow` fails. */
  function Init(titleSeparator: string, isLetterOrDigit: char -> bool): (r: Result<Normalizer, Failure>)
    ensures r.Ok? <==> titleSeparator != ""
    ensures r.Ok? ==> r.value.separator == titleSeparator[0]
    ensures r.Ok? ==> forall c :: r.value.isLetterOrDigit(c) == isLetterOrDigit(c)
    ensures r.Err? ==> r.error == NoSuchElementException
  {
    if titleSeparator == "" then Err(NoSuchElementException)
    else Ok(Normalizer(titleSeparator[0], isLetterOrDigit))
  }

  /** `replaceDigitOrLetter`: a code point is either kept or replaced by
      the separator, and it is kept exactly when it is a letter or digit or
      is the separator already. */
  function ReplaceDigitOrLetter(n: Normalizer, c: char): (r: char)
    ensures r == c || r == n.separator
    ensures r == c <==> n.isLetterOrDigit(c) || c == n.separator
  {
    if n.isLetterOrDigit(c) then c else n.separator
  }

  /** `normalize`: code point by code point, in order. */
  function Normalize(n: Normalizer, title: string): (r: string)
    ensures |r| == |title|
    ensures forall i :: 0 <= i < |title| && n.isLetterOrDigit(title[i]) ==> r[i] == title[i]
    ensures forall i :: 0 <= i < |title| && !n.isLetterOrDigit(title[i]) ==> r[i] == n.separator
  {
    if title == [] then []
    else [ReplaceDigitOrLetter(n, title[0])] + Normalize(n, title[1..])
  }

  /** Every code point of a normalized title is a letter or digit or the
      separator. */
  lemma NormalizedAlphabet(n: Normalizer, title: string)
    ensures forall c :: c in Normalize(n, title) ==> n.isLetterOrDigit(c) || c == n.separator
  {
    var r := Normalize(n, title);
    forall c | c in r ensures n.isLetterOrDigit(c) || c == n.separator {
      var i :| 0 <= i < |r| && r[i] == c;
    }
  }

  /** Normalizing a normalized title changes nothing. */
  lemma NormalizeIdempotent(n: Normalizer, title: string)
    ensures Normalize(n, Normalize(n, title)) == Normalize(n, title)
  {
    var once := Normalize(n, title);
    var twice := Normalize(n, once);
    forall i | 0 <= i < |once| ensures twice[i] == once[i] {
      if !n.isLetterOrDigit(title[i]) && !n.isLetterOrDigit(once[i]) {
        assert once[i] == n.separator;
      }
    }
  }

  /** A normalized title is a single path segment when neither the
      separator nor any letter or digit is a slash. */
  lemma NormalizedHasNoSlash(n: Normalizer, title: string)
    requires n.separator != '/' && !n.isLetterOrDigit('/')
    ensures '/' !in Normalize(n, title)
  {
    NormalizedAlphabet(n, title);
  }

  /** With the default separator, "hello%world" becomes "hello-world". */
  lemma NormalizeHelloWorld(isLetterOrDigit: char -> bool)
    requires forall c :: 'a' <= c <= 'z' ==> isLetterOrDigit(c)
    requires !isLetterOrDigit('%')
    ensures Init(DefaultTitleSeparator, isLetterOrDigit).Ok?
    ensures Normalize(Init(DefaultTitleSeparator, isLetterOrDigit).value, "hello%world") == "hello-world"
  {
    var n := Init(DefaultTitleSeparator, isLetterOrDigit).value;
    var r := Normalize(n, "hello%world");
    assert |r| == 11;
    assert "hello%world"[5] == '%';
    forall i | 0 <= i < 11 ensures r[i] == "hello-world"[i] {
      if i != 5 {
        assert 'a' <= "hello%world"[i] <= 'z';
      }
    }
  }
}
