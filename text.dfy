/** The few string operations of `java.lang.String` and `java.lang.Integer`
    that the store relies on. Strings are sequences of Unicode scalar values. */
module Text {
  import opened Base

  /** Splits `s` at every occurrence of `c`, keeping every piece, empty ones
      included: there is always one more piece than there are separators. */
  function SplitOn(s: string, c: char): (r: seq<string>)
    ensures |r| >= 1
  {
    if s == [] then [""]
    else
      var rest := SplitOn(s[1..], c);
      if s[0] == c then [""] + rest
      else [[s[0]] + rest[0]] + rest[1..]
  }

  /** No piece contains the separator. */
  lemma {:induction false} SplitOnPieces(s: string, c: char)
    ensures forall i :: 0 <= i < |SplitOn(s, c)| ==> c !in SplitOn(s, c)[i]
  {
    if s != [] {
      SplitOnPieces(s[1..], c);
      var rest := SplitOn(s[1..], c);
      if s[0] != c {
        assert c !in [s[0]] + rest[0];
      }
    }
  }

  /** The pieces put back together with `c` between each two of them. */
  function Join(parts: seq<string>, c: char): string
  {
    if parts == [] then ""
    else if |parts| == 1 then parts[0]
    else parts[0] + [c] + Join(parts[1..], c)
  }

  /** Prepending a character to the first piece prepends it to the join. */
  lemma JoinExtendFirst(x: char, parts: seq<string>, c: char)
    requires |parts| >= 1
    ensures Join([[x] + parts[0]] + parts[1..], c) == [x] + Join(parts, c)
  {
    assert ([[x] + parts[0]] + parts[1..])[1..] == parts[1..];
  }

  /** Joining the pieces of a split gives back the string that was split. */
  lemma {:induction false} JoinSplitOn(s: string, c: char)
    ensures Join(SplitOn(s, c), c) == s
  {
    if s != [] {
      var rest := SplitOn(s[1..], c);
      JoinSplitOn(s[1..], c);
      if s[0] == c {
        assert ([""] + rest)[1..] == rest;
      } else {
        JoinExtendFirst(s[0], rest, c);
      }
      assert s == [s[0]] + s[1..];
    }
  }

  /** Splitting a string that starts with `x`: a separator opens a new
      empty piece, any other character joins the first piece of the rest. */
  lemma SplitOnCons(x: char, t: string, c: char)
    ensures SplitOn([x] + t, c) ==
      if x == c then [""] + SplitOn(t, c) else [[x] + SplitOn(t, c)[0]] + SplitOn(t, c)[1..]
  {
    assert ([x] + t)[1..] == t;
  }

  lemma ExtendFirstPiece(x: char, ra: seq<string>, sb: seq<string>)
    requires |ra| >= 1
    ensures [[x] + (ra + sb)[0]] + (ra + sb)[1..] == ([[x] + ra[0]] + ra[1..]) + sb
  {
    assert (ra + sb)[1..] == ra[1..] + sb;
  }

  /** Splitting distributes over a separator placed between two strings. */
  lemma {:induction false} SplitOnAround(a: string, b: string, c: char)
    ensures SplitOn(a + [c] + b, c) == SplitOn(a, c) + SplitOn(b, c)
  {
    if a == [] {
      assert a + [c] + b == [c] + b;
      SplitOnCons(c, b, c);
    } else {
      var t := a[1..] + [c] + b;
      assert a + [c] + b == [a[0]] + t;
      assert a == [a[0]] + a[1..];
      SplitOnCons(a[0], t, c);
      SplitOnCons(a[0], a[1..], c);
      SplitOnAround(a[1..], b, c);
      if a[0] == c {
        assert [""] + (SplitOn(a[1..], c) + SplitOn(b, c)) == ([""] + SplitOn(a[1..], c)) + SplitOn(b, c);
      } else {
        ExtendFirstPiece(a[0], SplitOn(a[1..], c), SplitOn(b, c));
      }
    }
  }

  /** A string without the separator is a single piece. */
  lemma {:induction false} SplitOnWithout(s: string, c: char)
    requires c !in s
    ensures SplitOn(s, c) == [s]
  {
    if s != [] {
      SplitOnWithout(s[1..], c);
      assert s == [s[0]] + s[1..];
    }
  }

  /** Drops the empty pieces at the end, as `String.split` does. */
  function DropTrailingEmpty(parts: seq<string>): (r: seq<string>)
    ensures |r| <= |parts| && r == parts[..|r|]
    ensures r != [] ==> r[|r| - 1] != ""
    ensures forall i :: |r| <= i < |parts| ==> parts[i] == ""
  {
    if parts == [] then []
    else if parts[|parts| - 1] == "" then DropTrailingEmpty(parts[..|parts| - 1])
    else parts
  }

  /** `s.split(String.valueOf(c))` for a separator that is not a regular
      expression metacharacter (such as '-'): with no occurrence, the string
      itself; otherwise every piece, without the trailing empty ones. */
  function JavaSplit(s: string, c: char): (r: seq<string>)
    ensures forall i :: 0 <= i < |r| ==> c !in r[i]
    ensures c !in s ==> r == [s]
  {
    if c !in s then [s]
    else
      SplitOnPieces(s, c);
      DropTrailingEmpty(SplitOn(s, c))
  }

  /** A non-empty string that does not end with the separator has a
      non-empty last piece. */
  lemma {:induction false} SplitOnLastPiece(s: string, c: char)
    requires s != "" && s[|s| - 1] != c
    ensures SplitOn(s, c)[|SplitOn(s, c)| - 1] != ""
  {
    var rest := SplitOn(s[1..], c);
    var r := SplitOn(s, c);
    if |s| == 1 {
      assert s[1..] == [] && rest == [""];
      assert r[0] == [s[0]] + "";
    } else {
      SplitOnLastPiece(s[1..], c);
      if s[0] != c && |rest| == 1 {
        assert r[|r| - 1] == [s[0]] + rest[0];
      } else {
        assert r[|r| - 1] == rest[|rest| - 1];
      }
    }
  }

  /** When `s` does not end with the separator, `split` drops nothing:
      joining its pieces with the separator gives `s` back. */
  lemma JoinJavaSplit(s: string, c: char)
    requires s == "" || s[|s| - 1] != c
    ensures Join(JavaSplit(s, c), c) == s
  {
    if c in s {
      SplitOnLastPiece(s, c);
      JoinSplitOn(s, c);
    }
  }

  /** `split` drops the empty piece a trailing separator leaves: "2016-1-1-"
      splits as "2016-1-1" does. */
  lemma JavaSplitTrailingSeparator(s: string, c: char)
    requires s != "" && s[|s| - 1] != c
    ensures JavaSplit(s + [c], c) == JavaSplit(s, c)
  {
    SplitOnAround(s, "", c);
    assert s + [c] + "" == s + [c];
    assert SplitOn("", c) == [""];
    SplitOnLastPiece(s, c);
    var parts := SplitOn(s, c);
    assert DropTrailingEmpty(parts + [""]) == DropTrailingEmpty(parts) by {
      assert (parts + [""])[..|parts|] == parts;
    }
    if c !in s {
      SplitOnWithout(s, c);
    }
    assert c in s + [c] by {
      assert (s + [c])[|s|] == c;
    }
  }

  function EndsWith(s: string, suffix: string): bool
  {
    |suffix| <= |s| && s[|s| - |suffix|..] == suffix
  }

  const MinInt: int := -0x8000_0000
  const MaxInt: int := 0x7fff_ffff

  predicate IsAsciiDigit(c: char)
  {
    '0' <= c <= '9'
  }

  predicate AllDigits(s: string)
  {
    forall i :: 0 <= i < |s| ==> IsAsciiDigit(s[i])
  }

  /** An optional sign followed by at least one digit. */
  predicate IntegerSyntax(s: string)
  {
    s != "" &&
    var start := if s[0] == '-' || s[0] == '+' then 1 else 0;
    start < |s| && forall i :: start <= i < |s| ==> IsAsciiDigit(s[i])
  }

  /** The value of a run of decimal digits, most significant first. */
  function DigitsValue(s: string): nat
    requires AllDigits(s)
  {
    if s == [] then 0
    else DigitsValue(s[..|s| - 1]) * 10 + (s[|s| - 1] as int - '0' as int)
  }

  /** `Integer.valueOf(s)` for names written with the ASCII digits '0' to
      '9': an optional sign followed by at least one digit, whose value fits
      in 32 bits; anything else is a NumberFormatException, here `None`. */
  function ParseInt(s: string): (r: Option<int>)
    ensures r.Some? ==> MinInt <= r.value <= MaxInt
  {
    if |s| == 0 then None
    else
      var signed := s[0] == '-' || s[0] == '+';
      var digits := if signed then s[1..] else s;
      if |digits| == 0 || !AllDigits(digits) then None
      else
        var v: int := if s[0] == '-' then 0 - (DigitsValue(digits) as int) else DigitsValue(digits);
        if MinInt <= v <= MaxInt then Some(v) else None
  }

  /** Only an optional sign followed by digits parses, and only a name
      with a minus sign parses to a negative number. A lemma rather than a
      postcondition, so that unfolding a scan does not drag it along. */
  lemma ParseIntSyntax(s: string)
    ensures ParseInt(s).Some? ==> IntegerSyntax(s)
    ensures ParseInt(s).Some? && ParseInt(s).value < 0 ==> s[0] == '-'
  {
  }

  function DigitChar(d: nat): char
    requires d < 10
  {
    ('0' as int + d) as char
  }

  /** The canonical decimal rendering of a natural number. */
  function Decimal(n: nat): (r: string)
    ensures |r| >= 1 && AllDigits(r)
  {
    if n < 10 then [DigitChar(n)] else Decimal(n / 10) + [DigitChar(n % 10)]
  }

  lemma {:induction false} DigitsValueDecimal(n: nat)
    ensures DigitsValue(Decimal(n)) == n
  {
    var r := Decimal(n);
    if n >= 10 {
      DigitsValueDecimal(n / 10);
      assert r[..|r| - 1] == Decimal(n / 10);
    } else {
      assert r[..0] == [];
    }
  }

  /** `k` zero digits. */
  function Zeros(k: nat): (r: string)
    ensures |r| == k
  {
    seq(k, _ => '0')
  }

  lemma {:induction false} DigitsValueZeros(k: nat)
    ensures AllDigits(Zeros(k)) && DigitsValue(Zeros(k)) == 0
  {
    if k > 0 {
      DigitsValueZeros(k - 1);
      assert Zeros(k)[..k - 1] == Zeros(k - 1);
    }
  }

  /** Leading zeros do not change the value of a run of digits. */
  lemma {:induction false} DigitsValueLeadingZeros(k: nat, d: string)
    requires AllDigits(d)
    ensures AllDigits(Zeros(k) + d) && DigitsValue(Zeros(k) + d) == DigitsValue(d)
    decreases |d|
  {
    var z := Zeros(k);
    DigitsValueZeros(k);
    if d == [] {
      assert z + d == z;
    } else {
      var init := d[..|d| - 1];
      DigitsValueLeadingZeros(k, init);
      assert (z + d)[..|z + d| - 1] == z + init;
    }
  }

  /** A zero-padded decimal name, such as the day directory "01", parses
      to the number it pads. */
  lemma ParseIntPadded(k: nat, n: nat)
    requires n <= MaxInt
    ensures ParseInt(Zeros(k) + Decimal(n)) == Some(n)
  {
    DigitsValueDecimal(n);
    DigitsValueLeadingZeros(k, Decimal(n));
    var s := Zeros(k) + Decimal(n);
    assert IsAsciiDigit(s[0]);
  }

  /** An explicit sign is accepted: "+n" parses to n, and "-n" to -n down
      to the smallest 32-bit value. */
  lemma ParseIntSigned(n: nat)
    requires n <= MaxInt + 1
    ensures n <= MaxInt ==> ParseInt("+" + Decimal(n)) == Some(n)
    ensures ParseInt("-" + Decimal(n)) == Some(-(n as int))
  {
    DigitsValueDecimal(n);
    assert ("+" + Decimal(n))[1..] == Decimal(n);
    assert ("-" + Decimal(n))[1..] == Decimal(n);
  }

  /** A name that is not an optional sign followed by digits fails, as
      "2016a" does. */
  lemma ParseIntRejectsLetters()
    ensures ParseInt("2016a").None? && ParseInt("").None? && ParseInt("-").None?
  {
    assert !IsAsciiDigit("2016a"[4]);
  }

  /** A directory named with the decimal rendering of a 32-bit natural
      number parses back to that number. */
  lemma ParseIntDecimal(n: nat)
    requires n <= MaxInt
    ensures ParseInt(Decimal(n)) == Some(n)
  {
    DigitsValueDecimal(n);
  }
}
