/**
 * The edit route's wrapper component: the editing index is read back from the
 * last `/`-separated segment of the current pathname with parseInt(_, 10).
 */
module ExperienceEdit {
  import opened Wrappers
  import opened Decimal
  import Home

  /** `path.split("/").pop()`: the text after the last "/", or all of `path` when it has none. */
  function LastSegment(path: string): (seg: string)
    ensures |seg| <= |path| && seg == path[|path| - |seg|..]
    ensures '/' !in seg
    ensures |seg| < |path| ==> path[|path| - |seg| - 1] == '/'
  {
    if path == [] || path[|path| - 1] == '/' then []
    else LastSegment(path[..|path| - 1]) + [path[|path| - 1]]
  }

  /** The longest prefix of `s` made of decimal digits. */
  function LeadingDigits(s: string): (d: string)
    ensures d <= s && AllDigits(d)
    ensures |d| < |s| ==> !IsDigit(s[|d|])
  {
    if s == [] || !IsDigit(s[0]) then [] else [s[0]] + LeadingDigits(s[1..])
  }

  /** `s` without the one leading "+" or "-" parseInt accepts. */
  function Unsigned(s: string): (u: string)
    ensures |s| - 1 <= |u| <= |s| && u == s[|s| - |u|..]
    ensures |u| < |s| <==> (s != [] && (s[0] == '+' || s[0] == '-'))
  {
    if s != [] && (s[0] == '+' || s[0] == '-') then s[1..] else s
  }

  /** The value of the digit run `s` begins with; `None` when it begins with no digit. */
  function Magnitude(s: string): (r: Option<int>)
    ensures r.None? <==> (s == [] || !IsDigit(s[0]))
    ensures r.Some? ==> r.value >= 0
  {
    var digits := LeadingDigits(s);
    if digits == [] then None else Some(Value(digits))
  }

  /**
   * parseInt(s, 10) on text without leading whitespace: an optional sign,
   * then the longest run of digits; `None` (NaN) when that run is empty.
   */
  function ParseInt(s: string): (r: Option<int>)
    ensures r.None? <==> (Unsigned(s) == [] || !IsDigit(Unsigned(s)[0]))
    ensures r.Some? && s != [] && s[0] == '-' ==> r.value <= 0
    ensures r.Some? && !(s != [] && s[0] == '-') ==> r.value >= 0
  {
    match Magnitude(Unsigned(s))
    case None => None
    case Some(m) => Some(if s != [] && s[0] == '-' then -m else m)
  }

  /** The index ExperienceEdit passes to the form for the current pathname. */
  function EditIndex(pathname: string): (r: Option<int>)
    ensures r.None? <==> Magnitude(Unsigned(LastSegment(pathname))).None?
  {
    ParseInt(LastSegment(pathname))
  }

  /** The digit run of a digit string followed by a non-digit (or by nothing) is that string. */
  lemma {:induction false} LeadingDigitsOf(digits: string, rest: string)
    requires AllDigits(digits)
    requires rest == [] || !IsDigit(rest[0])
    ensures LeadingDigits(digits + rest) == digits
  {
    if digits != [] {
      assert (digits + rest)[1..] == digits[1..] + rest;
      LeadingDigitsOf(digits[1..], rest);
    } else {
      assert digits + rest == rest;
    }
  }

  /** A string made only of digits is its own digit run. */
  lemma LeadingDigitsOfAll(s: string)
    requires AllDigits(s)
    ensures LeadingDigits(s) == s
  {
    LeadingDigitsOf(s, []);
    assert s + [] == s;
  }

  /** A non-empty digit string has the magnitude it denotes. */
  lemma MagnitudeOfDigits(s: string)
    requires s != [] && AllDigits(s)
    ensures Magnitude(s) == Some(Value(s))
  {
    LeadingDigitsOfAll(s);
  }

  /** A segment made only of digits parses to the number it denotes. */
  lemma ParseIntOfDigits(s: string)
    requires s != [] && AllDigits(s)
    ensures ParseInt(s) == Some(Value(s))
  {
    assert IsDigit(s[0]);
    assert Unsigned(s) == s;
    MagnitudeOfDigits(s);
  }

  /** A "-" in front of a run of magnitude `m` gives `-m`. */
  lemma ParseIntOfMinus(t: string, m: int)
    requires t != [] && t[0] == '-'
    requires Magnitude(t[1..]) == Some(m)
    ensures ParseInt(t) == Some(-m)
  {
  }

  /** Digits after a "-" parse to minus their value. */
  lemma ParseIntOfNegative(s: string)
    requires s != [] && AllDigits(s)
    ensures ParseInt("-" + s).Some? && ParseInt("-" + s).value + Value(s) == 0
  {
    var t := "-" + s;
    assert t[1..] == s;
    MagnitudeOfDigits(s);
    ParseIntOfMinus(t, Value(s));
  }

  /** Text after the digits is ignored: parseInt stops at the first non-digit. */
  lemma ParseIntStopsAtNonDigit(s: string, rest: string)
    requires s != [] && AllDigits(s)
    requires rest != [] && !IsDigit(rest[0])
    ensures ParseInt(s + rest) == Some(Value(s))
  {
    LeadingDigitsOf(s, rest);
  }

  /** The last segment of `<prefix>/<seg>` is `seg` when `seg` holds no "/". */
  lemma {:induction false} LastSegmentAfterSlash(prefix: string, seg: string)
    requires '/' !in seg
    ensures LastSegment(prefix + "/" + seg) == seg
  {
    if seg != [] {
      var p := prefix + "/" + seg;
      assert p[..|p| - 1] == prefix + "/" + seg[..|seg| - 1];
      LastSegmentAfterSlash(prefix, seg[..|seg| - 1]);
    }
  }

  /** Digits after a "+" parse to their value. */
  lemma ParseIntOfPositive(s: string)
    requires s != [] && AllDigits(s)
    ensures ParseInt("+" + s) == Some(Value(s))
  {
    var t := "+" + s;
    assert t != [] && t[0] == '+' && t[1..] == s;
    assert Unsigned(t) == s;
    MagnitudeOfDigits(s);
    assert Magnitude(Unsigned(t)) == Some(Value(s));
  }

  /** Any path whose last segment is a digit string gives that segment's value as the index. */
  lemma EditIndexOfDigitSegment(prefix: string, n: string)
    requires n != [] && AllDigits(n)
    ensures EditIndex(prefix + "/" + n) == Some(Value(n))
  {
    assert '/' !in n by {
      forall k | 0 <= k < |n| ensures n[k] != '/' {
        assert IsDigit(n[k]);
      }
    }
    LastSegmentAfterSlash(prefix, n);
    ParseIntOfDigits(n);
  }

  /** A trailing "/" leaves an empty last segment, which parses to NaN. */
  lemma EditIndexOfTrailingSlash(prefix: string)
    ensures EditIndex(prefix + "/") == None
  {
    assert LastSegment(prefix + "/") == [];
  }

  /** "-0" reads as 0, and "0x10" stops at the "x" and reads as 0. */
  lemma ParseIntEdgeCases()
    ensures ParseInt("-" + "0") == Some(0)
    ensures ParseInt("0" + "x10") == Some(0)
  {
    assert AllDigits("0");
    assert Value("0") == 0;
    ParseIntOfNegative("0");
    ParseIntStopsAtNonDigit("0", "x10");
  }

  /** Opening the path a card click navigates to recovers that card's index. */
  lemma EditIndexOfEditPath(index: nat)
    ensures EditIndex(Home.EditPath(index)) == Some(index)
  {
    var p := Home.EditPath(index);
    assert p == "/edit" + "/" + p[6..];
    EditIndexOfDigitSegment("/edit", p[6..]);
  }
}
