/**
 * The parts of Go's `strings`, `strconv` and `fmt` packages that the core's
 * parsers rely on, over strings seen as sequences of runes.
 */
module Text {
  import opened Wrappers
  import opened GoTypes

  // ---------------------------------------------------------------------------
  // Whitespace and `strings.TrimSpace`
  // ---------------------------------------------------------------------------

  /**
   * The runes `unicode.IsSpace` accepts: TAB, LF, VT, FF, CR, space, NEL,
   * NBSP, and the Unicode White_Space runes beyond the Latin-1 range.
   */
  const SpaceRunes: set<char> := {
    '\t', '\n', '\U{000B}', '\U{000C}', '\r', ' ', '\U{0085}', '\U{00A0}', '\U{1680}',
    '\U{2000}', '\U{2001}', '\U{2002}', '\U{2003}', '\U{2004}', '\U{2005}',
    '\U{2006}', '\U{2007}', '\U{2008}', '\U{2009}', '\U{200A}',
    '\U{2028}', '\U{2029}', '\U{202F}', '\U{205F}', '\U{3000}'
  }

  /** `unicode.IsSpace`. */
  predicate IsSpace(c: char)
  {
    c in SpaceRunes
  }

  /** Every rune of `s` is white space (so `s` is blank once trimmed). */
  predicate AllSpace(s: string)
  {
    forall k :: 0 <= k < |s| ==> IsSpace(s[k])
  }

  /** Number of white-space runes at the start of `s`. */
  function LeadingSpace(s: string): (n: nat)
    ensures n <= |s| && AllSpace(s[..n])
    ensures n < |s| ==> !IsSpace(s[n])
  {
    if s != [] && IsSpace(s[0]) then
      var n := 1 + LeadingSpace(s[1..]);
      assert AllSpace(s[..n]) by { LeadingSpaceStep(s, n - 1); }
      n
    else 0
  }

  /** Number of white-space runes at the end of `s`. */
  function TrailingSpace(s: string): (n: nat)
    ensures n <= |s| && AllSpace(s[|s| - n..])
    ensures n < |s| ==> !IsSpace(s[|s| - n - 1])
  {
    if s != [] && IsSpace(s[|s| - 1]) then
      var n := 1 + TrailingSpace(s[..|s| - 1]);
      assert AllSpace(s[|s| - n..]) by { TrailingSpaceStep(s, n - 1); }
      n
    else 0
  }

  /** A white-space rune followed by `m` white-space runes starts `s` with `m + 1` of them. */
  lemma LeadingSpaceStep(s: string, m: nat)
    requires m < |s| && IsSpace(s[0]) && AllSpace(s[1..][..m])
    ensures AllSpace(s[..m + 1])
  {
    var p := s[..m + 1];
    forall k | 0 <= k < |p|
      ensures IsSpace(p[k])
    {
      if k > 0 {
        assert p[k] == s[1..][..m][k - 1];
      }
    }
  }

  /** `m` white-space runes followed by a white-space rune end `s` with `m + 1` of them. */
  lemma TrailingSpaceStep(s: string, m: nat)
    requires m < |s| && IsSpace(s[|s| - 1]) && AllSpace(s[..|s| - 1][|s| - 1 - m..])
    ensures AllSpace(s[|s| - 1 - m..])
  {
    var p := s[|s| - 1 - m..];
    forall k | 0 <= k < |p|
      ensures IsSpace(p[k])
    {
      if k < m {
        assert p[k] == s[..|s| - 1][|s| - 1 - m..][k];
      }
    }
  }

  /**
   * `strings.TrimSpace`: skip the white space at the start, then the white
   * space at the end of what remains, and keep the infix in between.
   */
  function TrimSpace(s: string): (r: string)
    ensures |r| <= |s|
    ensures r == [] || (!IsSpace(r[0]) && !IsSpace(r[|r| - 1]))
  {
    var start := LeadingSpace(s);
    var t := s[start..];
    var n := TrailingSpace(t);
    var stop := |s| - n;
    assert start < stop ==> s[start..stop][stop - start - 1] == t[|t| - n - 1];
    s[start..stop]
  }

  /**
   * What TrimSpace keeps and drops: the trimmed text is the infix of `s` that
   * starts after the leading white space, all that is cut off on either side
   * is white space, and the kept text neither starts nor ends with it.
   */
  lemma TrimSpaceShape(s: string)
    ensures var i, r := LeadingSpace(s), TrimSpace(s);
      && i + |r| <= |s| && r == s[i..i + |r|]
      && AllSpace(s[..i]) && AllSpace(s[i + |r|..])
      && (r == [] || (!IsSpace(r[0]) && !IsSpace(r[|r| - 1])))
  {
    TrimSpaceInfix(s);
    TrimSpaceDropsSpace(s);
  }

  /** TrimSpace keeps the infix that starts where the leading white space ends. */
  lemma TrimSpaceInfix(s: string)
    ensures var i, r := LeadingSpace(s), TrimSpace(s);
      i + |r| <= |s| && r == s[i..i + |r|]
  {
    var i := LeadingSpace(s);
    TrimSpaceLength(s, i, TrailingSpace(s[i..]));
  }

  /** What TrimSpace cuts off after the kept infix is white space. */
  lemma TrimSpaceDropsSpace(s: string)
    ensures var i, r := LeadingSpace(s), TrimSpace(s);
      i + |r| <= |s| && AllSpace(s[i + |r|..])
  {
    var i := LeadingSpace(s);
    var n := TrailingSpaceOfSuffix(s, i);
    TrimSpaceLength(s, i, n);
  }

  /** The white space at the end of a suffix of `s` is white space at the end of `s`. */
  lemma TrailingSpaceOfSuffix(s: string, i: nat) returns (n: nat)
    requires i <= |s|
    ensures n == TrailingSpace(s[i..]) && i + n <= |s| && AllSpace(s[|s| - n..])
  {
    n := TrailingSpace(s[i..]);
    SuffixOfSuffix(s, i, n);
  }

  /** TrimSpace keeps what lies between the leading and the trailing white space. */
  lemma TrimSpaceLength(s: string, i: nat, n: nat)
    requires i == LeadingSpace(s) && n == TrailingSpace(s[i..])
    ensures i + n <= |s| && TrimSpace(s) == s[i..|s| - n] && |TrimSpace(s)| == |s| - n - i
  {
  }

  /** The last `n` runes of a suffix of `s` are the last `n` runes of `s`. */
  lemma SuffixOfSuffix(s: string, i: nat, n: nat)
    requires i <= |s| && n <= |s| - i
    ensures s[i..][|s| - i - n..] == s[|s| - n..]
  {
  }

  /** A string is blank after trimming exactly when all of it is white space. */
  lemma TrimSpaceEmptyIffAllSpace(s: string)
    ensures TrimSpace(s) == [] <==> AllSpace(s)
  {
    if TrimSpace(s) == [] {
      AllSpaceOfTrimmedEmpty(s);
    }
    if AllSpace(s) {
      TrimmedEmptyOfAllSpace(s);
    }
  }

  /** A string that trims to nothing is all white space. */
  lemma AllSpaceOfTrimmedEmpty(s: string)
    requires TrimSpace(s) == []
    ensures AllSpace(s)
  {
    var i := LeadingSpace(s);
    TrimSpaceDropsSpace(s);
    AllSpaceOfHalves(s, i);
  }

  /** A string that is all white space trims to nothing. */
  lemma TrimmedEmptyOfAllSpace(s: string)
    requires AllSpace(s)
    ensures TrimSpace(s) == []
  {
    assert LeadingSpace(s) == |s|;
    TrimSpaceInfix(s);
  }

  /** A string whose two halves around `i` are white space is white space. */
  lemma AllSpaceOfHalves(s: string, i: nat)
    requires i <= |s| && AllSpace(s[..i]) && AllSpace(s[i..])
    ensures AllSpace(s)
  {
    forall k | 0 <= k < |s|
      ensures IsSpace(s[k])
    {
      if k < i {
        assert s[k] == s[..i][k];
      } else {
        assert s[k] == s[i..][k - i];
      }
    }
  }

  /** A string without white space at either end is its own trim. */
  lemma TrimSpaceOfTrimmed(s: string)
    requires s == [] || (!IsSpace(s[0]) && !IsSpace(s[|s| - 1]))
    ensures TrimSpace(s) == s
  {
    assert s[0..] == s;
    assert s[0..|s|] == s;
  }

  /** Trimming twice is trimming once. */
  lemma TrimSpaceIdempotent(s: string)
    ensures TrimSpace(TrimSpace(s)) == TrimSpace(s)
  {
    TrimSpaceShape(s);
    TrimSpaceOfTrimmed(TrimSpace(s));
  }

  /** Leading white space followed by a non-blank start is counted exactly. */
  lemma {:induction false} LeadingSpaceOfPadded(pre: string, rest: string)
    requires AllSpace(pre)
    requires rest == [] || !IsSpace(rest[0])
    ensures LeadingSpace(pre + rest) == |pre|
  {
    if pre == [] {
      assert pre + rest == rest;
    } else {
      LeadingSpaceOfPadded(pre[1..], rest);
      assert (pre + rest)[1..] == pre[1..] + rest;
    }
  }

  /** Trailing white space after a non-blank end is counted exactly. */
  lemma {:induction false} TrailingSpaceOfPadded(rest: string, post: string)
    requires AllSpace(post)
    requires rest == [] || !IsSpace(rest[|rest| - 1])
    ensures TrailingSpace(rest + post) == |post|
  {
    if post == [] {
      assert rest + post == rest;
    } else {
      var s := rest + post;
      TrailingSpaceOfPadded(rest, post[..|post| - 1]);
      assert s[..|s| - 1] == rest + post[..|post| - 1];
      assert s[|s| - 1] == post[|post| - 1] && IsSpace(s[|s| - 1]);
      assert TrailingSpace(s) == 1 + TrailingSpace(s[..|s| - 1]);
    }
  }

  /** Text with no white space at either end, padded with white space, trims back to itself. */
  lemma TrimSpacePadded(pre: string, mid: string, post: string)
    requires AllSpace(pre) && AllSpace(post)
    requires mid != [] && !IsSpace(mid[0]) && !IsSpace(mid[|mid| - 1])
    ensures TrimSpace(pre + mid + post) == mid
  {
    var s := pre + mid + post;
    assert s == pre + (mid + post);
    LeadingSpaceOfPadded(pre, mid + post);
    assert s[|pre|..] == mid + post;
    TrailingSpaceOfPadded(mid, post);
    assert s[|pre|..|s| - |post|] == mid;
  }

  // ---------------------------------------------------------------------------
  // `strings.ToLower`
  // ---------------------------------------------------------------------------

  /**
   * Go's `unicode.ToLower` on the runes that it maps into ASCII: `A`-`Z`,
   * LATIN CAPITAL LETTER I WITH DOT ABOVE (to `i`) and KELVIN SIGN (to `k`).
   * Every other rune is kept; Go maps some of those to other non-ASCII runes,
   * which no comparison with an ASCII word can tell apart.
   */
  function LowerRune(c: char): char
  {
    if 'A' <= c <= 'Z' then (c as int + 32) as char
    else if c == '\U{0130}' then 'i'
    else if c == '\U{212A}' then 'k'
    else c
  }

  /** `strings.ToLower`, rune by rune. */
  function ToLower(s: string): (r: string)
    ensures |r| == |s|
    ensures forall k :: 0 <= k < |s| ==> r[k] == LowerRune(s[k])
  {
    if s == [] then [] else [LowerRune(s[0])] + ToLower(s[1..])
  }

  /** An ASCII lower-case word is its own lower case. */
  predicate IsLowerAscii(s: string)
  {
    forall k :: 0 <= k < |s| ==> ('a' <= s[k] <= 'z' || '0' <= s[k] <= '9' || s[k] == '.' || s[k] == '_')
  }

  lemma ToLowerOfLower(s: string)
    requires IsLowerAscii(s)
    ensures ToLower(s) == s
  {
  }

  /** A word that lower-cases to a non-empty lower-case word has no white space at its ends. */
  lemma LowersToWordEnds(s: string, w: string)
    requires w != [] && IsLowerAscii(w) && ToLower(s) == w
    ensures s != [] && !IsSpace(s[0]) && !IsSpace(s[|s| - 1])
  {
    WordCharFromNonSpace(s[0], w[0]);
    WordCharFromNonSpace(s[|s| - 1], w[|w| - 1]);
  }

  /** Lower-casing leaves white space as it is. */
  lemma LowerRuneOfSpace(c: char)
    requires IsSpace(c)
    ensures LowerRune(c) == c
  {
  }

  /** A rune that lower-cases to a letter, digit, '.' or '_' is not white space. */
  lemma WordCharFromNonSpace(c: char, d: char)
    requires LowerRune(c) == d && ('a' <= d <= 'z' || '0' <= d <= '9' || d == '.' || d == '_')
    ensures !IsSpace(c)
  {
    if IsSpace(c) {
      LowerRuneOfSpace(c);
    }
  }

  /** A lower-case word is its own normal form: trimming and lower-casing leave it alone. */
  lemma NormaliseOfLower(s: string)
    requires IsLowerAscii(s)
    ensures ToLower(TrimSpace(s)) == s
  {
    if s != [] {
      assert !IsSpace(s[0]) && !IsSpace(s[|s| - 1]);
    }
    TrimSpaceOfTrimmed(s);
    ToLowerOfLower(s);
  }

  // ---------------------------------------------------------------------------
  // `strings.Split` with a one-rune separator, and its inverse `strings.Join`
  // ---------------------------------------------------------------------------

  /** `strings.Split(s, sep)`: the pieces between separators; always at least one. */
  function Split(s: string, sep: char): (parts: seq<string>)
    ensures |parts| >= 1
    ensures forall i :: 0 <= i < |parts| ==> sep !in parts[i]
  {
    if s == [] then [[]]
    else
      var rest := Split(s[1..], sep);
      if s[0] == sep then [[]] + rest else [[s[0]] + rest[0]] + rest[1..]
  }

  /**
   * `strings.Join(parts, sep)`: the pieces with one separator between each
   * two, so pieces without separators give exactly `|parts| - 1` of them.
   */
  function Join(parts: seq<string>, sep: char): (r: string)
    requires |parts| >= 1
    ensures (forall i :: 0 <= i < |parts| ==> sep !in parts[i]) ==> Count(r, sep) == |parts| - 1
  {
    if |parts| == 1 then
      CountAbsent(parts[0], sep);
      parts[0]
    else
      var rest := Join(parts[1..], sep);
      assert (forall i :: 0 <= i < |parts| ==> sep !in parts[i]) ==>
        forall i :: 0 <= i < |parts[1..]| ==> sep !in parts[1..][i] by {
        if forall i :: 0 <= i < |parts| ==> sep !in parts[i] {
          forall i | 0 <= i < |parts[1..]|
            ensures sep !in parts[1..][i]
          {
            assert parts[1..][i] == parts[i + 1];
          }
        }
      }
      CountConcat(parts[0] + [sep], rest, sep);
      CountConcat(parts[0], [sep], sep);
      CountAbsent(parts[0], sep);
      parts[0] + [sep] + rest
  }

  /** Number of occurrences of `c` in `s`. */
  function Count(s: string, c: char): nat
  {
    if s == [] then 0 else (if s[0] == c then 1 else 0) + Count(s[1..], c)
  }

  /** Occurrences in a concatenation add up. */
  lemma {:induction false} CountConcat(a: string, b: string, c: char)
    ensures Count(a + b, c) == Count(a, c) + Count(b, c)
  {
    if a != [] {
      CountConcat(a[1..], b, c);
      assert (a + b)[1..] == a[1..] + b;
    } else {
      assert a + b == b;
    }
  }

  /** A string without `c` holds it zero times. */
  lemma {:induction false} CountAbsent(s: string, c: char)
    ensures c !in s ==> Count(s, c) == 0
  {
    if s != [] {
      CountAbsent(s[1..], c);
    }
  }

  /** Split yields one piece more than there are separators. */
  lemma {:induction false} SplitCount(s: string, sep: char)
    ensures |Split(s, sep)| == Count(s, sep) + 1
  {
    if s != [] {
      SplitCount(s[1..], sep);
    }
  }

  /** Joining the pieces of a split gives the string back. */
  lemma {:induction false} JoinSplit(s: string, sep: char)
    ensures Join(Split(s, sep), sep) == s
  {
    if s != [] {
      var rest := Split(s[1..], sep);
      JoinSplit(s[1..], sep);
      if s[0] == sep {
        assert Split(s, sep)[1..] == rest;
      } else {
        var parts := Split(s, sep);
        if |rest| == 1 {
          assert parts == [[s[0]] + rest[0]];
        } else {
          assert parts[1..] == rest[1..];
          assert Join(rest, sep) == rest[0] + [sep] + Join(rest[1..], sep);
        }
      }
    }
  }

  /** A piece without separator followed by a separator is split off whole. */
  lemma {:induction false} SplitPrefix(p: string, sep: char, rest: string)
    requires sep !in p
    ensures Split(p + [sep] + rest, sep) == [p] + Split(rest, sep)
  {
    if p != [] {
      SplitPrefix(p[1..], sep, rest);
      assert (p + [sep] + rest)[1..] == p[1..] + [sep] + rest;
      assert [p[0]] + p[1..] == p;
    } else {
      assert (p + [sep] + rest)[1..] == rest;
    }
  }

  /** A string without separator splits into itself. */
  lemma {:induction false} SplitNoSeparator(p: string, sep: char)
    requires sep !in p
    ensures Split(p, sep) == [p]
  {
    if p != [] {
      SplitNoSeparator(p[1..], sep);
      assert [p[0]] + p[1..] == p;
    }
  }

  /** Splitting a join of separator-free pieces gives the pieces back. */
  lemma {:induction false} SplitJoin(parts: seq<string>, sep: char)
    requires |parts| >= 1
    requires forall i :: 0 <= i < |parts| ==> sep !in parts[i]
    ensures Split(Join(parts, sep), sep) == parts
  {
    if |parts| == 1 {
      SplitNoSeparator(parts[0], sep);
    } else {
      SplitJoin(parts[1..], sep);
      SplitPrefix(parts[0], sep, Join(parts[1..], sep));
    }
  }

  // ---------------------------------------------------------------------------
  // Decimal digits: `fmt`'s `%d`, `strconv.Atoi`
  // ---------------------------------------------------------------------------

  predicate IsDigit(c: char)
  {
    '0' <= c <= '9'
  }

  predicate AllDigits(s: string)
  {
    forall k :: 0 <= k < |s| ==> IsDigit(s[k])
  }

  function DigitChar(d: nat): (c: char)
    requires d < 10
    ensures IsDigit(c)
  {
    ('0' as int + d) as char
  }

  /** The value of a run of decimal digits, leading zeros allowed. */
  function DigitsValue(s: string): nat
    requires AllDigits(s)
  {
    if s == [] then 0 else DigitsValue(s[..|s| - 1]) * 10 + (s[|s| - 1] as int - '0' as int)
  }

  /** A leading zero does not change the value of a run of digits. */
  lemma {:induction false} DigitsValueLeadingZero(d: string)
    requires AllDigits(d)
    ensures AllDigits("0" + d) && DigitsValue("0" + d) == DigitsValue(d)
  {
    var s := "0" + d;
    if d == [] {
      assert s[..|s| - 1] == [];
    } else {
      DigitsValueLeadingZero(d[..|d| - 1]);
      assert s[..|s| - 1] == "0" + d[..|d| - 1];
      assert s[|s| - 1] == d[|d| - 1];
    }
  }

  /** `%d` of a non-negative value: decimal, no sign, no leading zeros. */
  function FormatNat(n: nat): (s: string)
    ensures |s| >= 1 && AllDigits(s)
    ensures s[0] == '0' ==> n == 0
  {
    if n < 10 then [DigitChar(n)] else FormatNat(n / 10) + [DigitChar(n % 10)]
  }

  /** `strconv.Itoa` / `%d` of any integer. */
  function FormatInt(n: int): (s: string)
  {
    if n < 0 then ['-'] + FormatNat(-n) else FormatNat(n)
  }

  /** Reading back a formatted number gives the number. */
  lemma {:induction false} DigitsValueOfFormat(n: nat)
    ensures DigitsValue(FormatNat(n)) == n
  {
    if n >= 10 {
      var s := FormatNat(n);
      DigitsValueOfFormat(n / 10);
      assert s[..|s| - 1] == FormatNat(n / 10);
    }
  }

  /** Length of the run of digits at the start of `s`. */
  function DigitRun(s: string): (n: nat)
    ensures n <= |s| && AllDigits(s[..n])
    ensures n < |s| ==> !IsDigit(s[n])
  {
    if s != [] && IsDigit(s[0]) then
      var n := 1 + DigitRun(s[1..]);
      assert AllDigits(s[..n]) by { DigitRunStep(s, n - 1); }
      n
    else 0
  }

  /** A digit followed by `m` digits starts `s` with `m + 1` digits. */
  lemma DigitRunStep(s: string, m: nat)
    requires m < |s| && IsDigit(s[0]) && AllDigits(s[1..][..m])
    ensures AllDigits(s[..m + 1])
  {
    var p := s[..m + 1];
    forall k | 0 <= k < |p|
      ensures IsDigit(p[k])
    {
      if k > 0 {
        assert p[k] == s[1..][..m][k - 1];
      }
    }
  }

  /** A digit run stops right where the digits of `p` end. */
  lemma {:induction false} DigitRunOfPrefix(p: string, rest: string)
    requires AllDigits(p)
    requires rest == [] || !IsDigit(rest[0])
    ensures DigitRun(p + rest) == |p|
  {
    if p != [] {
      DigitRunOfPrefix(p[1..], rest);
      assert (p + rest)[1..] == p[1..] + rest;
    } else {
      assert p + rest == rest;
    }
  }

  /**
   * `strconv.Atoi` on a 64-bit platform: an optional sign followed by one or
   * more ASCII digits and nothing else, whose value fits in `int`. Which of
   * the syntax and range errors Go reports is not modelled: no caller looks.
   */
  function Atoi(s: string): (r: Option<int>)
    ensures r.Some? ==> MinInt <= r.value <= MaxInt
    ensures r.Some? ==> |s| >= 1 && (IsDigit(s[0]) || s[0] == '+' || s[0] == '-') && AllDigits(s[1..])
  {
    var signed := |s| > 0 && (s[0] == '+' || s[0] == '-');
    var digits := if signed then s[1..] else s;
    if digits == [] || !AllDigits(digits) then None
    else
      var v: int := if |s| > 0 && s[0] == '-' then -(DigitsValue(digits) as int) else DigitsValue(digits);
      if MinInt <= v <= MaxInt then Some(v) else None
  }

  /** Atoi reads back every `int` that Itoa writes. */
  lemma AtoiFormatInt(n: int)
    requires MinInt <= n <= MaxInt
    ensures Atoi(FormatInt(n)) == Some(n)
  {
    var s := FormatInt(n);
    if n < 0 {
      DigitsValueOfFormat(-n);
      assert s[0] == '-';
      assert s[1..] == FormatNat(-n);
    } else {
      DigitsValueOfFormat(n);
      assert IsDigit(s[0]);
    }
  }

  /**
   * Atoi on any run of digits, also with leading zeros and with a `+` or `-`
   * in front: the value is the digits' value with the sign applied, accepted
   * exactly when it fits in 64 bits.
   */
  lemma AtoiOfDigits(d: string)
    requires d != [] && AllDigits(d)
    ensures DigitsValue(d) <= MaxInt ==> Atoi(d) == Some(DigitsValue(d)) && Atoi("+" + d) == Some(DigitsValue(d))
    ensures DigitsValue(d) > MaxInt ==> Atoi(d) == None && Atoi("+" + d) == None
    ensures DigitsValue(d) <= -MinInt ==> Atoi("-" + d) == Some(-(DigitsValue(d) as int))
    ensures DigitsValue(d) > -MinInt ==> Atoi("-" + d) == None
  {
    AtoiOfBareDigits(d);
    AtoiOfSignedDigits('+', d);
    AtoiOfSignedDigits('-', d);
  }

  /** Atoi on digits without a sign. */
  lemma AtoiOfBareDigits(d: string)
    requires d != [] && AllDigits(d)
    ensures Atoi(d) == if DigitsValue(d) <= MaxInt then Some(DigitsValue(d) as int) else None
  {
    assert IsDigit(d[0]);
  }

  /** Atoi on a sign followed by digits. */
  lemma AtoiOfSignedDigits(sign: char, d: string)
    requires sign == '+' || sign == '-'
    requires d != [] && AllDigits(d)
    ensures var v: int := if sign == '-' then -(DigitsValue(d) as int) else DigitsValue(d);
      Atoi([sign] + d) == if MinInt <= v <= MaxInt then Some(v) else None
  {
    var s := [sign] + d;
    assert s[0] == sign && s[1..] == d;
  }

  /** Digits and signs are not white space. */
  lemma NumberRuneIsNotSpace(c: char)
    requires IsDigit(c) || c == '+' || c == '-'
    ensures !IsSpace(c)
  {
  }

  /** A trailing white-space rune makes Atoi fail. */
  lemma AtoiRejectsTrailingSpace(s: string)
    requires |s| > 0 && IsSpace(s[|s| - 1])
    ensures Atoi(s) == None
  {
    var signed := |s| > 0 && (s[0] == '+' || s[0] == '-');
    var digits := if signed then s[1..] else s;
    if digits != [] {
      assert digits[|digits| - 1] == s[|s| - 1];
    }
  }

  /** A leading white-space rune makes Atoi fail. */
  lemma AtoiRejectsLeadingSpace(s: string)
    requires |s| > 0 && IsSpace(s[0])
    ensures Atoi(s) == None
  {
  }

  // ---------------------------------------------------------------------------
  // `fmt.Sscanf`: literal text and the `%d` verb
  // ---------------------------------------------------------------------------

  /**
   * Literal text of a format: it must be the next input, rune for rune; a
   * mismatch and the end of input are both errors.
   */
  function ExpectLiteral(lit: string, s: string): (r: Option<string>)
    ensures r.Some? <==> lit <= s
    ensures r.Some? ==> s == lit + r.value
  {
    if lit <= s then Some(s[|lit|..]) else None
  }

  /**
   * Sscanf's skipping of white space before a verb; a newline there is an
   * error ("unexpected newline"), since Sscanf does not treat it as space.
   */
  function SkipSpace(s: string): (r: Option<string>)
    ensures r.Some? ==> |r.value| <= |s| && r.value == s[|s| - |r.value|..]
    ensures r.Some? ==> r.value == [] || !IsSpace(r.value[0])
  {
    if s == [] then Some(s)
    else if s[0] == '\n' then None
    else if IsSpace(s[0]) then SkipSpace(s[1..])
    else Some(s)
  }

  /**
   * The digits of a `%d` verb after any sign: the longest run of digits (at
   * least one), negated when the sign was '-'; the value must fit `lo..hi`.
   * Gives the value and the unread input.
   */
  function ScanDigits(u: string, negative: bool, lo: int, hi: int): (r: Option<(int, string)>)
    ensures r.Some? ==> lo <= r.value.0 <= hi
  {
    var n := DigitRun(u);
    if n == 0 then None
    else
      var mag := DigitsValue(u[..n]);
      var v: int := if negative then -(mag as int) else mag;
      if lo <= v <= hi then Some((v, u[n..])) else None
  }

  /**
   * One `%d` verb of Sscanf into an integer variable with range `lo..hi`:
   * skip spaces, an optional sign when the variable is signed, then the
   * digits. Gives the value and the unread input, which Sscanf leaves unread.
   */
  function ScanDecimal(s: string, signed: bool, lo: int, hi: int): (r: Option<(int, string)>)
    ensures r.Some? ==> lo <= r.value.0 <= hi
  {
    match SkipSpace(s)
    case None => None
    case Some(t) =>
      if t == [] then None
      else
        var hasSign := signed && (t[0] == '+' || t[0] == '-');
        ScanDigits(if hasSign then t[1..] else t, hasSign && t[0] == '-', lo, hi)
  }

  /** Any run of digits reads back as its value, with the sign applied, and the scan stops right after it. */
  lemma ScanDigitsOfDigits(d: string, rest: string, negative: bool, lo: int, hi: int)
    requires d != [] && AllDigits(d)
    requires lo <= (if negative then -(DigitsValue(d) as int) else DigitsValue(d)) <= hi
    requires rest == [] || !IsDigit(rest[0])
    ensures ScanDigits(d + rest, negative, lo, hi) == Some((if negative then -(DigitsValue(d) as int) else DigitsValue(d), rest))
  {
    var u := d + rest;
    DigitRunOfPrefix(d, rest);
    assert u[..|d|] == d;
    assert u[|d|..] == rest;
  }

  /** Blanks other than a newline are skipped up to the first rune that is not white space. */
  lemma {:induction false} SkipSpaceOfPadded(pre: string, t: string)
    requires AllSpace(pre) && '\n' !in pre
    requires t == [] || !IsSpace(t[0])
    ensures SkipSpace(pre + t) == Some(t)
  {
    if pre == [] {
      assert pre + t == t;
    } else {
      assert IsSpace(pre[0]) && pre[0] != '\n';
      assert (pre + t)[0] == pre[0];
      BlanksTail(pre);
      SkipSpaceOfPadded(pre[1..], t);
      assert (pre + t)[1..] == pre[1..] + t;
    }
  }

  /** Dropping the first rune of blanks leaves blanks. */
  lemma BlanksTail(pre: string)
    requires pre != [] && AllSpace(pre) && '\n' !in pre
    ensures AllSpace(pre[1..]) && '\n' !in pre[1..]
  {
    forall k | 0 <= k < |pre[1..]|
      ensures IsSpace(pre[1..][k]) && pre[1..][k] != '\n'
    {
      assert pre[1..][k] == pre[k + 1];
    }
  }

  /**
   * `%d` reads any number Go's scanner accepts: blanks other than a newline,
   * a `+` or `-` when the variable is signed, then digits (leading zeros
   * allowed) whose value with the sign applied fits; it stops at the first
   * rune after the digits.
   */
  lemma ScanDecimalOfDigits(pre: string, sign: string, d: string, rest: string, signed: bool, lo: int, hi: int)
    requires AllSpace(pre) && '\n' !in pre
    requires sign == [] || (signed && (sign == "+" || sign == "-"))
    requires d != [] && AllDigits(d)
    requires lo <= (if sign == "-" then -(DigitsValue(d) as int) else DigitsValue(d)) <= hi
    requires rest == [] || !IsDigit(rest[0])
    ensures ScanDecimal(pre + (sign + (d + rest)), signed, lo, hi)
      == Some((if sign == "-" then -(DigitsValue(d) as int) else DigitsValue(d), rest))
  {
    var t := sign + (d + rest);
    assert IsDigit(d[0]);
    assert t[0] == (if sign == [] then d[0] else sign[0]);
    NumberRuneIsNotSpace(t[0]);
    ScanDecimalSkipsBlanks(pre, t, signed, lo, hi);
    ScanDecimalOfSigned(sign, d, rest, signed, lo, hi);
  }

  /** Blanks before a number do not change what `%d` reads. */
  lemma ScanDecimalSkipsBlanks(pre: string, t: string, signed: bool, lo: int, hi: int)
    requires AllSpace(pre) && '\n' !in pre
    requires t != [] && !IsSpace(t[0])
    ensures ScanDecimal(pre + t, signed, lo, hi) == ScanDecimal(t, signed, lo, hi)
  {
    SkipSpaceOfPadded(pre, t);
    SkipSpaceOfPadded([], t);
    assert [] + t == t;
  }

  /** `%d` on a sign the variable allows, then digits that fit. */
  lemma ScanDecimalOfSigned(sign: string, d: string, rest: string, signed: bool, lo: int, hi: int)
    requires sign == [] || (signed && (sign == "+" || sign == "-"))
    requires d != [] && AllDigits(d)
    requires lo <= (if sign == "-" then -(DigitsValue(d) as int) else DigitsValue(d)) <= hi
    requires rest == [] || !IsDigit(rest[0])
    ensures ScanDecimal(sign + (d + rest), signed, lo, hi)
      == Some((if sign == "-" then -(DigitsValue(d) as int) else DigitsValue(d), rest))
  {
    var u := d + rest;
    if sign == [] {
      assert sign + u == u;
      ScanDecimalOfBareDigits(d, rest, signed, lo, hi);
    } else {
      ScanDecimalOfSignRune(sign[0], d, rest, lo, hi);
      assert sign == [sign[0]];
    }
  }

  /** `%d` on digits without a sign. */
  lemma ScanDecimalOfBareDigits(d: string, rest: string, signed: bool, lo: int, hi: int)
    requires d != [] && AllDigits(d)
    requires lo <= DigitsValue(d) <= hi
    requires rest == [] || !IsDigit(rest[0])
    ensures ScanDecimal(d + rest, signed, lo, hi) == Some((DigitsValue(d) as int, rest))
  {
    var u := d + rest;
    assert IsDigit(d[0]) && u[0] == d[0];
    NumberRuneIsNotSpace(u[0]);
    assert SkipSpace(u) == Some(u);
    ScanDigitsOfDigits(d, rest, false, lo, hi);
  }

  /** `%d` into a signed variable on a sign followed by digits. */
  lemma ScanDecimalOfSignRune(c: char, d: string, rest: string, lo: int, hi: int)
    requires c == '+' || c == '-'
    requires d != [] && AllDigits(d)
    requires lo <= (if c == '-' then -(DigitsValue(d) as int) else DigitsValue(d)) <= hi
    requires rest == [] || !IsDigit(rest[0])
    ensures ScanDecimal([c] + (d + rest), true, lo, hi)
      == Some((if c == '-' then -(DigitsValue(d) as int) else DigitsValue(d), rest))
  {
    var t := [c] + (d + rest);
    assert t[0] == c && t[1..] == d + rest;
    NumberRuneIsNotSpace(c);
    assert SkipSpace(t) == Some(t);
    ScanDigitsOfDigits(d, rest, c == '-', lo, hi);
  }

  /** `%d` reads back a formatted non-negative value that fits, and stops right after it. */
  lemma ScanFormatNat(n: nat, rest: string, signed: bool, lo: int, hi: int)
    requires lo <= n <= hi
    requires rest == [] || !IsDigit(rest[0])
    ensures ScanDecimal(FormatNat(n) + rest, signed, lo, hi) == Some((n, rest))
  {
    DigitsValueOfFormat(n);
    ScanDecimalOfSigned([], FormatNat(n), rest, signed, lo, hi);
    assert [] + (FormatNat(n) + rest) == FormatNat(n) + rest;
  }

  /** `%d` into a signed variable reads back any formatted value that fits, and stops right after it. */
  lemma ScanFormatInt(n: int, rest: string, lo: int, hi: int)
    requires lo <= n <= hi
    requires rest == [] || !IsDigit(rest[0])
    ensures ScanDecimal(FormatInt(n) + rest, true, lo, hi) == Some((n, rest))
  {
    if n >= 0 {
      ScanFormatNat(n, rest, true, lo, hi);
    } else {
      assert FormatInt(n) + rest == "-" + (FormatNat(-n) + rest);
      ScanFormatNegative(-n, rest, lo, hi);
    }
  }

  /** `%d` into a signed variable reads back a formatted negative value that fits. */
  lemma ScanFormatNegative(m: nat, rest: string, lo: int, hi: int)
    requires m > 0 && lo <= -(m as int) <= hi
    requires rest == [] || !IsDigit(rest[0])
    ensures ScanDecimal("-" + (FormatNat(m) + rest), true, lo, hi) == Some((-(m as int), rest))
  {
    DigitsValueOfFormat(m);
    ScanDecimalOfSigned("-", FormatNat(m), rest, true, lo, hi);
  }

  /**
   * Literal text of a format followed by one `%d` verb: the literal must
   * come first, then the number as ScanDecimal reads it.
   */
  function ScanVerb(lit: string, s: string, signed: bool, lo: int, hi: int): (r: Option<(int, string)>)
    ensures r.Some? ==> lo <= r.value.0 <= hi
    ensures r.Some? ==> lit <= s
  {
    match ExpectLiteral(lit, s)
    case None => None
    case Some(t) => ScanDecimal(t, signed, lo, hi)
  }

  /** A literal followed by a formatted value that fits reads back that value. */
  lemma ScanVerbOfFormat(lit: string, n: int, rest: string, signed: bool, lo: int, hi: int)
    requires lo <= n <= hi && (signed || n >= 0)
    requires rest == [] || !IsDigit(rest[0])
    ensures ScanVerb(lit, lit + (FormatInt(n) + rest), signed, lo, hi) == Some((n, rest))
  {
    var s := lit + (FormatInt(n) + rest);
    assert s[..|lit|] == lit && s[|lit|..] == FormatInt(n) + rest;
    assert ExpectLiteral(lit, s) == Some(FormatInt(n) + rest);
    if signed {
      ScanFormatInt(n, rest, lo, hi);
    } else {
      ScanFormatNat(n, rest, signed, lo, hi);
    }
  }

  /** A literal followed by any number `%d` accepts reads back that number. */
  lemma ScanVerbOfDigits(lit: string, pre: string, sign: string, d: string, rest: string, signed: bool, lo: int, hi: int)
    requires AllSpace(pre) && '\n' !in pre
    requires sign == [] || (signed && (sign == "+" || sign == "-"))
    requires d != [] && AllDigits(d)
    requires lo <= (if sign == "-" then -(DigitsValue(d) as int) else DigitsValue(d)) <= hi
    requires rest == [] || !IsDigit(rest[0])
    ensures ScanVerb(lit, lit + (pre + (sign + (d + rest))), signed, lo, hi)
      == Some((if sign == "-" then -(DigitsValue(d) as int) else DigitsValue(d), rest))
  {
    var t := pre + (sign + (d + rest));
    var s := lit + t;
    assert s[..|lit|] == lit && s[|lit|..] == t;
    assert ExpectLiteral(lit, s) == Some(t);
    ScanDecimalOfDigits(pre, sign, d, rest, signed, lo, hi);
  }
}
