/** Python's `int(s)` on a str, in base 10: surrounding whitespace is ignored, one
    optional sign, then decimal digits in which single underscores may separate two
    digits. Anything else is a ValueError, modelled as `None`. */
module PyInt {
  import opened Wrappers

  /** The ASCII characters `int()` skips around a literal: tab, line feed, vertical tab,
      form feed, carriage return and space. (`str.isspace` also counts 0x1c to 0x1f, but
      `int()` on an ASCII str does not skip them.) */
  predicate IsSpace(c: char) {
    9 <= c as int <= 13 || c == ' '
  }

  predicate IsDigit(c: char) {
    '0' <= c <= '9'
  }

  predicate AllDigits(d: string) {
    forall i :: 0 <= i < |d| ==> IsDigit(d[i])
  }

  /** `s` without its leading whitespace. */
  function StripLeft(s: string): (r: string)
    ensures |r| <= |s| && r == s[|s| - |r|..]
    ensures forall i :: 0 <= i < |s| - |r| ==> IsSpace(s[i])
    ensures r == [] || !IsSpace(r[0])
  {
    if s != [] && IsSpace(s[0]) then StripLeft(s[1..]) else s
  }

  /** `s` without its trailing whitespace. */
  function StripRight(s: string): (r: string)
    ensures |r| <= |s| && r == s[..|r|]
    ensures forall i :: |r| <= i < |s| ==> IsSpace(s[i])
    ensures r == [] || !IsSpace(r[|r| - 1])
  {
    if s != [] && IsSpace(s[|s| - 1]) then StripRight(s[..|s| - 1]) else s
  }

  function Strip(s: string): (t: string) {
    StripRight(StripLeft(s))
  }

  /** Digits with single underscores between them: "1_000" but not "_1", "1_" or "1__0". */
  predicate WellGrouped(d: string) {
    && d != []
    && IsDigit(d[0])
    && IsDigit(d[|d| - 1])
    && DigitsOrUnderscores(d)
    && NoDoubleUnderscore(d)
  }

  predicate DigitsOrUnderscores(d: string) {
    forall i :: 0 <= i < |d| ==> IsDigit(d[i]) || d[i] == '_'
  }

  predicate NoUnderscore(d: string) {
    forall i :: 0 <= i < |d| ==> d[i] != '_'
  }

  predicate NoDoubleUnderscore(d: string) {
    |d| < 2 || (!(d[0] == '_' && d[1] == '_') && NoDoubleUnderscore(d[1..]))
  }

  /** `d` with its underscores dropped. */
  function DropUnderscores(d: string): (r: string)
    ensures DigitsOrUnderscores(d) ==> AllDigits(r)
    ensures NoUnderscore(d) ==> r == d
  {
    if d == [] then []
    else (if d[0] == '_' then [] else [d[0]]) + DropUnderscores(d[1..])
  }

  function DigitValue(c: char): nat
    requires IsDigit(c)
  {
    (c as int) - ('0' as int)
  }

  /** The number a string of decimal digits denotes, most significant first. */
  function DigitsValue(d: string): nat
    requires AllDigits(d)
  {
    if d == [] then 0 else DigitsValue(d[..|d| - 1]) * 10 + DigitValue(d[|d| - 1])
  }

  function ParseDigits(d: string): (r: Option<nat>) {
    if WellGrouped(d) then
      Some(DigitsValue(DropUnderscores(d)))
    else None
  }

  /** `int(s)`, with `None` standing for the ValueError. */
  function ParseInt(s: string): (r: Option<int>)
    ensures (forall i :: 0 <= i < |s| ==> IsSpace(s[i])) ==> r == None
  {
    ParseSigned(Strip(s))
  }

  /** An optional sign followed by grouped digits. */
  function ParseSigned(t: string): (r: Option<int>) {
    if t != [] && (t[0] == '+' || t[0] == '-') then
      match ParseDigits(t[1..])
      case None => None
      case Some(n) =>
        var m: int := n;
        Some(if t[0] == '-' then -m else m)
    else
      match ParseDigits(t)
      case None => None
      case Some(n) => Some(n)
  }

  function DigitChar(n: nat): (c: char)
    requires n < 10
    ensures IsDigit(c) && DigitValue(c) == n
  {
    ('0' as int + n) as char
  }

  /** The canonical decimal spelling of a natural number. */
  function ShowNat(n: nat): (s: string)
    ensures s != [] && AllDigits(s)
  {
    if n < 10 then [DigitChar(n)] else ShowNat(n / 10) + [DigitChar(n % 10)]
  }

  /** The canonical decimal spelling of an integer, as Python's `str(n)`. */
  function ShowInt(n: int): (s: string)
    ensures s != [] && !IsSpace(s[0]) && !IsSpace(s[|s| - 1])
  {
    if n < 0 then "-" + ShowNat(-n) else ShowNat(n)
  }

  lemma {:induction false} ShowNatValue(n: nat)
    ensures DigitsValue(ShowNat(n)) == n
  {
    if n >= 10 {
      ShowNatValue(n / 10);
      var s := ShowNat(n);
      assert s[..|s| - 1] == ShowNat(n / 10);
    }
  }

  /** Stripping leaves a string that neither starts nor ends with whitespace alone. */
  lemma StripKeepsTrimmed(s: string)
    requires s != [] && !IsSpace(s[0]) && !IsSpace(s[|s| - 1])
    ensures Strip(s) == s
  {
    assert StripLeft(s) == s;
  }

  lemma {:induction false} DigitsHaveNoUnderscore(d: string)
    requires AllDigits(d)
    ensures NoDoubleUnderscore(d)
  {
    if |d| >= 2 {
      DigitsHaveNoUnderscore(d[1..]);
    }
  }

  /** A non-empty run of digits parses to the number it denotes. */
  lemma ParseDigitRun(d: string)
    requires d != [] && AllDigits(d)
    ensures ParseDigits(d) == Some(DigitsValue(d))
  {
    DigitsHaveNoUnderscore(d);
    assert WellGrouped(d);
    assert DropUnderscores(d) == d;
  }

  /** A run of digits, with or without a minus sign in front. */
  lemma ParseUnsignedRun(d: string)
    requires d != [] && AllDigits(d)
    ensures ParseInt(d) == Some(DigitsValue(d))
  {
    ParseDigitRun(d);
    StripKeepsTrimmed(d);
    assert !(d[0] == '+' || d[0] == '-');
  }

  lemma ParseSignedNegative(t: string)
    requires |t| >= 2 && t[0] == '-' && AllDigits(t[1..])
    ensures ParseSigned(t) == Some(-(DigitsValue(t[1..]) as int))
  {
    ParseDigitRun(t[1..]);
  }

  lemma ParseNegativeRun(m: string)
    requires |m| >= 2 && m[0] == '-' && AllDigits(m[1..])
    ensures ParseInt(m) == Some(-(DigitsValue(m[1..]) as int))
  {
    assert IsDigit(m[1..][|m| - 2]);
    StripKeepsTrimmed(m);
    ParseSignedNegative(m);
  }

  /** The spelling of a negative integer is a minus sign and the spelling of its magnitude. */
  lemma ShowNegative(n: int)
    requires n < 0
    ensures |ShowInt(n)| >= 2 && ShowInt(n)[0] == '-' && ShowInt(n)[1..] == ShowNat(-n)
  {
    assert ShowInt(n) == "-" + ShowNat(-n);
  }

  lemma ParseShowNegative(n: int)
    requires n < 0
    ensures ParseInt(ShowInt(n)) == Some(n)
  {
    var s, d := ShowInt(n), ShowNat(-n);
    ShowNegative(n);
    ParseNegativeRun(s);
    ShowNatValue(-n);
    assert DigitsValue(s[1..]) == DigitsValue(d) == -n;
  }

  lemma ParseShowNonNegative(n: int)
    requires n >= 0
    ensures ParseInt(ShowInt(n)) == Some(n)
  {
    var s := ShowInt(n);
    assert s == ShowNat(n);
    ParseUnsignedRun(s);
    ShowNatValue(n);
  }

  /** Parsing the canonical spelling of an integer gives the integer back. */
  lemma ParseShowRoundTrip(n: int)
    ensures ParseInt(ShowInt(n)) == Some(n)
  {
    if n < 0 {
      ParseShowNegative(n);
    } else {
      ParseShowNonNegative(n);
    }
  }

  /** A character that is neither a digit nor an underscore spoils the grouping. */
  lemma ForeignCharSpoilsGrouping(d: string, i: nat)
    requires i < |d| && !IsDigit(d[i]) && d[i] != '_'
    ensures ParseDigits(d) == None
  {
  }

  lemma SignedRejects(t: string, i: nat)
    requires i < |t| && !IsDigit(t[i]) && t[i] != '_' && t[i] != '+' && t[i] != '-'
    ensures ParseSigned(t) == None
  {
    if t[0] == '+' || t[0] == '-' {
      assert t[1..][i - 1] == t[i];
      ForeignCharSpoilsGrouping(t[1..], i - 1);
    } else {
      ForeignCharSpoilsGrouping(t, i);
    }
  }

  /** A character that is neither whitespace, a digit, an underscore nor a sign makes
      the whole string a ValueError. */
  lemma NonNumericIsRejected(s: string, k: nat)
    requires k < |s|
    requires !IsSpace(s[k]) && !IsDigit(s[k]) && s[k] != '_' && s[k] != '+' && s[k] != '-'
    ensures ParseInt(s) == None
  {
    var left := StripLeft(s);
    var kl := k - (|s| - |left|);
    assert 0 <= kl < |left| && left[kl] == s[k];
    var t := StripRight(left);
    assert kl < |t| && t[kl] == s[k];
    SignedRejects(t, kl);
  }

  lemma {:induction false} DropUnderscoresAppend(a: string, b: string)
    ensures DropUnderscores(a + b) == DropUnderscores(a) + DropUnderscores(b)
  {
    if a != [] {
      var head := if a[0] == '_' then [] else [a[0]];
      var ab := a + b;
      assert ab[0] == a[0] && ab[1..] == a[1..] + b;
      assert DropUnderscores(ab) == head + DropUnderscores(a[1..] + b);
      DropUnderscoresAppend(a[1..], b);
      assert DropUnderscores(a) == head + DropUnderscores(a[1..]);
      assert head + (DropUnderscores(a[1..]) + DropUnderscores(b)) == (head + DropUnderscores(a[1..])) + DropUnderscores(b);
    } else {
      assert a + b == b;
    }
  }

  lemma {:induction false} SingleUnderscoreBetweenRuns(a: string, b: string)
    requires a != [] && AllDigits(a) && b != [] && AllDigits(b)
    ensures NoDoubleUnderscore(a + "_" + b)
    decreases |a|
  {
    var d := a + "_" + b;
    if |a| == 1 {
      assert d[1..] == "_" + b;
      DigitsHaveNoUnderscore(b);
      assert ("_" + b)[1..] == b;
    } else {
      assert d[1..] == a[1..] + "_" + b;
      SingleUnderscoreBetweenRuns(a[1..], b);
    }
  }

  lemma GroupedAroundUnderscore(a: string, b: string)
    requires a != [] && AllDigits(a) && b != [] && AllDigits(b)
    ensures WellGrouped(a + "_" + b)
  {
    var d := a + "_" + b;
    SingleUnderscoreBetweenRuns(a, b);
    assert d[0] == a[0] && d[|d| - 1] == b[|b| - 1];
    forall i | 0 <= i < |d| ensures IsDigit(d[i]) || d[i] == '_' {
      if i < |a| {
        assert d[i] == a[i];
      } else if i > |a| {
        assert d[i] == b[i - |a| - 1];
      }
    }
  }

  lemma DropAroundUnderscore(a: string, b: string)
    requires AllDigits(a) && AllDigits(b)
    ensures DropUnderscores(a + "_" + b) == a + b
  {
    var u := "_";
    var au := a + u;
    DropUnderscoresAppend(au, b);
    assert DropUnderscores(au + b) == DropUnderscores(au) + DropUnderscores(b);
    DropUnderscoresAppend(a, u);
    assert DropUnderscores(au) == DropUnderscores(a) + DropUnderscores(u);
    assert DropUnderscores(u) == [];
    assert DropUnderscores(a) == a;
    assert DropUnderscores(b) == b;
    assert DropUnderscores(au) == a;
  }
  /** An underscore between two digit runs is ignored: `int("1_000") == int("1000")`. */
  lemma UnderscoreBetweenDigitRuns(a: string, b: string)
    requires a != [] && AllDigits(a) && b != [] && AllDigits(b)
    ensures ParseDigits(a + "_" + b) == ParseDigits(a + b)
  {
    var d := a + "_" + b;
    var e := a + b;
    GroupedAroundUnderscore(a, b);
    DropAroundUnderscore(a, b);
    assert AllDigits(e) by {
      forall i | 0 <= i < |e| ensures IsDigit(e[i]) {
        if i >= |a| {
          assert e[i] == b[i - |a|];
        }
      }
    }
    ParseDigitRun(e);
  }

  /** Whitespace before and after a number is ignored. */
  lemma SurroundingWhitespaceIgnored(pre: string, t: string, post: string)
    requires forall i :: 0 <= i < |pre| ==> IsSpace(pre[i])
    requires forall i :: 0 <= i < |post| ==> IsSpace(post[i])
    requires t != [] && !IsSpace(t[0]) && !IsSpace(t[|t| - 1])
    ensures ParseInt(pre + t + post) == ParseInt(t)
  {
    var s := pre + t + post;
    assert s == pre + (t + post);
    StripLeftPrefix(pre, t + post);
    StripRightSuffix(t, post);
    assert Strip(s) == t;
    StripKeepsTrimmed(t);
    assert ParseInt(s) == ParseSigned(t) == ParseInt(t);
  }

  lemma {:induction false} StripLeftPrefix(pre: string, rest: string)
    requires forall i :: 0 <= i < |pre| ==> IsSpace(pre[i])
    requires rest != [] && !IsSpace(rest[0])
    ensures StripLeft(pre + rest) == rest
  {
    if pre == [] {
      assert pre + rest == rest;
    } else {
      var s := pre + rest;
      assert s[0] == pre[0] && s[1..] == pre[1..] + rest;
      assert StripLeft(s) == StripLeft(s[1..]);
      StripLeftPrefix(pre[1..], rest);
    }
  }

  lemma {:induction false} StripRightSuffix(rest: string, post: string)
    requires forall i :: 0 <= i < |post| ==> IsSpace(post[i])
    requires rest != [] && !IsSpace(rest[|rest| - 1])
    ensures StripRight(rest + post) == rest
  {
    if post == [] {
      assert rest + post == rest;
    } else {
      assert (rest + post)[..|rest + post| - 1] == rest + post[..|post| - 1];
      StripRightSuffix(rest, post[..|post| - 1]);
    }
  }
}
