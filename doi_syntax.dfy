/** DOI syntax (`DOITranslator.validate_doi`): the regular expression
    `^10\.\d{4,}/[-._;()/:\w]+$` applied with Python's `re.match`, with `\d` and `\w` read
    as their ASCII classes. As in Python, `$` matches at the end of the string and also
    just before a single newline that ends it. */
module DoiSyntax {
  import opened PyInt

  /** `\w` restricted to ASCII. */
  predicate IsWordChar(c: char) {
    ('a' <= c <= 'z') || ('A' <= c <= 'Z') || IsDigit(c) || c == '_'
  }

  /** The class `[-._;()/:\w]`. */
  predicate IsSuffixChar(c: char) {
    c in "-._;()/:" || IsWordChar(c)
  }

  predicate Every(t: string, p: char -> bool) {
    forall k :: 0 <= k < |t| ==> p(t[k])
  }

  /** The length of the longest prefix of `t` whose characters all satisfy `p`. */
  function Span(t: string, p: char -> bool): (n: nat)
    ensures n <= |t| && Every(t[..n], p)
    ensures n < |t| ==> !p(t[n])
  {
    if t == [] || !p(t[0]) then 0
    else
      var m := Span(t[1..], p);
      assert t[..m + 1] == [t[0]] + t[1..][..m];
      m + 1
  }

  /** A run of `p`-characters followed by the end or by a character outside `p` is
      exactly what `Span` measures. */
  lemma {:induction false} SpanIsMaximalRun(t: string, p: char -> bool, n: nat)
    requires n <= |t| && Every(t[..n], p)
    requires n < |t| ==> !p(t[n])
    ensures Span(t, p) == n
  {
    if n > 0 {
      assert t[1..][..n - 1] == t[1..n];
      assert forall k :: 0 <= k < n - 1 ==> t[1..n][k] == t[..n][k + 1];
      assert p(t[..n][0]);
      SpanIsMaximalRun(t[1..], p, n - 1);
    }
  }

  /** What `$` accepts after the last suffix character. */
  predicate IsEnd(rest: string) {
    rest == "" || rest == "\n"
  }

  /** After `10.`: `\d{4,}/[-._;()/:\w]+$`. */
  function AfterPrefix(t: string): (ok: bool) {
    var d := Span(t, IsDigit);
    if d < 4 || d == |t| || t[d] != '/' then false
    else
      var rest := t[d + 1..];
      var k := Span(rest, IsSuffixChar);
      k >= 1 && IsEnd(rest[k..])
  }

  /** `validate_doi(doi)`: False on the empty string, otherwise whether the pattern
      matches from the start. */
  function ValidateDoi(doi: string): (valid: bool)
    ensures valid ==> |doi| >= 9 && doi[..3] == "10."
  {
    if doi == "" then false
    else |doi| >= 3 && doi[..3] == "10." && AfterPrefix(doi[3..])
  }

  /** The pattern as a grammar: `doi` splits as `10.`, the digits `doi[3..i]` (at least
      four), `/` at `i`, the suffix `doi[i+1..j]` (at least one character), and an end. */
  predicate Split(doi: string, i: nat, j: nat) {
    && 7 <= i < j <= |doi|
    && doi[..3] == "10."
    && Every(doi[3..i], IsDigit)
    && doi[i] == '/'
    && i + 1 < j
    && Every(doi[i + 1..j], IsSuffixChar)
    && IsEnd(doi[j..])
  }

  ghost predicate IsDoi(doi: string) {
    exists i: nat, j: nat :: Split(doi, i, j)
  }

  lemma AcceptedSplits(doi: string)
    requires ValidateDoi(doi)
    ensures IsDoi(doi)
  {
    var t := doi[3..];
    var d := Span(t, IsDigit);
    var rest := t[d + 1..];
    var k := Span(rest, IsSuffixChar);
    var i, j := 3 + d, 4 + d + k;
    assert doi[3..i] == t[..d];
    assert doi[i + 1..j] == rest[..k];
    assert doi[j..] == rest[k..];
    assert Split(doi, i, j);
  }

  lemma SplitIsAccepted(doi: string, i: nat, j: nat)
    requires Split(doi, i, j)
    ensures ValidateDoi(doi)
  {
    var t := doi[3..];
    assert t[..i - 3] == doi[3..i];
    assert t[i - 3] == '/';
    SpanIsMaximalRun(t, IsDigit, i - 3);
    var rest := t[i - 2..];
    assert rest == doi[i + 1..];
    var k := j - i - 1;
    assert rest[..k] == doi[i + 1..j];
    assert rest[k..] == doi[j..];
    if k < |rest| {
      assert rest[k] == '\n';
    }
    SpanIsMaximalRun(rest, IsSuffixChar, k);
  }

  /** `validate_doi` accepts exactly the strings the grammar describes. */
  lemma ValidateDoiMatchesGrammar(doi: string)
    ensures ValidateDoi(doi) <==> IsDoi(doi)
  {
    if ValidateDoi(doi) {
      AcceptedSplits(doi);
    }
    if IsDoi(doi) {
      var i: nat, j: nat :| Split(doi, i, j);
      SplitIsAccepted(doi, i, j);
    }
  }

  /** A trailing newline is accepted, as Python's `$` allows. */
  lemma TrailingNewlineAccepted()
    ensures ValidateDoi("10.1234/x\n")
  {
    SplitIsAccepted("10.1234/x\n", 7, 9);
  }

  /** Three registrant digits are too few to match `\d{4,}`. */
  lemma ThreeDigitPrefixRejected(suffix: string)
    ensures !ValidateDoi("10.123/" + suffix)
  {
    var doi := "10.123/" + suffix;
    var t := doi[3..];
    assert t[..3] == "123" && t[3] == '/';
    SpanIsMaximalRun(t, IsDigit, 3);
  }

  /** Every character of an accepted DOI is in `[-._;()/:\w]`, except a final newline;
      so, for example, a DOI containing a space is rejected. */
  lemma AcceptedCharacters(doi: string)
    requires ValidateDoi(doi)
    ensures forall p :: 0 <= p < |doi| ==> IsSuffixChar(doi[p]) || (p == |doi| - 1 && doi[p] == '\n')
  {
    AcceptedSplits(doi);
    var i: nat, j: nat :| Split(doi, i, j);
    forall p | 0 <= p < |doi|
      ensures IsSuffixChar(doi[p]) || (p == |doi| - 1 && doi[p] == '\n')
    {
      if p < 3 {
        assert doi[..3][p] == doi[p];
      } else if p < i {
        assert doi[3..i][p - 3] == doi[p];
      } else if p == i {
      } else if p < j {
        assert doi[i + 1..j][p - i - 1] == doi[p];
      } else {
        assert doi[j..][p - j] == doi[p];
      }
    }
  }
}
