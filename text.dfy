/** The few Python `str` operations the converter relies on, over `string`
    (a sequence of Unicode scalar values, so `|s|` is Python's `len(s)`). */
module Text {

  /** Python's whitespace classification (`str.isspace`), which both
      `str.strip()` and the regular-expression class `\s` use. */
  predicate IsSpace(c: char) {
    ('\t' <= c <= '\r') || ('\U{1C}' <= c <= '\U{1F}') || c == ' ' ||
    c == '\U{85}' || c == '\U{A0}' || c == '\U{1680}' ||
    ('\U{2000}' <= c <= '\U{200A}') || c == '\U{2028}' || c == '\U{2029}' ||
    c == '\U{202F}' || c == '\U{205F}' || c == '\U{3000}'
  }

  predicate AllSpace(s: string) {
    forall i :: 0 <= i < |s| ==> IsSpace(s[i])
  }

  /** The position of the first non-space character of `s` at or after `k`
      (`|s|` when there is none). */
  function SkipSpaces(s: string, k: nat): (n: nat)
    requires k <= |s|
    ensures k <= n <= |s|
    decreases |s| - k
  {
    if k < |s| && IsSpace(s[k]) then SkipSpaces(s, k + 1) else k
  }

  /** The end of `s[..k]` once its trailing whitespace is removed. */
  function TrimSpaces(s: string, k: nat): (n: nat)
    requires k <= |s|
    ensures n <= k
  {
    if k > 0 && IsSpace(s[k - 1]) then TrimSpaces(s, k - 1) else k
  }

  /** `s.lstrip()` */
  function LStrip(s: string): (r: string)
    ensures |r| <= |s|
  {
    s[SkipSpaces(s, 0)..]
  }

  /** `s.rstrip()` */
  function RStrip(s: string): (r: string)
    ensures |r| <= |s|
  {
    s[..TrimSpaces(s, |s|)]
  }

  /** `s.strip()` */
  function Strip(s: string): (r: string)
    ensures |r| <= |s|
  {
    RStrip(LStrip(s))
  }

  /** The length of `s[..k]` once its trailing copies of `c` are removed. */
  function KeepUntil(s: string, c: char, k: nat): (n: nat)
    requires k <= |s|
    ensures n <= k
  {
    if k > 0 && s[k - 1] == c then KeepUntil(s, c, k - 1) else k
  }

  /** `s.rstrip(c)` for a single character `c` */
  function RStripChar(s: string, c: char): (r: string)
    ensures |r| <= |s|
  {
    s[..KeepUntil(s, c, |s|)]
  }

  lemma {:induction false} SkipSpacesSpec(s: string, k: nat)
    requires k <= |s|
    ensures forall i :: k <= i < SkipSpaces(s, k) ==> IsSpace(s[i])
    ensures SkipSpaces(s, k) == |s| || !IsSpace(s[SkipSpaces(s, k)])
    decreases |s| - k
  {
    if k < |s| && IsSpace(s[k]) {
      SkipSpacesSpec(s, k + 1);
    }
  }

  lemma {:induction false} TrimSpacesSpec(s: string, k: nat)
    requires k <= |s|
    ensures forall i :: TrimSpaces(s, k) <= i < k ==> IsSpace(s[i])
    ensures TrimSpaces(s, k) == 0 || !IsSpace(s[TrimSpaces(s, k) - 1])
  {
    if k > 0 && IsSpace(s[k - 1]) {
      TrimSpacesSpec(s, k - 1);
    }
  }

  /** `lstrip` removes exactly the leading whitespace: what is left is a
      suffix that is empty or starts with a non-space, after only spaces. */
  lemma LStripSpec(s: string)
    ensures LStrip(s) == s[|s| - |LStrip(s)|..]
    ensures AllSpace(s[..|s| - |LStrip(s)|])
    ensures LStrip(s) == [] || !IsSpace(LStrip(s)[0])
  {
    SkipSpacesSpec(s, 0);
  }

  /** `rstrip` removes exactly the trailing whitespace. */
  lemma RStripSpec(s: string)
    ensures RStrip(s) == s[..|RStrip(s)|]
    ensures AllSpace(s[|RStrip(s)|..])
    ensures RStrip(s) == [] || !IsSpace(RStrip(s)[|RStrip(s)| - 1])
  {
    TrimSpacesSpec(s, |s|);
  }

  /** `strip` leaves nothing exactly for an all-whitespace string, and
      otherwise a string that neither starts nor ends with whitespace. */
  lemma StripSpec(s: string)
    ensures Strip(s) == [] <==> AllSpace(s)
    ensures Strip(s) == [] || (!IsSpace(Strip(s)[0]) && !IsSpace(Strip(s)[|Strip(s)| - 1]))
  {
    var l := LStrip(s);
    LStripSpec(s);
    RStripSpec(l);
    var r := RStrip(l);
    if r == [] {
      assert s == s[..|s| - |l|] + l[|r|..];
    } else {
      assert !IsSpace(s[|s| - |l|]);
      assert !IsSpace(r[0]);
    }
  }

  /** `rstrip(c)` removes exactly the trailing copies of `c`. */
  lemma RStripCharSpec(s: string, c: char)
    ensures RStripChar(s, c) == s[..|RStripChar(s, c)|]
    ensures forall i :: |RStripChar(s, c)| <= i < |s| ==> s[i] == c
    ensures RStripChar(s, c) == [] || RStripChar(s, c)[|RStripChar(s, c)| - 1] != c
  {
    KeepUntilSpec(s, c, |s|);
  }

  lemma {:induction false} KeepUntilSpec(s: string, c: char, k: nat)
    requires k <= |s|
    ensures forall i :: KeepUntil(s, c, k) <= i < k ==> s[i] == c
    ensures KeepUntil(s, c, k) == 0 || s[KeepUntil(s, c, k) - 1] != c
  {
    if k > 0 && s[k - 1] == c {
      KeepUntilSpec(s, c, k - 1);
    }
  }

  /** A string that neither starts nor ends with whitespace is its own strip. */
  lemma StripUnpadded(s: string)
    requires s != [] && !IsSpace(s[0]) && !IsSpace(s[|s| - 1])
    ensures Strip(s) == s
  {
  }

  /** `(s + c).rstrip(c)` is `s` when `s` does not end in `c`. */
  lemma RStripCharOnce(s: string, c: char)
    requires s == [] || s[|s| - 1] != c
    ensures RStripChar(s + [c], c) == s
  {
    var t := s + [c];
    assert KeepUntil(t, c, |t|) == KeepUntil(t, c, |s|);
    assert |s| > 0 ==> t[|s| - 1] == s[|s| - 1];
    assert KeepUntil(t, c, |s|) == |s|;
    assert t[..|s|] == s;
  }

  /** `s.startswith(p)` */
  predicate StartsWith(s: string, p: string) {
    |p| <= |s| && s[..|p|] == p
  }

  /** `s.endswith(p)` */
  predicate EndsWith(s: string, p: string) {
    |p| <= |s| && s[|s| - |p|..] == p
  }

  /** `sep.join(ls)`. */
  function Join(ls: seq<string>, sep: string): (r: string)
    ensures |ls| > 0 ==> StartsWith(r, ls[0]) && EndsWith(r, ls[|ls| - 1])
  {
    if |ls| == 0 then ""
    else if |ls| == 1 then ls[0]
    else
      var rest := Join(ls[1..], sep);
      assert EndsWith(rest, ls[|ls| - 1]);
      ls[0] + sep + rest
  }

  /** The first position of `c` in `s`. */
  function IndexOf(s: string, c: char): (k: nat)
    requires c in s
    ensures k < |s| && s[k] == c
    ensures forall j :: 0 <= j < k ==> s[j] != c
  {
    if s[0] == c then 0
    else
      assert c in s[1..];
      IndexOf(s[1..], c) + 1
  }

  /** `s.split("\n")`: the pieces of `s` between newlines (one piece when there is none). */
  function SplitLines(s: string): (r: seq<string>)
    ensures |r| >= 1
    ensures forall j :: 0 <= j < |r| ==> '\n' !in r[j]
    decreases |s|
  {
    if '\n' in s then
      var k := IndexOf(s, '\n');
      [s[..k]] + SplitLines(s[k + 1..])
    else
      [s]
  }

  /** The first newline of `a + "\n" + b` is the one after `a` when `a` has none. */
  lemma FirstNewlineAfter(a: string, b: string)
    requires '\n' !in a
    ensures IndexOf(a + "\n" + b, '\n') == |a|
  {
    var s := a + "\n" + b;
    assert s[|a|] == '\n';
    var k := IndexOf(s, '\n');
    assert s[..|a|] == a;
  }

  /** Writing lines joined by newlines and splitting the text again gives the
      lines back, provided there is at least one and none holds a newline. */
  lemma {:induction false} SplitJoin(ls: seq<string>)
    requires |ls| > 0
    requires forall j :: 0 <= j < |ls| ==> '\n' !in ls[j]
    ensures SplitLines(Join(ls, "\n")) == ls
  {
    if |ls| > 1 {
      var rest := Join(ls[1..], "\n");
      var s := ls[0] + "\n" + rest;
      assert Join(ls, "\n") == s;
      FirstNewlineAfter(ls[0], rest);
      var k := |ls[0]|;
      assert s[k] == '\n';
      assert '\n' in s;
      assert IndexOf(s, '\n') == k;
      assert s[..k] == ls[0];
      assert s[k + 1..] == rest;
      assert SplitLines(s) == [s[..k]] + SplitLines(s[k + 1..]);
      SplitJoin(ls[1..]);
      assert ls == [ls[0]] + ls[1..];
    }
  }
}
