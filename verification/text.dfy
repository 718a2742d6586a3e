/**
  The string primitives the parser is built from: substring search (`in`,
  `find`), `split`, and `strip`, each with a specification in terms of
  character positions.
 */
module Text {
  import opened Wrappers

  /** The characters `strip()` removes and `\s` matches. */
  predicate IsSpace(c: char) {
    c == ' ' || c == '\t' || c == '\n' || c == '\r' || c == '\U{0B}' || c == '\U{0C}'
  }

  /** `pat` occurs in `s` starting at index `i`. */
  predicate OccursAt(s: string, pat: string, i: int) {
    0 <= i && i + |pat| <= |s| && s[i..i + |pat|] == pat
  }

  /** `s` has no '<' at all, so it contains none of the markers. */
  predicate NoAngle(s: string) {
    forall k :: 0 <= k < |s| ==> s[k] != '<'
  }

  /** Every marker starts with '<' and has no other '<'. */
  predicate AngleOnlyFirst(pat: string) {
    |pat| > 0 && pat[0] == '<' && forall k :: 0 < k < |pat| ==> pat[k] != '<'
  }

  /** A tag marker: '<' only at the start, '>' only at the end. */
  predicate IsMarker(m: string) {
    && AngleOnlyFirst(m)
    && m[|m| - 1] == '>'
    && forall k :: 0 <= k < |m| - 1 ==> m[k] != '>'
  }

  /** Text a non-DOTALL `.` can run over: no newline. */
  predicate NoLineBreak(v: string) {
    forall k :: 0 <= k < |v| ==> v[k] != '\n'
  }

  /** Leftmost occurrence of `pat` at or after `from` (Python `s.find(pat, from)`). */
  function FindFrom(s: string, pat: string, from: nat): (r: Option<nat>)
    ensures r.Some? ==> from <= r.value && OccursAt(s, pat, r.value)
    ensures r.Some? ==> forall j :: from <= j < r.value ==> !OccursAt(s, pat, j)
    ensures r.None? ==> forall j :: from <= j ==> !OccursAt(s, pat, j)
    decreases |s| - from
  {
    if from + |pat| > |s| then None
    else if s[from..from + |pat|] == pat then Some(from)
    else FindFrom(s, pat, from + 1)
  }

  function Find(s: string, pat: string): Option<nat> {
    FindFrom(s, pat, 0)
  }

  /** Python's `pat in s`. */
  predicate Contains(s: string, pat: string) {
    Find(s, pat).Some?
  }

  lemma ContainsWitness(s: string, pat: string, j: int)
    requires OccursAt(s, pat, j)
    ensures Contains(s, pat)
  {
  }

  lemma OccursInPrefix(s: string, n: nat, pat: string, j: int)
    requires n <= |s| && OccursAt(s[..n], pat, j)
    ensures OccursAt(s, pat, j)
  {
    assert s[..n][j..j + |pat|] == s[j..j + |pat|];
  }

  lemma NoAngleNoMarker(s: string, pat: string)
    requires NoAngle(s) && AngleOnlyFirst(pat)
    ensures !Contains(s, pat)
  {
    forall j | 0 <= j && j + |pat| <= |s|
      ensures !OccursAt(s, pat, j)
    {
      assert s[j..j + |pat|][0] == s[j];
    }
  }

  /**
    In `a + pat + rest`, the first occurrence of `pat` is the one right after
    `a`, provided `a` holds none and `pat` has '<' only at its start.
   */
  lemma FindAfterClean(a: string, pat: string, rest: string)
    requires AngleOnlyFirst(pat) && !Contains(a, pat)
    ensures Find(a + pat + rest, pat) == Some(|a|)
  {
    var s := a + pat + rest;
    assert s[|a|..|a| + |pat|] == pat;
    assert OccursAt(s, pat, |a|);
    forall j | 0 <= j < |a|
      ensures !OccursAt(s, pat, j)
    {
      if j + |pat| <= |a| {
        assert s[j..j + |pat|] == a[j..j + |pat|];
        assert !OccursAt(a, pat, j);
      } else {
        assert s[j..j + |pat|][|a| - j] == s[|a|] == '<';
        assert pat[|a| - j] != '<';
      }
    }
  }

  /** An occurrence in `s[n..]` is an occurrence in `s`, shifted by `n`. */
  lemma OccursShift(s: string, n: nat, pat: string, j: int)
    requires n <= |s| && n <= j
    ensures OccursAt(s, pat, j) <==> OccursAt(s[n..], pat, j - n)
  {
    if j + |pat| <= |s| {
      assert s[n..][j - n..j - n + |pat|] == s[j..j + |pat|];
    }
  }

  /** A slice of a text without a marker has none either. */
  lemma NotInSlice(s: string, lo: nat, hi: nat, pat: string)
    requires lo <= hi <= |s| && !Contains(s, pat)
    ensures !Contains(s[lo..hi], pat)
  {
    var t := s[..hi];
    assert t[lo..] == s[lo..hi];
    forall j | 0 <= j && j + |pat| <= hi - lo
      ensures !OccursAt(s[lo..hi], pat, j)
    {
      assert t[lo + j..lo + j + |pat|] == s[lo + j..lo + j + |pat|];
      assert !OccursAt(s, pat, lo + j);
      OccursShift(t, lo, pat, lo + j);
    }
  }

  /** An occurrence of `pat` with no earlier one in the text before it is what `find` reports. */
  lemma FindAtClean(s: string, pat: string, p: nat)
    requires AngleOnlyFirst(pat) && OccursAt(s, pat, p) && !Contains(s[..p], pat)
    ensures Find(s, pat) == Some(p)
  {
    forall j | 0 <= j < p
      ensures !OccursAt(s, pat, j)
    {
      if j + |pat| <= p {
        assert s[..p][j..j + |pat|] == s[j..j + |pat|];
        assert !OccursAt(s[..p], pat, j);
      } else {
        assert s[j..j + |pat|][p - j] == s[p] == '<';
        assert pat[p - j] != '<';
      }
    }
  }

  /** Searching from `lo`, a marker is found at `q` when nothing between holds a '<'. */
  lemma FindFromNoAngle(s: string, pat: string, lo: nat, q: nat)
    requires AngleOnlyFirst(pat) && lo <= q && OccursAt(s, pat, q) && NoAngle(s[lo..q])
    ensures FindFrom(s, pat, lo) == Some(q)
  {
    forall j | lo <= j < q
      ensures !OccursAt(s, pat, j)
    {
      assert s[lo..q][j - lo] == s[j];
      if j + |pat| <= |s| {
        assert s[j..j + |pat|][0] == s[j];
      }
    }
  }

  /** Where each piece of `pre + open + v + close + post` sits. */
  lemma TaggedSlices(s: string, pre: string, open: string, v: string, close: string, post: string)
    requires s == pre + open + v + close + post
    ensures s[..|pre|] == pre
    ensures OccursAt(s, open, |pre|)
    ensures s[|pre| + |open|..|pre| + |open| + |v|] == v
    ensures OccursAt(s, close, |pre| + |open| + |v|)
  {
    assert s[|pre|..|pre| + |open|] == open;
    assert s[|pre| + |open| + |v|..|pre| + |open| + |v| + |close|] == close;
  }

  /** Two pieces with no occurrence of a marker keep none when joined at a tag boundary. */
  lemma NotContainsConcat(x: string, y: string, pat: string)
    requires AngleOnlyFirst(pat) && pat[|pat| - 1] == '>'
    requires forall k :: 0 <= k < |pat| - 1 ==> pat[k] != '>'
    requires !Contains(x, pat) && !Contains(y, pat)
    requires (|y| > 0 && y[0] == '<') || (|x| > 0 && x[|x| - 1] == '>')
    ensures !Contains(x + y, pat)
  {
    var s := x + y;
    forall j | 0 <= j && j + |pat| <= |s|
      ensures !OccursAt(s, pat, j)
    {
      if j + |pat| <= |x| {
        assert s[j..j + |pat|] == x[j..j + |pat|];
        assert !OccursAt(x, pat, j);
      } else if j >= |x| {
        assert s[j..j + |pat|] == y[j - |x|..j - |x| + |pat|];
        assert !OccursAt(y, pat, j - |x|);
      } else if |y| > 0 && y[0] == '<' {
        assert s[j..j + |pat|][|x| - j] == s[|x|];
        assert pat[|x| - j] != '<';
      } else {
        assert s[j..j + |pat|][|x| - 1 - j] == s[|x| - 1];
        assert pat[|x| - 1 - j] != '>';
      }
    }
  }

  /** A marker `pat` is not inside marker `m` when the two differ at some index `d` of `pat`. */
  lemma MarkerNotIn(m: string, pat: string, d: nat)
    requires AngleOnlyFirst(m) && |pat| > 0 && pat[0] == '<'
    requires 0 < d < |pat| && (d >= |m| || m[d] != pat[d])
    ensures !Contains(m, pat)
  {
    forall j | 0 <= j && j + |pat| <= |m|
      ensures !OccursAt(m, pat, j)
    {
      if j == 0 {
        assert m[..|pat|][d] == m[d];
      } else {
        assert m[j..j + |pat|][0] == m[j];
      }
    }
  }

  /** `open + v + close` holds no `pat` when neither marker does and `v` has no '<'. */
  lemma NotInTagged(open: string, v: string, close: string, pat: string)
    requires IsMarker(open) && IsMarker(close) && IsMarker(pat) && NoAngle(v)
    requires !Contains(open, pat) && !Contains(close, pat)
    ensures !Contains(open + v + close, pat)
  {
    NoAngleNoMarker(v, pat);
    NotContainsConcat(open, v, pat);
    NotContainsConcat(open + v, close, pat);
  }

  /** Python `s.split(sep, 1)` when `sep in s`. */
  function SplitOnce(s: string, sep: string): (r: (string, string))
    requires Contains(s, sep)
    ensures s == r.0 + sep + r.1
    ensures Find(s, sep) == Some(|r.0|)
  {
    var i := Find(s, sep).value;
    assert s == s[..i] + s[i..i + |sep|] + s[i + |sep|..];
    (s[..i], s[i + |sep|..])
  }

  /** Python `sep.join(parts)`. */
  function Join(parts: seq<string>, sep: string): string
    requires |parts| >= 1
    decreases |parts|
  {
    if |parts| == 1 then parts[0] else parts[0] + sep + Join(parts[1..], sep)
  }

  /** Python `s.split(sep)`: cut at every occurrence, scanning left to right. */
  function SplitAll(s: string, sep: string): (parts: seq<string>)
    requires sep != ""
    ensures |parts| >= 1
    ensures Join(parts, sep) == s
    ensures forall i :: 0 <= i < |parts| ==> !Contains(parts[i], sep)
    ensures |parts| > 1 ==> Find(s, sep) == Some(|parts[0]|)
    decreases |s|
  {
    match Find(s, sep)
    case None => [s]
    case Some(i) =>
      assert !Contains(s[..i], sep) by {
        if Contains(s[..i], sep) {
          OccursInPrefix(s, i, sep, Find(s[..i], sep).value);
        }
      }
      var tail := SplitAll(s[i + |sep|..], sep);
      assert s == s[..i] + sep + s[i + |sep|..];
      [s[..i]] + tail
  }

  /** Index of the first non-space character at or after `i`, or `|s|`. */
  function SkipSpace(s: string, i: nat): (j: nat)
    requires i <= |s|
    ensures i <= j <= |s|
    ensures forall k :: i <= k < j ==> IsSpace(s[k])
    ensures j == |s| || !IsSpace(s[j])
    decreases |s| - i
  {
    if i == |s| || !IsSpace(s[i]) then i else SkipSpace(s, i + 1)
  }

  /** Index just past the last non-space character before `j`, but not below `lo`. */
  function SkipSpaceBack(s: string, lo: nat, j: nat): (k: nat)
    requires lo <= j <= |s|
    ensures lo <= k <= j
    ensures forall m :: k <= m < j ==> IsSpace(s[m])
    ensures k == lo || !IsSpace(s[k - 1])
    decreases j
  {
    if j == lo || !IsSpace(s[j - 1]) then j else SkipSpaceBack(s, lo, j - 1)
  }

  /**
    Python `s.strip()`: the slice that starts at the first non-space
    character, covers every non-space character and ends on one.
   */
  function Strip(s: string): (r: string)
    ensures r == "" || (!IsSpace(r[0]) && !IsSpace(r[|r| - 1]))
    ensures SkipSpace(s, 0) + |r| <= |s| && r == s[SkipSpace(s, 0)..SkipSpace(s, 0) + |r|]
    ensures forall k :: 0 <= k < |s| && !IsSpace(s[k]) ==> SkipSpace(s, 0) <= k < SkipSpace(s, 0) + |r|
  {
    var lo := SkipSpace(s, 0);
    s[lo..SkipSpaceBack(s, lo, |s|)]
  }

  /** `s` with every space removed: what survives any amount of stripping. */
  function NonSpace(s: string): string
    decreases |s|
  {
    if s == [] then [] else (if IsSpace(s[0]) then [] else [s[0]]) + NonSpace(s[1..])
  }

  lemma {:induction false} NonSpaceAppend(a: string, b: string)
    ensures NonSpace(a + b) == NonSpace(a) + NonSpace(b)
    decreases |a|
  {
    if a != [] {
      var h: string := if IsSpace(a[0]) then [] else [a[0]];
      assert (a + b)[0] == a[0];
      assert (a + b)[1..] == a[1..] + b;
      NonSpaceAppend(a[1..], b);
      assert NonSpace(a + b) == h + NonSpace((a + b)[1..]);
      assert NonSpace(a + b) == h + (NonSpace(a[1..]) + NonSpace(b));
      assert NonSpace(a) == h + NonSpace(a[1..]);
    } else {
      assert a + b == b;
    }
  }

  lemma NonSpace3(a: string, b: string, c: string)
    ensures NonSpace(a + b + c) == NonSpace(a) + NonSpace(b + c)
  {
    assert a + b + c == a + (b + c);
    NonSpaceAppend(a, b + c);
  }

  lemma {:induction false} NonSpaceOfSpaces(s: string)
    requires forall k :: 0 <= k < |s| ==> IsSpace(s[k])
    ensures NonSpace(s) == ""
    decreases |s|
  {
    if s != [] {
      NonSpaceOfSpaces(s[1..]);
    }
  }

  /** Stripping loses only spaces. */
  lemma StripKeepsNonSpace(s: string)
    ensures NonSpace(Strip(s)) == NonSpace(s)
  {
    var lo := SkipSpace(s, 0);
    var hi := lo + |Strip(s)|;
    assert s == s[..lo] + Strip(s) + s[hi..];
    NonSpaceAppend(s[..lo] + Strip(s), s[hi..]);
    NonSpaceAppend(s[..lo], Strip(s));
    NonSpaceOfSpaces(s[..lo]);
    NonSpaceOfSpaces(s[hi..]);
  }

  /** A string that already starts and ends with non-space text is its own strip. */
  lemma StripTrimmed(s: string)
    requires s == "" || (!IsSpace(s[0]) && !IsSpace(s[|s| - 1]))
    ensures Strip(s) == s
  {
    if s != "" {
      assert SkipSpace(s, 0) == 0;
      assert !IsSpace(s[|s| - 1]);
    }
  }

  lemma StripIdempotent(s: string)
    ensures Strip(Strip(s)) == Strip(s)
  {
    StripTrimmed(Strip(s));
  }

  /** Gluing two stripped strings gives a stripped string. */
  lemma StripOfStrippedConcat(a: string, b: string)
    ensures Strip(Strip(a) + Strip(b)) == Strip(a) + Strip(b)
  {
    StripTrimmed(Strip(a) + Strip(b));
  }

  lemma NoAngleSlice(s: string, lo: nat, hi: nat)
    requires NoAngle(s) && lo <= hi <= |s|
    ensures NoAngle(s[lo..hi])
  {
  }
}
