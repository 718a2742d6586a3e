/**
  The sentence flush of the streaming parser
  (src/mfcs/response_parser.py:229-250): while plain text is being
  buffered, everything up to the right-most sentence terminator is handed
  out, stripped, and the rest stays in the buffer.
 */
module Segment {
  import opened Text

  /** The six characters the flush looks for: `。？！.?!`. */
  predicate IsTerminator(c: char) {
    c == '。' || c == '？' || c == '！' || c == '.' || c == '?' || c == '!'
  }

  predicate NoTerminator(s: string) {
    forall j :: 0 <= j < |s| ==> !IsTerminator(s[j])
  }

  /** Python `s.rfind(c)` for a single character: its right-most index, or -1. */
  function RFind(s: string, c: char): (r: int)
    ensures -1 <= r < |s|
    ensures r >= 0 ==> s[r] == c
    ensures forall j :: r < j < |s| ==> s[j] != c
    decreases |s|
  {
    if s == [] then -1
    else if s[|s| - 1] == c then |s| - 1
    else RFind(s[..|s| - 1], c)
  }

  function Max(a: int, b: int): int {
    if a < b then b else a
  }

  /**
    `last_sentence_end`: the largest of the six `rfind` results, that is
    the index of the right-most terminator, or -1 when there is none.
   */
  function LastSentenceEnd(s: string): (r: int)
    ensures -1 <= r < |s|
    ensures r >= 0 ==> IsTerminator(s[r])
    ensures forall j :: r < j < |s| ==> !IsTerminator(s[j])
  {
    Max(Max(Max(RFind(s, '。'), RFind(s, '？')), Max(RFind(s, '！'), RFind(s, '.'))),
        Max(RFind(s, '?'), RFind(s, '!')))
  }

  /** An independent reading of "the right-most terminator", scanning from the end. */
  function RightmostTerminator(s: string): int
    decreases |s|
  {
    if s == [] then -1
    else if IsTerminator(s[|s| - 1]) then |s| - 1
    else RightmostTerminator(s[..|s| - 1])
  }

  /** The maximum of the six searches is the right-most terminator. */
  lemma {:induction false} LastSentenceEndIsRightmost(s: string)
    ensures LastSentenceEnd(s) == RightmostTerminator(s)
    decreases |s|
  {
    var r := LastSentenceEnd(s);
    if s != [] {
      var t := s[..|s| - 1];
      if IsTerminator(s[|s| - 1]) {
        assert r == |s| - 1;
      } else {
        assert r < |s| - 1;
        LastSentenceEndIsRightmost(t);
        assert forall j :: LastSentenceEnd(t) < j < |t| ==> !IsTerminator(s[j]);
        if r >= 0 {
          assert IsTerminator(t[r]);
        }
        if LastSentenceEnd(t) >= 0 {
          assert IsTerminator(s[LastSentenceEnd(t)]);
        }
      }
    }
  }

  /** Chunks handed out one after the other, read as one text. */
  function Concat(chunks: seq<string>): string
    decreases |chunks|
  {
    if chunks == [] then "" else chunks[0] + Concat(chunks[1..])
  }

  /** A chunk the flush may hand out: not empty, and ending on a terminator. */
  predicate Sentence(chunk: string) {
    chunk != "" && IsTerminator(chunk[|chunk| - 1])
  }

  predicate IsSuffix(rest: string, s: string) {
    |rest| <= |s| && rest == s[|s| - |rest|..]
  }

  /**
    The `while True` loop of the flush. It hands out the stripped text up to
    and including the right-most terminator, unless that terminator is the
    buffer's first character, and keeps the rest. What it keeps is a suffix
    of the buffer holding no terminator past its first character, every
    chunk is a sentence, and the chunks and the rest together hold every
    non-space character of the buffer, in order.
   */
  function Flush(buffer: string): (r: (seq<string>, string))
    ensures LastSentenceEnd(r.1) <= 0
    ensures IsSuffix(r.1, buffer)
    ensures forall k :: 0 <= k < |r.0| ==> Sentence(r.0[k])
    ensures NonSpace(Concat(r.0) + r.1) == NonSpace(buffer)
    decreases |buffer|
  {
    var i := LastSentenceEnd(buffer);
    if i > 0 then
      var (more, rest) := Flush(buffer[i + 1..]);
      var out := FlushRound(buffer, i, more, rest);
      (out, rest)
    else
      assert Concat([]) + buffer == buffer;
      ([], buffer)
  }

  /**
    One round of the loop: the stripped sentence, if any, in front of what
    the later rounds handed out. It keeps the properties those rounds
    established.
   */
  function FlushRound(buffer: string, i: int, more: seq<string>, rest: string): (out: seq<string>)
    requires 0 < i < |buffer| && IsTerminator(buffer[i])
    requires IsSuffix(rest, buffer[i + 1..])
    requires forall k :: 0 <= k < |more| ==> Sentence(more[k])
    requires NonSpace(Concat(more) + rest) == NonSpace(buffer[i + 1..])
    ensures IsSuffix(rest, buffer)
    ensures forall k :: 0 <= k < |out| ==> Sentence(out[k])
    ensures NonSpace(Concat(out) + rest) == NonSpace(buffer)
  {
    var chunk := Strip(buffer[..i + 1]);
    SuffixOfSuffix(buffer, i + 1, rest);
    StripSentence(buffer[..i + 1]);
    StripKeepsNonSpace(buffer[..i + 1]);
    FlushConserves(buffer, i, chunk, more, rest);
    assert forall k :: 1 <= k < |[chunk] + more| ==> ([chunk] + more)[k] == more[k - 1];
    if chunk != "" then [chunk] + more else more
  }

  lemma SuffixTrans(a: string, b: string, c: string)
    requires IsSuffix(a, b) && IsSuffix(b, c)
    ensures IsSuffix(a, c)
  {
    assert a == c[|c| - |b|..][|b| - |a|..];
  }

  lemma SuffixOfSuffix(s: string, n: nat, rest: string)
    requires n <= |s| && IsSuffix(rest, s[n..])
    ensures IsSuffix(rest, s)
  {
    assert s[n..][|s[n..]| - |rest|..] == s[|s| - |rest|..];
  }

  /** Stripping text that ends on a terminator leaves a sentence. */
  lemma StripSentence(s: string)
    requires s != [] && IsTerminator(s[|s| - 1])
    ensures Sentence(Strip(s))
  {
    TerminatorNotSpace(s[|s| - 1]);
    StripEndsOnLast(s);
  }

  lemma FlushConserves(buffer: string, i: nat, chunk: string, more: seq<string>, rest: string)
    requires i < |buffer| && NonSpace(chunk) == NonSpace(buffer[..i + 1])
    requires NonSpace(Concat(more) + rest) == NonSpace(buffer[i + 1..])
    ensures NonSpace(Concat(if chunk != "" then [chunk] + more else more) + rest) == NonSpace(buffer)
  {
    var out := if chunk != "" then [chunk] + more else more;
    if chunk != "" {
      ConcatCons(chunk, more);
    } else {
      assert chunk + Concat(more) == Concat(more);
    }
    NonSpace3(chunk, Concat(more), rest);
    SplitNonSpace(buffer, i + 1);
  }

  lemma ConcatCons(chunk: string, more: seq<string>)
    ensures Concat([chunk] + more) == chunk + Concat(more)
  {
    assert ([chunk] + more)[1..] == more;
  }

  lemma SplitNonSpace(s: string, n: nat)
    requires n <= |s|
    ensures NonSpace(s) == NonSpace(s[..n]) + NonSpace(s[n..])
  {
    assert s == s[..n] + s[n..];
    NonSpaceAppend(s[..n], s[n..]);
  }

  /** Stripping a text that ends on a non-space character keeps that character last. */
  lemma StripEndsOnLast(s: string)
    requires s != [] && !IsSpace(s[|s| - 1])
    ensures Strip(s) != "" && Strip(s)[|Strip(s)| - 1] == s[|s| - 1]
  {
    var lo := SkipSpace(s, 0);
    assert lo <= |s| - 1 < lo + |Strip(s)|;
  }

  lemma TerminatorNotSpace(c: char)
    requires IsTerminator(c)
    ensures !IsSpace(c)
  {
  }

  /**
    The loop runs its body at most once: what the first round keeps holds
    no terminator at all, so the second round stops. The one chunk, when
    there is one, is never empty, since it ends on a terminator.
   */
  lemma FlushOnce(buffer: string)
    ensures var i := LastSentenceEnd(buffer);
            Flush(buffer) == if i > 0 then ([Strip(buffer[..i + 1])], buffer[i + 1..]) else ([], buffer)
  {
    var i := LastSentenceEnd(buffer);
    if i > 0 {
      FlushOnceAt(buffer, i);
    }
  }

  lemma FlushOnceAt(buffer: string, i: int)
    requires 0 < i < |buffer| && i == LastSentenceEnd(buffer)
    ensures Flush(buffer) == ([Strip(buffer[..i + 1])], buffer[i + 1..])
  {
    var rest := buffer[i + 1..];
    RestHasNoTerminator(buffer, i, rest);
    NoTerminatorStays(rest);
    StripSentence(buffer[..i + 1]);
    var chunk := Strip(buffer[..i + 1]);
    assert Flush(rest) == ([], rest);
    assert FlushRound(buffer, i, [], rest) == [chunk] + [];
    assert [chunk] + [] == [chunk];
    assert Flush(buffer) == (FlushRound(buffer, i, [], rest), rest);
  }

  lemma RestHasNoTerminator(buffer: string, i: int, rest: string)
    requires 0 <= i < |buffer| && i == LastSentenceEnd(buffer) && rest == buffer[i + 1..]
    ensures NoTerminator(rest)
  {
    forall j | 0 <= j < |rest|
      ensures !IsTerminator(rest[j])
    {
      assert rest[j] == buffer[i + 1 + j];
    }
  }

  /**
    A buffer whose last terminator ends a stripped sentence `x` + `t` hands
    out exactly that sentence and keeps what follows.
   */
  lemma FlushSentenceAt(b: string, x: string, t: char, y: string)
    requires b == x + [t] + y && IsTerminator(t) && NoTerminator(y)
    requires x != "" && !IsSpace(x[0])
    ensures Flush(b) == ([x + [t]], y)
  {
    RightmostAt(b, x, t, y);
    SentenceSlices(b, x, t, y);
    StripTrimmed(x + [t]);
    FlushOnceAt(b, |x|);
  }

  lemma SentenceSlices(b: string, x: string, t: char, y: string)
    requires b == x + [t] + y
    ensures b[..|x| + 1] == x + [t] && b[|x| + 1..] == y
  {
  }

  lemma RightmostAt(b: string, x: string, t: char, y: string)
    requires b == x + [t] + y && IsTerminator(t) && NoTerminator(y)
    ensures LastSentenceEnd(b) == |x|
  {
    assert b[|x|] == t;
    assert forall j :: |x| < j < |b| ==> b[j] == y[j - |x| - 1];
  }

  /** A buffer with no terminator is kept whole and nothing is handed out. */
  lemma NoTerminatorStays(s: string)
    requires NoTerminator(s)
    ensures Flush(s) == ([], s)
  {
  }

  /** A terminator in first position does not count: `.abc` is held back whole. */
  lemma LeadingTerminatorHeld(rest: string)
    requires NoTerminator(rest)
    ensures Flush("." + rest) == ([], "." + rest)
  {
    var s := "." + rest;
    assert forall j :: 0 < j < |s| ==> !IsTerminator(s[j]) by {
      forall j | 0 < j < |s|
        ensures !IsTerminator(s[j])
      {
        assert s[j] == rest[j - 1];
      }
    }
    assert LastSentenceEnd(s) <= 0;
  }
}
