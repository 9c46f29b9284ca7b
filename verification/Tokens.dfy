/** Byte strings and the pure tokeniser: what the re-entrant Split of Socket&Http/SimpleHttp.cpp
    is to compute. */
module Tokens {

  newtype byte = x: int | 0 <= x < 256

  type Bytes = seq<byte>

  const NUL: byte := 0

  /** The C string that starts at the head of `mem`: everything before the first NUL. */
  function CString(mem: Bytes): Bytes {
    if mem == [] || mem[0] == NUL then [] else [mem[0]] + CString(mem[1..])
  }

  lemma {:induction false} CStringEnds(mem: Bytes, n: nat)
    requires n < |mem| && mem[n] == NUL && NUL !in mem[..n]
    ensures CString(mem) == mem[..n]
  {
    if n == 0 {
    } else {
      assert mem[0] in mem[..n];
      assert mem[1..][..n - 1] == mem[..n][1..];
      CStringEnds(mem[1..], n - 1);
      assert mem[..n] == [mem[0]] + mem[1..][..n - 1];
    }
  }

  /** Length of the delimiter-free run at the head of `text`. */
  function RunLength(text: Bytes, delims: set<byte>): (n: nat)
    ensures n <= |text|
    ensures forall k :: 0 <= k < n ==> text[k] !in delims
    ensures n < |text| ==> text[n] in delims
  {
    if text == [] || text[0] in delims then 0 else 1 + RunLength(text[1..], delims)
  }

  lemma RunLengthUnique(text: Bytes, delims: set<byte>, n: nat)
    requires n <= |text|
    requires forall k :: 0 <= k < n ==> text[k] !in delims
    requires n < |text| ==> text[n] in delims
    ensures RunLength(text, delims) == n
  {
  }

  function Tokenize(text: Bytes, delims: set<byte>): seq<Bytes> {
    if text == [] then []
    else if text[0] in delims then Tokenize(text[1..], delims)
    else
      var n := RunLength(text, delims);
      [text[..n]] + Tokenize(text[n..], delims)
  }

  // ----- the tokens are the maximal delimiter-free runs, in order -----

  predicate MaximalRun(text: Bytes, delims: set<byte>, lo: nat, hi: nat) {
    && lo < hi <= |text|
    && (forall k :: lo <= k < hi ==> text[k] !in delims)
    && (lo == 0 || text[lo - 1] in delims)
    && (hi == |text| || text[hi] in delims)
  }

  /** End of the delimiter-free run that starts at `from`. */
  function RunEnd(text: Bytes, delims: set<byte>, from: nat): (to: nat)
    requires from <= |text|
    ensures from <= to <= |text|
    ensures forall k :: from <= k < to ==> text[k] !in delims
    ensures to < |text| ==> text[to] in delims
    decreases |text| - from
  {
    if from == |text| || text[from] in delims then from else RunEnd(text, delims, from + 1)
  }

  lemma RunEndIsRunLength(text: Bytes, delims: set<byte>, from: nat)
    requires from <= |text|
    ensures RunLength(text[from..], delims) == RunEnd(text, delims, from) - from
  {
    RunLengthUnique(text[from..], delims, RunEnd(text, delims, from) - from);
  }

  /** Where the tokens of `text[from..]` lie in `text`. */
  function Spans(text: Bytes, delims: set<byte>, from: nat): seq<(nat, nat)>
    requires from <= |text|
    decreases |text| - from
  {
    if from == |text| then []
    else if text[from] in delims then Spans(text, delims, from + 1)
    else [(from, RunEnd(text, delims, from))] + Spans(text, delims, RunEnd(text, delims, from))
  }

  /** A position at which no run is cut in two. */
  predicate Boundary(text: Bytes, delims: set<byte>, p: nat) {
    p <= |text| && (p == 0 || p == |text| || text[p - 1] in delims || text[p] in delims)
  }

  ghost predicate SpansOrdered(text: Bytes, delims: set<byte>, from: nat, spans: seq<(nat, nat)>) {
    && (forall k :: 0 <= k < |spans| ==> from <= spans[k].0 && MaximalRun(text, delims, spans[k].0, spans[k].1))
    && (forall j, k :: 0 <= j < k < |spans| ==> spans[j].1 < spans[k].0)
  }

  lemma RunBeforeSpans(text: Bytes, delims: set<byte>, from: nat, to: nat, rest: seq<(nat, nat)>)
    requires MaximalRun(text, delims, from, to) && SpansOrdered(text, delims, to, rest)
    ensures SpansOrdered(text, delims, from, [(from, to)] + rest)
  {
    forall k | 0 <= k < |rest|
      ensures to < rest[k].0
    {
      assert MaximalRun(text, delims, rest[k].0, rest[k].1);
    }
  }

  lemma SpansFromEarlier(text: Bytes, delims: set<byte>, from: nat, later: nat, spans: seq<(nat, nat)>)
    requires from <= later && SpansOrdered(text, delims, later, spans)
    ensures SpansOrdered(text, delims, from, spans)
  {
  }

  lemma {:induction false} SpansAreRuns(text: Bytes, delims: set<byte>, from: nat)
    requires Boundary(text, delims, from)
    ensures SpansOrdered(text, delims, from, Spans(text, delims, from))
    decreases |text| - from
  {
    if from == |text| {
    } else if text[from] in delims {
      SpansAreRuns(text, delims, from + 1);
      SpansFromEarlier(text, delims, from, from + 1, Spans(text, delims, from + 1));
    } else {
      var to := RunEnd(text, delims, from);
      assert MaximalRun(text, delims, from, to);
      SpansAreRuns(text, delims, to);
      RunBeforeSpans(text, delims, from, to, Spans(text, delims, to));
    }
  }

  lemma {:induction false} SpansCarryTokens(text: Bytes, delims: set<byte>, from: nat, k: nat)
    requires from <= |text|
    ensures |Spans(text, delims, from)| == |Tokenize(text[from..], delims)|
    ensures k < |Spans(text, delims, from)| ==>
              var (lo, hi) := Spans(text, delims, from)[k];
              lo <= hi <= |text| && Tokenize(text[from..], delims)[k] == text[lo..hi]
    decreases |text| - from
  {
    if from == |text| {
    } else if text[from] in delims {
      assert text[from..][1..] == text[from + 1..];
      SpansCarryTokens(text, delims, from + 1, k);
    } else {
      var to := RunEnd(text, delims, from);
      RunEndIsRunLength(text, delims, from);
      assert text[from..][to - from..] == text[to..] && text[from..][..to - from] == text[from..to];
      SpansCarryTokens(text, delims, to, if k == 0 then 0 else k - 1);
    }
  }

  lemma {:induction false} SpansCoverRuns(text: Bytes, delims: set<byte>, from: nat, lo: nat, hi: nat)
    requires Boundary(text, delims, from) && from <= lo && MaximalRun(text, delims, lo, hi)
    ensures (lo, hi) in Spans(text, delims, from)
    decreases |text| - from
  {
    if text[from] in delims {
      SpansCoverRuns(text, delims, from + 1, lo, hi);
    } else {
      var to := RunEnd(text, delims, from);
      if lo == from {
        assert hi == to;
      } else {
        assert lo >= to;
        SpansCoverRuns(text, delims, to, lo, hi);
      }
    }
  }

  /** The tokens are exactly the maximal non-empty delimiter-free runs of the text, in order. */
  lemma TokensAreTheMaximalRuns(text: Bytes, delims: set<byte>)
    ensures var spans, tokens := Spans(text, delims, 0), Tokenize(text, delims);
            && |spans| == |tokens|
            && (forall k :: 0 <= k < |spans| ==>
                  spans[k].0 <= spans[k].1 <= |text| && tokens[k] == text[spans[k].0..spans[k].1])
            && (forall j, k :: 0 <= j < k < |spans| ==> spans[j].1 < spans[k].0)
            && (forall lo: nat, hi: nat :: MaximalRun(text, delims, lo, hi) <==> (lo, hi) in spans)
  {
    var spans, tokens := Spans(text, delims, 0), Tokenize(text, delims);
    assert text[0..] == text;
    SpansAreRuns(text, delims, 0);
    SpansCarryTokens(text, delims, 0, 0);
    forall k | 0 <= k < |spans|
      ensures spans[k].0 <= spans[k].1 <= |text| && tokens[k] == text[spans[k].0..spans[k].1]
    {
      SpansCarryTokens(text, delims, 0, k);
    }
    forall lo: nat, hi: nat
      ensures MaximalRun(text, delims, lo, hi) <==> (lo, hi) in spans
    {
      if MaximalRun(text, delims, lo, hi) {
        SpansCoverRuns(text, delims, 0, lo, hi);
      }
    }
  }

  // ----- laws -----

  /** A delimiter separates: tokenising distributes over it. */
  lemma {:induction false} TokenizeSeparated(a: Bytes, delim: byte, b: Bytes, delims: set<byte>)
    requires delim in delims
    ensures Tokenize(a + [delim] + b, delims) == Tokenize(a, delims) + Tokenize(b, delims)
    decreases |a|
  {
    var all := a + [delim] + b;
    if a == [] {
      assert all[1..] == b;
    } else if a[0] in delims {
      assert all[1..] == a[1..] + [delim] + b;
      TokenizeSeparated(a[1..], delim, b, delims);
    } else {
      var n := RunLength(a, delims);
      RunLengthUnique(all, delims, n);
      assert all[..n] == a[..n] && all[n..] == a[n..] + [delim] + b;
      TokenizeSeparated(a[n..], delim, b, delims);
    }
  }

  /** A text without delimiters is its own only token, unless it is empty. */
  lemma TokenizeRun(text: Bytes, delims: set<byte>)
    requires forall k :: 0 <= k < |text| ==> text[k] !in delims
    ensures Tokenize(text, delims) == if text == [] then [] else [text]
  {
    RunLengthUnique(text, delims, |text|);
    assert text[..|text|] == text && text[|text|..] == [];
  }

  /** Leading delimiters do not count. */
  lemma {:induction false} TokenizeSkip(text: Bytes, delims: set<byte>, n: nat)
    requires n <= |text| && forall k :: 0 <= k < n ==> text[k] in delims
    ensures Tokenize(text, delims) == Tokenize(text[n..], delims)
  {
    if n == 0 {
    } else {
      TokenizeSkip(text[1..], delims, n - 1);
      assert text[1..][n - 1..] == text[n..];
    }
  }

  /** Trailing delimiters do not count. */
  lemma {:induction false} TokenizeTail(text: Bytes, tail: Bytes, delims: set<byte>)
    requires forall k :: 0 <= k < |tail| ==> tail[k] in delims
    ensures Tokenize(text + tail, delims) == Tokenize(text, delims)
  {
    if tail == [] {
      assert text + tail == text;
    } else {
      assert text + tail == text + [tail[0]] + tail[1..];
      TokenizeSeparated(text, tail[0], tail[1..], delims);
      TokenizeSkip(tail[1..], delims, |tail| - 1);
    }
  }
}
