/** Split and the header loop of Socket&Http/SimpleHttp.cpp, on the buffer they work in. */
module HeaderParser {
  import opened Tokens
  import opened Wrappers

  const LF: byte := 10
  const CR: byte := 13
  const SP: byte := 32
  const COLON: byte := 58

  /** The delimiters of header lines. */
  const CRLF: set<byte> := {CR, LF}

  // ----- NUL-terminated text inside a buffer -----

  predicate Terminated(mem: Bytes, from: nat) {
    exists k :: from <= k < |mem| && mem[k] == NUL
  }

  lemma {:induction false} FirstNul(mem: Bytes, from: nat) returns (z: nat)
    requires Terminated(mem, from)
    ensures from <= z < |mem| && mem[z] == NUL && forall k :: from <= k < z ==> mem[k] != NUL
    decreases |mem| - from
  {
    if mem[from] == NUL {
      z := from;
    } else {
      z := FirstNul(mem, from + 1);
    }
  }

  /** The first NUL at or after `from`. */
  ghost function Terminator(mem: Bytes, from: nat): (z: nat)
    requires Terminated(mem, from)
    ensures from <= z < |mem| && mem[z] == NUL
    ensures forall k :: from <= k < z ==> mem[k] != NUL
  {
    assert exists z: nat :: from <= z < |mem| && mem[z] == NUL && forall k :: from <= k < z ==> mem[k] != NUL by {
      var z := FirstNul(mem, from);
    }
    var z: nat :| from <= z < |mem| && mem[z] == NUL && forall k :: from <= k < z ==> mem[k] != NUL;
    z
  }

  /** The text that a pointer to `mem[from]` denotes. */
  ghost function Text(mem: Bytes, from: nat): Bytes
    requires Terminated(mem, from)
  {
    mem[from..Terminator(mem, from)]
  }

  lemma TextIs(mem: Bytes, from: nat, z: nat)
    requires from <= z < |mem| && mem[z] == NUL && forall k :: from <= k < z ==> mem[k] != NUL
    ensures Terminated(mem, from) && Terminator(mem, from) == z && Text(mem, from) == mem[from..z]
  {
  }

  lemma TextIsCString(mem: Bytes)
    requires Terminated(mem, 0)
    ensures Text(mem, 0) == CString(mem)
  {
    CStringEnds(mem, Terminator(mem, 0));
  }

  // ----- Split -----

  predicate AllDelimiters(mem: Bytes, lo: nat, hi: nat, delims: set<byte>) {
    lo <= hi <= |mem| && forall k :: lo <= k < hi ==> mem[k] in delims
  }

  predicate NoDelimiters(mem: Bytes, lo: nat, hi: nat, delims: set<byte>) {
    lo <= hi <= |mem| && forall k :: lo <= k < hi ==> mem[k] !in delims
  }

  /** The end of the leading stretch of delimiters (strspn). */
  method SkipDelimiters(mem: array<byte>, from: nat, delims: set<byte>) returns (q: nat)
    requires NUL !in delims && Terminated(mem[..], from)
    ensures from <= q <= Terminator(mem[..], from)
    ensures AllDelimiters(mem[..], from, q, delims) && mem[..][q] !in delims
  {
    q := from;
    while mem[q] in delims
      invariant from <= q <= Terminator(mem[..], from)
      invariant AllDelimiters(mem[..], from, q, delims)
      decreases Terminator(mem[..], from) - q
    {
      q := q + 1;
    }
  }

  /** The first delimiter or the terminator (strpbrk, strchr). */
  method FindDelimiter(mem: array<byte>, from: nat, delims: set<byte>) returns (e: nat)
    requires NUL !in delims && Terminated(mem[..], from)
    ensures from <= e <= Terminator(mem[..], from)
    ensures NoDelimiters(mem[..], from, e, delims) && (mem[..][e] in delims || mem[..][e] == NUL)
  {
    e := from;
    while mem[e] !in delims && mem[e] != NUL
      invariant from <= e <= Terminator(mem[..], from)
      invariant NoDelimiters(mem[..], from, e, delims)
      decreases Terminator(mem[..], from) - e
    {
      e := e + 1;
    }
  }

  /** What one call of Split makes of the buffer `was` when it starts at `from`. Either nothing
      but delimiters is left and everything stays alone; or `token` is the start of the first
      token, terminated in place by overwriting the one byte behind it, and `save'`, just behind
      that byte, is where the rest of the text starts. */
  ghost predicate SplitResult(was: Bytes, now: Bytes, from: nat, delims: set<byte>,
                              save: nat, token: Option<nat>, save': nat)
    requires Terminated(was, from)
  {
    match token
    case None =>
      now == was && save' == save && Tokenize(Text(was, from), delims) == []
    case Some(t) =>
      && from <= t < save' <= Terminator(was, from)
      && Terminated(now, t) && Terminated(now, save')
      && Tokenize(Text(was, from), delims) == [Text(now, t)] + Tokenize(Text(now, save'), delims)
      && var e := Terminator(now, t);
         && t < e < |was| && now == was[e := NUL]
         && AllDelimiters(was, from, t, delims) && NoDelimiters(was, t, e, delims)
         && (was[e] in delims || was[e] == NUL)
         && save' == if was[e] == NUL then e else e + 1
  }

  /** Cutting at `e` ends the text at `q` there and leaves the text behind `e` as it was. */
  lemma TextAroundCut(was: Bytes, q: nat, e: nat, z: nat)
    requires q <= e <= z < |was| && was[z] == NUL && forall k :: q <= k < z ==> was[k] != NUL
    ensures var now, next := was[e := NUL], if e < z then e + 1 else e;
            && Terminated(now, q) && Terminator(now, q) == e && Text(now, q) == was[q..e]
            && Terminated(now, next) && Terminator(now, next) == z && Text(now, next) == was[next..z]
  {
    var now, next := was[e := NUL], if e < z then e + 1 else e;
    TextIs(now, q, e);
    TextIs(now, next, z);
    assert now[q..e] == was[q..e];
    assert now[next..z] == was[next..z];
  }

  lemma SlicesJoin(mem: Bytes, lo: nat, mid: nat, hi: nat)
    requires lo <= mid <= hi <= |mem|
    ensures mem[lo..hi] == mem[lo..mid] + mem[mid..hi]
  {
  }

  lemma SkipPrefix(a: Bytes, text: Bytes, delims: set<byte>)
    requires forall k :: 0 <= k < |a| ==> a[k] in delims
    ensures Tokenize(a + text, delims) == Tokenize(text, delims)
  {
    TokenizeSkip(a + text, delims, |a|);
    assert (a + text)[|a|..] == text;
  }

  /** Delimiters up to `q`, a run from there to `e`, and a delimiter or the end behind it. */
  lemma FirstToken(was: Bytes, from: nat, q: nat, e: nat, z: nat, delims: set<byte>)
    requires from <= q < e <= z <= |was|
    requires AllDelimiters(was, from, q, delims) && NoDelimiters(was, q, e, delims)
    requires e < z ==> was[e] in delims
    ensures Tokenize(was[from..z], delims)
         == [was[q..e]] + Tokenize(was[if e < z then e + 1 else e..z], delims)
  {
    var lead, run := was[from..q], was[q..e];
    TokenizeRun(run, delims);
    if e < z {
      var rest := was[e + 1..z];
      assert was[from..z] == lead + (run + [was[e]] + rest);
      SkipPrefix(lead, run + [was[e]] + rest, delims);
      TokenizeSeparated(run, was[e], rest, delims);
    } else {
      SlicesJoin(was, from, q, e);
      SkipPrefix(lead, run, delims);
    }
  }

  lemma SplitCuts(was: Bytes, from: nat, q: nat, e: nat, delims: set<byte>)
    requires NUL !in delims && Terminated(was, from)
    requires from <= q < e <= Terminator(was, from)
    requires AllDelimiters(was, from, q, delims) && NoDelimiters(was, q, e, delims)
    requires was[e] in delims || was[e] == NUL
    ensures SplitResult(was, was[e := NUL], from, delims, from, Some(q), if was[e] == NUL then e else e + 1)
  {
    var z := Terminator(was, from);
    assert was[e] == NUL <==> e == z;
    TextAroundCut(was, q, e, z);
    FirstToken(was, from, q, e, z, delims);
  }

  lemma SplitFindsNothing(was: Bytes, from: nat, q: nat, delims: set<byte>, save: nat)
    requires Terminated(was, from) && from <= q <= Terminator(was, from) && was[q] == NUL
    requires AllDelimiters(was, from, q, delims)
    ensures SplitResult(was, was, from, delims, save, None, save)
  {
    TokenizeSkip(Text(was, from), delims, q - from);
  }

  /** One call of Split, from `s` or, without it, from the saved position. */
  method Split(mem: array<byte>, s: Option<nat>, delims: set<byte>, save: nat)
    returns (token: Option<nat>, save': nat)
    requires NUL !in delims && Terminated(mem[..], if s.Some? then s.value else save)
    modifies mem
    ensures SplitResult(old(mem[..]), mem[..], if s.Some? then s.value else save, delims, save, token, save')
  {
    var from := if s.Some? then s.value else save;
    ghost var was := mem[..];
    ghost var z := Terminator(was, from);
    var q := SkipDelimiters(mem, from, delims);
    if mem[q] == NUL {
      SplitFindsNothing(was, from, q, delims, save);
      return None, save;
    }
    TextIs(was, q, z);
    var e := FindDelimiter(mem, q, delims);
    assert e != q;
    SplitCuts(was, from, q, e, delims);
    token, save' := Some(q), if mem[e] == NUL then e else e + 1;
    if mem[e] != NUL {
      mem[e] := NUL;
    }
    assert mem[..] == was[e := NUL];
  }

  // ----- header lines -----

  /** Position of the first colon, or the length of the line if there is none. */
  function ColonAt(line: Bytes): (pos: nat)
    ensures pos <= |line| && COLON !in line[..pos]
    ensures pos < |line| ==> line[pos] == COLON
  {
    if line == [] || line[0] == COLON then 0
    else
      var pos := 1 + ColonAt(line[1..]);
      assert line[..pos] == [line[0]] + line[1..][..pos - 1];
      pos
  }

  type Headers = map<Bytes, Bytes>

  /** `substr(pos + 2)` throws when the line ends with its first colon. */
  predicate Throws(line: Bytes) {
    ColonAt(line) + 1 == |line|
  }

  /** What the lines add to the headers, up to the first line that throws. */
  function Collect(lines: seq<Bytes>, h: Headers): (r: (Headers, bool)) {
    if lines == [] then (h, true)
    else
      var line := lines[0];
      var pos := ColonAt(line);
      if pos == |line| then Collect(lines[1..], h)
      else if Throws(line) then (h, false)
      else Collect(lines[1..], h[line[..pos] := line[pos + 2..]])
  }

  lemma {:induction false} CollectAppend(a: seq<Bytes>, b: seq<Bytes>, h: Headers)
    requires Collect(a, h).1
    ensures Collect(a + b, h) == Collect(b, Collect(a, h).0)
  {
    if a == [] {
      assert a + b == b;
    } else {
      var line := a[0];
      var pos := ColonAt(line);
      assert (a + b)[1..] == a[1..] + b;
      CollectAppend(a[1..], b, if pos == |line| then h else h[line[..pos] := line[pos + 2..]]);
    }
  }

  lemma {:induction false} ColonAtUnique(line: Bytes, pos: nat)
    requires pos <= |line| && COLON !in line[..pos] && (pos < |line| ==> line[pos] == COLON)
    ensures ColonAt(line) == pos
  {
    if pos == 0 {
    } else {
      assert line[0] in line[..pos];
      assert line[1..][..pos - 1] == line[..pos][1..];
      ColonAtUnique(line[1..], pos - 1);
    }
  }

  /** A field line, whatever byte follows the colon (58): that byte is dropped, what is behind it
      is the value, and no other entry changes. */
  lemma FieldSetsValue(name: Bytes, separator: byte, value: Bytes, h: Headers)
    requires 58 !in name
    ensures Collect([name + [58, separator] + value], h) == (h[name := value], true)
  {
    var line := name + [58, separator] + value;
    assert line[..|name|] == name && line[|name| + 2..] == value;
    ColonAtUnique(line, |name|);
  }

  /** Parsing throws if and only if some line has its first colon as its last byte. */
  lemma {:induction false} ThrowsExactly(lines: seq<Bytes>, h: Headers)
    ensures Collect(lines, h).1 <==> forall k :: 0 <= k < |lines| ==> !Throws(lines[k])
  {
    if lines == [] {
    } else {
      var line := lines[0];
      var pos := ColonAt(line);
      ThrowsExactly(lines[1..], if pos + 1 >= |line| then h else h[line[..pos] := line[pos + 2..]]);
      assert forall k :: 0 < k < |lines| ==> lines[k] == lines[1..][k - 1];
    }
  }

  class Response {
    var headers: Headers

    constructor ()
      ensures headers == map[]
    {
      headers := map[];
    }
  }

  datatype Outcome = NoBuffer | Parsed | OutOfRange

  /** The buffer after all its tokens were cut off below `upto`: NUL in place of the first
      delimiter behind each token, everything else as it was. */
  function Cut(was: Bytes, delims: set<byte>, z: nat, upto: nat): Bytes {
    seq(|was|, k requires 0 <= k < |was| =>
      if 0 < k < z && k < upto && was[k] in delims && was[k - 1] !in delims then NUL else was[k])
  }

  /** Going back from a byte that is no delimiter to where its run starts. */
  lemma RunStart(text: Bytes, delims: set<byte>, k: nat) returns (lo: nat)
    requires 0 < k <= |text| && text[k - 1] !in delims && (k == |text| || text[k] in delims)
    ensures MaximalRun(text, delims, lo, k)
  {
    lo := k - 1;
    while lo > 0 && text[lo - 1] !in delims
      invariant lo < k && forall j :: lo <= j < k ==> text[j] !in delims
    {
      lo := lo - 1;
    }
  }

  /** The bytes of a parsed buffer that changed are exactly the ones right behind a token. */
  lemma CutsAreTokenEnds(was: Bytes, delims: set<byte>, k: nat)
    requires NUL !in delims && Terminated(was, 0) && k < |was|
    ensures var z := Terminator(was, 0);
            && (Cut(was, delims, z, |was|)[k] != was[k]
                <==> k < z && exists lo: nat :: MaximalRun(was[..z], delims, lo, k))
            && (Cut(was, delims, z, |was|)[k] != was[k] ==> Cut(was, delims, z, |was|)[k] == NUL)
  {
    var z := Terminator(was, 0);
    var text := was[..z];
    if 0 < k < z && was[k] in delims && was[k - 1] !in delims {
      var lo := RunStart(text, delims, k);
    }
    if k < z && exists lo: nat :: MaximalRun(text, delims, lo, k) {
      var lo: nat :| MaximalRun(text, delims, lo, k);
      assert text[k - 1] !in delims && text[k] in delims;
    }
  }

  /** A copy of the C string at `from` (the std::string constructor). */
  method CopyString(mem: array<byte>, from: nat) returns (r: Bytes)
    requires Terminated(mem[..], from)
    ensures r == Text(mem[..], from)
  {
    var e := from;
    while mem[e] != NUL
      invariant from <= e <= Terminator(mem[..], from)
      decreases Terminator(mem[..], from) - e
    {
      e := e + 1;
    }
    r := mem[from..e];
  }

  /** The body of the header loop for one line. */
  method AddLine(resp: Response, line: Bytes) returns (ok: bool)
    modifies resp
    ensures (resp.headers, ok) == Collect([line], old(resp.headers))
    ensures 58 !in line ==> ok && resp.headers == old(resp.headers)
    ensures forall pos :: 0 <= pos < |line| && line[pos] == 58 && 58 !in line[..pos] ==>
              if pos + 1 == |line| then !ok && resp.headers == old(resp.headers)
              else ok && resp.headers == old(resp.headers)[line[..pos] := line[pos + 2..]]
  {
    var pos := ColonAt(line);
    forall k | 0 <= k < |line| && line[k] == 58 && 58 !in line[..k]
      ensures k == pos
    {
      ColonAtUnique(line, k);
    }
    if pos == |line| {
      return true;
    }
    if pos + 2 > |line| {
      return false;
    }
    resp.headers := resp.headers[line[..pos] := line[pos + 2..]];
    ok := true;
  }

  /** Between two calls of Split from the header loop: the buffer is cut up to `index`; the lines
      of the original text are those done, the one at `sub`, and those of the text at `index`. */
  ghost predicate Progress(was: Bytes, now: Bytes, sub: Option<nat>, index: nat, done: seq<Bytes>) {
    && Terminated(was, 0)
    && var z := Terminator(was, 0);
    && index <= z
    && (index == 0 || index == z || was[index - 1] in CRLF)
    && now == Cut(was, CRLF, z, index)
    && Terminated(now, index) && Terminator(now, index) == z
    && (sub.Some? ==> sub.value < index && Terminated(now, sub.value))
    && Tokenize(Text(was, 0), CRLF)
       == done + (if sub.Some? then [Text(now, sub.value)] else []) + Tokenize(Text(now, index), CRLF)
  }

  lemma CutOnward(was: Bytes, z: nat, index: nat, t: nat, e: nat)
    requires index <= t < e <= z < |was| && was[z] == NUL
    requires index == 0 || was[index - 1] in CRLF
    requires AllDelimiters(was, index, t, CRLF) && NoDelimiters(was, t, e, CRLF)
    requires e < z ==> was[e] in CRLF
    ensures Cut(was, CRLF, z, index)[e := NUL] == Cut(was, CRLF, z, if e < z then e + 1 else e)
  {
  }

  lemma CutFrom(was: Bytes, z: nat, index: nat)
    requires z < |was| && was[z] == NUL && forall k :: index <= k < z ==> was[k] != NUL
    requires index <= z
    ensures var now := Cut(was, CRLF, z, index);
            && (forall k :: index <= k < |was| ==> now[k] == was[k])
            && Terminated(now, index) && Terminator(now, index) == z
  {
    TextIs(Cut(was, CRLF, z, index), index, z);
  }

  lemma CutStep(was: Bytes, now: Bytes, z: nat, index: nat, now': Bytes, t: nat, e: nat, index': nat)
    requires index <= t < e < |was| && z < |was| && was[z] == NUL && forall k :: index <= k < z ==> was[k] != NUL
    requires index <= z && (index == 0 || index == z || was[index - 1] in CRLF)
    requires now == Cut(was, CRLF, z, index) && now' == now[e := NUL] && e <= z
    requires AllDelimiters(now, index, t, CRLF) && NoDelimiters(now, t, e, CRLF)
    requires now[e] in CRLF || now[e] == NUL
    requires index' == if now[e] == NUL then e else e + 1
    ensures index' <= z && (index' == z || was[index' - 1] in CRLF)
    ensures now' == Cut(was, CRLF, z, index') && Terminated(now', index') && Terminator(now', index') == z
  {
    CutFrom(was, z, index);
    CutOnward(was, z, index, t, e);
    CutFrom(was, z, index');
  }

  /** A call of Split leads from one such point to the next. */
  lemma ProgressOnward(was: Bytes, now: Bytes, index: nat, done: seq<Bytes>,
                       now': Bytes, t: nat, index': nat)
    requires Progress(was, now, None, index, done)
    requires SplitResult(now, now', index, CRLF, index, Some(t), index')
    ensures Progress(was, now', Some(t), index', done)
  {
    var z, e := Terminator(was, 0), Terminator(now', t);
    CutStep(was, now, z, index, now', t, e, index');
    assert done + [] + Tokenize(Text(now, index), CRLF)
        == done + [Text(now', t)] + Tokenize(Text(now', index'), CRLF);
  }

  lemma ProgressNext(was: Bytes, now: Bytes, index: nat, done: seq<Bytes>,
                     now': Bytes, sub: Option<nat>, index': nat)
    requires Progress(was, now, None, index, done)
    requires SplitResult(now, now', index, CRLF, index, sub, index')
    ensures Progress(was, now', sub, index', done)
    ensures sub.None? ==> Tokenize(Text(now', index'), CRLF) == []
  {
    if sub.Some? {
      ProgressOnward(was, now, index, done, now', sub.value, index');
    }
  }

  /** One more line handled. */
  lemma CollectOneMore(done: seq<Bytes>, line: Bytes, rest: seq<Bytes>, h0: Headers, h: Headers)
    requires Collect(done, h0) == (h, true)
    ensures Collect([line], h).1 ==> Collect(done + [line], h0) == Collect([line], h)
    ensures !Collect([line], h).1 ==> Collect(done + [line] + rest, h0) == Collect([line], h)
  {
    CollectAppend(done, [line], h0);
    CollectAppend(done, [line] + rest, h0);
    assert done + [line] + rest == done + ([line] + rest);
  }

  /** Nothing left to return means nothing but delimiters left. */
  lemma {:induction false} NoTokens(text: Bytes, delims: set<byte>)
    requires Tokenize(text, delims) == []
    ensures forall k :: 0 <= k < |text| ==> text[k] in delims
  {
    if text == [] {
    } else {
      NoTokens(text[1..], delims);
      assert forall k :: 0 < k < |text| ==> text[k] == text[1..][k - 1];
    }
  }

  lemma ProgressDone(was: Bytes, now: Bytes, index: nat, done: seq<Bytes>)
    requires Progress(was, now, None, index, done) && Tokenize(Text(now, index), CRLF) == []
    ensures done == Tokenize(Text(was, 0), CRLF)
    ensures now == Cut(was, CRLF, Terminator(was, 0), |was|)
  {
    var text := Text(now, index);
    NoTokens(text, CRLF);
    assert forall k :: index <= k < Terminator(was, 0) ==> was[k] == text[k - index];
  }

  /** The buffer is cut up to the first line that throws: behind `upto` the lines that follow it are
      still to come. */
  ghost predicate CutBehindThrow(was: Bytes, now: Bytes, upto: nat)
    requires Terminated(was, 0)
  {
    var z, lines := Terminator(was, 0), Tokenize(CString(was), CRLF);
    && upto <= z && now == Cut(was, CRLF, z, upto)
    && exists n :: 0 <= n < |lines| && Throws(lines[n]) && (forall j :: 0 <= j < n ==> !Throws(lines[j]))
                   && Tokenize(was[upto..z], CRLF) == lines[n + 1..]
  }

  /** What the header loop makes of the buffer `was` and the headers `h0`: the lines of the
      buffer's text, split at CR and LF, are added one by one; and the buffer is as it was but for
      one NUL behind each token, up to the one that threw if any did. */
  ghost predicate HeaderResult(was: Bytes, now: Bytes, h0: Headers, h: Headers, r: Outcome) {
    && Terminated(was, 0) && r != NoBuffer
    && (h, r == Parsed) == Collect(Tokenize(CString(was), CRLF), h0)
    && (r == Parsed ==> now == Cut(was, CRLF, Terminator(was, 0), |was|))
    && (r == OutOfRange ==> exists upto: nat :: CutBehindThrow(was, now, upto))
  }

  lemma HeadersDone(was: Bytes, now: Bytes, index: nat, done: seq<Bytes>, h0: Headers, h: Headers)
    requires Progress(was, now, None, index, done) && Tokenize(Text(now, index), CRLF) == []
    requires Collect(done, h0) == (h, true)
    ensures HeaderResult(was, now, h0, h, Parsed)
  {
    ProgressDone(was, now, index, done);
    TextIsCString(was);
  }

  lemma HeadersThrow(
    was: Bytes, now: Bytes, sub: nat, index: nat, done: seq<Bytes>, h0: Headers, h: Headers, h': Headers
  )
    requires Progress(was, now, Some(sub), index, done)
    requires Collect(done, h0) == (h, true) && Collect([Text(now, sub)], h) == (h', false)
    ensures HeaderResult(was, now, h0, h', OutOfRange)
  {
    var line, rest := Text(now, sub), Tokenize(Text(now, index), CRLF);
    CollectOneMore(done, line, rest, h0, h);
    TextIsCString(was);
    ThrowsExactly(done, h0);
    ThrowsExactly([line], h);
    var z, lines := Terminator(was, 0), done + [line] + rest;
    CutFrom(was, z, index);
    assert now[index..z] == was[index..z];
    assert lines[|done|] == line && lines[|done| + 1..] == rest;
    assert forall j :: 0 <= j < |done| ==> lines[j] == done[j];
    assert CutBehindThrow(was, now, index);
  }

  lemma HeadersOnward(
    was: Bytes, now: Bytes, sub: nat, index: nat, done: seq<Bytes>, h0: Headers, h: Headers, h': Headers
  )
    requires Progress(was, now, Some(sub), index, done)
    requires Collect(done, h0) == (h, true) && Collect([Text(now, sub)], h) == (h', true)
    ensures Progress(was, now, None, index, done + [Text(now, sub)])
    ensures Collect(done + [Text(now, sub)], h0) == (h', true)
  {
    CollectOneMore(done, Text(now, sub), [], h0, h);
  }

  lemma ProgressStart(was: Bytes)
    requires Terminated(was, 0)
    ensures Progress(was, was, None, 0, [])
  {
    assert [] + [] + Tokenize(Text(was, 0), CRLF) == Tokenize(Text(was, 0), CRLF);
  }

  /** The header loop. */
  method BeautifyHeader(resp: Response, buf: array?<byte>) returns (r: Outcome)
    requires buf != null ==> Terminated(buf[..], 0)
    modifies resp, if buf == null then {} else {buf}
    ensures buf == null ==> r == NoBuffer && resp.headers == old(resp.headers)
    ensures buf != null ==> HeaderResult(old(buf[..]), buf[..], old(resp.headers), resp.headers, r)
  {
    if buf == null {
      return NoBuffer;
    }
    ghost var was, h0, done := buf[..], resp.headers, [];
    ProgressStart(was);
    var sub, index := Split(buf, Some(0), CRLF, 0);
    ProgressNext(was, was, 0, done, buf[..], sub, index);
    while sub.Some?
      invariant Progress(was, buf[..], sub, index, done)
      invariant sub.None? ==> Tokenize(Text(buf[..], index), CRLF) == []
      invariant Collect(done, h0) == (resp.headers, true)
      decreases buf.Length - index, if sub.Some? then 1 else 0
    {
      ghost var now, at, start, h := buf[..], index, sub.value, resp.headers;
      var tmp := CopyString(buf, sub.value);
      var ok := AddLine(resp, tmp);
      assert buf[..] == now;
      if !ok {
        HeadersThrow(was, now, start, index, done, h0, h, resp.headers);
        return OutOfRange;
      }
      HeadersOnward(was, now, start, index, done, h0, h, resp.headers);
      done := done + [tmp];
      sub, index := Split(buf, None, CRLF, index);
      ProgressNext(was, now, at, done, buf[..], sub, index);
    }
    HeadersDone(was, buf[..], index, done, h0, resp.headers);
    r := Parsed;
  }
}
