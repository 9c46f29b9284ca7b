/** The receive buffer of Socket&Http/SimpleHttp.cpp: user_data_write appends each chunk that
    arrives to a block that it reallocates when the chunk does not fit. */
module RecvBuffer {
  import opened Tokens
  import opened HeaderParser
  import opened Wrappers

  const RECV_BUF_INIT_SIZE: nat := 512

  // ----- on values -----

  /** Contents (their length is `size`), capacity, and whether every terminator so far was
      written inside the block. */
  datatype Buffer = Buffer(contents: Bytes, cap: nat, inBounds: bool)

  /** A chunk, and whether a reallocation succeeds if this chunk needs one. */
  datatype Delivery = Delivery(chunk: Bytes, memory: bool)

  const EMPTY: Buffer := Buffer([], RECV_BUF_INIT_SIZE, true)

  predicate NeedsRoom(b: Buffer, chunk: Bytes) {
    |chunk| + |b.contents| > b.cap
  }

  predicate Accepts(b: Buffer, d: Delivery) {
    NeedsRoom(b, d.chunk) ==> d.memory
  }

  /** The write ends exactly at the capacity: no growth, and no room for the terminator. */
  predicate LandsOnCapacity(b: Buffer, chunk: Bytes) {
    |chunk| + |b.contents| == b.cap
  }

  function Write(b: Buffer, d: Delivery): Buffer {
    if !Accepts(b, d) then b
    else
      var cap := if NeedsRoom(b, d.chunk) then |b.contents| + |d.chunk| + 1 else b.cap;
      Buffer(b.contents + d.chunk, cap, b.inBounds && |b.contents| + |d.chunk| < cap)
  }

  function WriteAll(b: Buffer, ds: seq<Delivery>): Buffer
    decreases ds
  {
    if ds == [] then b else WriteAll(Write(b, ds[0]), ds[1..])
  }

  /** The chunks that were accepted, one after the other. */
  function Accepted(b: Buffer, ds: seq<Delivery>): Bytes
    decreases ds
  {
    if ds == [] then []
    else (if Accepts(b, ds[0]) then ds[0].chunk else []) + Accepted(Write(b, ds[0]), ds[1..])
  }

  predicate NoneLands(b: Buffer, ds: seq<Delivery>)
    decreases ds
  {
    ds == [] || ((Accepts(b, ds[0]) ==> !LandsOnCapacity(b, ds[0].chunk)) && NoneLands(Write(b, ds[0]), ds[1..]))
  }

  predicate AllAccepted(b: Buffer, ds: seq<Delivery>)
    decreases ds
  {
    ds == [] || (Accepts(b, ds[0]) && AllAccepted(Write(b, ds[0]), ds[1..]))
  }

  function Joined(ds: seq<Delivery>): Bytes {
    if ds == [] then [] else ds[0].chunk + Joined(ds[1..])
  }

  /** Whatever happens, the buffer holds the accepted chunks in order and never more than its
      capacity; and all terminators were in bounds if and only if no accepted write landed
      exactly on the capacity. Refused chunks change nothing. */
  lemma {:induction false} WritesKeepBuffer(b: Buffer, ds: seq<Delivery>)
    requires |b.contents| <= b.cap
    ensures var e := WriteAll(b, ds);
            && e.contents == b.contents + Accepted(b, ds)
            && |e.contents| <= e.cap
            && (e.inBounds <==> b.inBounds && NoneLands(b, ds))
            && (b.inBounds && |b.contents| < b.cap && NoneLands(b, ds) ==> |e.contents| < e.cap)
            && ((forall k :: 0 <= k < |ds| ==> !Accepts(b, ds[k])) ==> e == b)
    decreases ds
  {
    if ds == [] {
    } else {
      var next := Write(b, ds[0]);
      WritesKeepBuffer(next, ds[1..]);
      if Accepts(b, ds[0]) {
        assert b.contents + (ds[0].chunk + Accepted(next, ds[1..])) == next.contents + Accepted(next, ds[1..]);
      } else {
        assert [] + Accepted(next, ds[1..]) == Accepted(next, ds[1..]);
      }
    }
  }

  lemma {:induction false} AllAcceptedIsJoined(b: Buffer, ds: seq<Delivery>)
    requires AllAccepted(b, ds)
    ensures Accepted(b, ds) == Joined(ds)
    decreases ds
  {
    if ds == [] {
    } else {
      AllAcceptedIsJoined(Write(b, ds[0]), ds[1..]);
    }
  }

  /** One write in terms of sizes. What fits into the block is stored, whether or not there is more
      memory; what does not fit is refused without memory, and otherwise makes the block grow to
      just one byte more than its new contents. */
  lemma WriteGrowsOnlyWhenFull(b: Buffer, chunk: Bytes, memory: bool)
    ensures var e := Write(b, Delivery(chunk, memory));
            && (|b.contents| + |chunk| <= b.cap ==> e.contents == b.contents + chunk && e.cap == b.cap)
            && (|b.contents| + |chunk| > b.cap && !memory ==> e == b)
            && (|b.contents| + |chunk| > b.cap && memory ==>
                  e.contents == b.contents + chunk && e.cap == |b.contents| + |chunk| + 1)
  {
  }

  /** As long as the chunks fit into the block nothing is ever refused, however little memory is
      left, and the block does not grow. */
  lemma {:induction false} FittingNeedsNoMemory(b: Buffer, ds: seq<Delivery>)
    requires |b.contents| + |Joined(ds)| <= b.cap
    ensures WriteAll(b, ds).contents == b.contents + Joined(ds) && WriteAll(b, ds).cap == b.cap
    decreases ds
  {
    if ds == [] {
    } else {
      var d, rest := ds[0], ds[1..];
      WriteGrowsOnlyWhenFull(b, d.chunk, d.memory);
      FittingNeedsNoMemory(Write(b, d), rest);
      assert b.contents + (d.chunk + Joined(rest)) == b.contents + d.chunk + Joined(rest);
    }
  }

  /** With memory enough nothing is ever refused, whatever the sizes. */
  lemma {:induction false} MemoryAcceptsAll(b: Buffer, ds: seq<Delivery>)
    requires forall d <- ds :: d.memory
    ensures WriteAll(b, ds).contents == b.contents + Joined(ds)
    decreases ds
  {
    if ds == [] {
    } else {
      var d, rest := ds[0], ds[1..];
      assert d in ds && forall e <- rest :: e in ds;
      WriteGrowsOnlyWhenFull(b, d.chunk, d.memory);
      MemoryAcceptsAll(Write(b, d), rest);
      assert b.contents + (d.chunk + Joined(rest)) == b.contents + d.chunk + Joined(rest);
    }
  }

  /** Without any memory left the block keeps its size and all it holds; when no chunk fits,
      nothing is stored at all. */
  lemma {:induction false} WithoutMemoryBlockStays(b: Buffer, ds: seq<Delivery>)
    requires |b.contents| <= b.cap && forall d <- ds :: !d.memory
    ensures WriteAll(b, ds).cap == b.cap && |WriteAll(b, ds).contents| <= b.cap
    ensures b.contents <= WriteAll(b, ds).contents
    ensures (forall d <- ds :: |b.contents| + |d.chunk| > b.cap) ==> WriteAll(b, ds) == b
    decreases ds
  {
    if ds == [] {
    } else {
      var d, rest := ds[0], ds[1..];
      assert d in ds && forall e <- rest :: e in ds;
      WriteGrowsOnlyWhenFull(b, d.chunk, false);
      WithoutMemoryBlockStays(Write(b, d), rest);
    }
  }

  /** The capacity of a buffer on which no write has landed. */
  predicate RegularCapacity(b: Buffer) {
    b.cap == if |b.contents| < 512 then 512 else |b.contents| + 1
  }

  /** With `size` bytes in the buffer, a chunk of `n` bytes is safe unless it fills the initial
      block to the brim, or is a single byte behind a full initial block. */
  predicate SafeSize(size: nat, n: nat) {
    if size < 512 then size + n != 512 else n != 1
  }

  predicate SafeSizes(size: nat, ds: seq<Delivery>)
    decreases ds
  {
    ds == [] || (SafeSize(size, |ds[0].chunk|) && SafeSizes(size + |ds[0].chunk|, ds[1..]))
  }

  /** Whether a write will land on the capacity shows in the sizes of the chunks alone. */
  lemma {:induction false} LandingShowsInSizes(b: Buffer, ds: seq<Delivery>)
    requires RegularCapacity(b) && AllAccepted(b, ds)
    ensures NoneLands(b, ds) <==> SafeSizes(|b.contents|, ds)
    decreases ds
  {
    if ds == [] || LandsOnCapacity(b, ds[0].chunk) {
    } else {
      LandingShowsInSizes(Write(b, ds[0]), ds[1..]);
    }
  }

  lemma WriteOne(b: Buffer, d: Delivery)
    ensures WriteAll(b, [d]) == Write(b, d)
  {
    assert [d][1..] == [];
  }

  /** The first 512 bytes of a response, arriving in one chunk, do land on the capacity; so does
      a single byte right behind a larger first chunk. */
  lemma LandingHappens(chunk: Bytes, one: Bytes)
    requires |one| == 1
    ensures |chunk| == 512 ==> !WriteAll(EMPTY, [Delivery(chunk, true)]).inBounds
    ensures |chunk| > 512 ==> !WriteAll(EMPTY, [Delivery(chunk, true), Delivery(one, true)]).inBounds
  {
    var first, second := Delivery(chunk, true), Delivery(one, true);
    WriteOne(EMPTY, first);
    WriteOne(Write(EMPTY, first), second);
    assert [first, second][1..] == [second];
  }

  // ----- the memory -----

  /** The block behind a buffer value: contents, then the terminator if there is room. */
  ghost predicate Backs(memory: Bytes, b: Buffer) {
    && |memory| == b.cap && |b.contents| <= b.cap
    && memory[..|b.contents|] == b.contents
    && (|b.contents| < b.cap ==> memory[|b.contents|] == NUL)
  }

  /** What the block denotes as a C string depends on the contents alone. */
  lemma BlockText(memory: Bytes, b: Buffer)
    requires Backs(memory, b) && |b.contents| < b.cap
    ensures Terminated(memory, 0) && CString(memory) == CString(b.contents + [NUL])
  {
    var n := |b.contents|;
    assert memory == b.contents + [NUL] + memory[n + 1..];
    CStringCut(b.contents, memory[n + 1..]);
  }

  lemma {:induction false} CStringCut(contents: Bytes, rest: Bytes)
    ensures CString(contents + [NUL] + rest) == CString(contents + [NUL])
  {
    if contents == [] {
    } else {
      assert (contents + [NUL] + rest)[1..] == contents[1..] + [NUL] + rest;
      assert (contents + [NUL])[1..] == contents[1..] + [NUL];
      CStringCut(contents[1..], rest);
    }
  }

  /** Fragmentation independence: however the same bytes are cut into chunks of safe sizes, as
      long as no reallocation fails, the contents are the same, all terminators were in bounds,
      and any blocks that hold the contents denote the same text, so they parse to the same
      headers. */
  lemma FragmentationDoesNotMatter(ds: seq<Delivery>, ds': seq<Delivery>, memory: Bytes, memory': Bytes, h: Headers)
    requires Joined(ds) == Joined(ds')
    requires AllAccepted(EMPTY, ds) && SafeSizes(0, ds) && Backs(memory, WriteAll(EMPTY, ds))
    requires AllAccepted(EMPTY, ds') && SafeSizes(0, ds') && Backs(memory', WriteAll(EMPTY, ds'))
    ensures WriteAll(EMPTY, ds).contents == WriteAll(EMPTY, ds').contents == Joined(ds)
    ensures WriteAll(EMPTY, ds).inBounds && WriteAll(EMPTY, ds').inBounds
    ensures Terminated(memory, 0) && Terminated(memory', 0)
    ensures Collect(Tokenize(CString(memory), CRLF), h) == Collect(Tokenize(CString(memory'), CRLF), h)
  {
    ContentsAreJoined(ds);
    ContentsAreJoined(ds');
    BlockText(memory, WriteAll(EMPTY, ds));
    BlockText(memory', WriteAll(EMPTY, ds'));
  }

  lemma ContentsAreJoined(ds: seq<Delivery>)
    requires AllAccepted(EMPTY, ds)
    ensures WriteAll(EMPTY, ds).contents == Joined(ds)
    ensures WriteAll(EMPTY, ds).inBounds <==> SafeSizes(0, ds)
    ensures SafeSizes(0, ds) ==> |WriteAll(EMPTY, ds).contents| < WriteAll(EMPTY, ds).cap
  {
    LandingShowsInSizes(EMPTY, ds);
    WritesKeepBuffer(EMPTY, ds);
    AllAcceptedIsJoined(EMPTY, ds);
    assert [] + Joined(ds) == Joined(ds);
  }

  // ----- the object -----

  /** Return values are unsigned 32-bit. */
  const UINT: nat := 0x1_0000_0000

  class MemoryStruct {
    var memory: array?<byte>
    var size: nat
    var cap: nat
    var inBounds: bool
    var file: Option<Bytes>

    ghost function View(): Buffer
      requires memory != null && size <= memory.Length
      reads this, memory
    {
      Buffer(memory[..size], cap, inBounds)
    }

    ghost predicate Valid()
      reads this, memory
    {
      memory != null ==> size <= cap && memory.Length == cap && Backs(memory[..], View())
    }

    /** The set-up of a body buffer, of which all bytes are zeroed, or of a header buffer, of
        which only the first half is. */
    constructor (zeroed: nat)
      requires 0 < zeroed <= 512
      ensures Valid() && memory != null && fresh(memory) && file == None && View() == EMPTY
      ensures size == 0 && cap == memory.Length == 512
      ensures forall k :: 0 <= k < zeroed ==> memory[k] == 0
    {
      var block := new byte[RECV_BUF_INIT_SIZE];
      forall k | 0 <= k < zeroed {
        block[k] := NUL;
      }
      memory := block;
      size, cap, inBounds := 0, RECV_BUF_INIT_SIZE, true;
      file := None;
    }

    /** A larger block with the old bytes in front; the rest is whatever malloc left there. */
    method Reallocate(n: nat) returns (block: array<byte>)
      requires memory != null && size <= memory.Length <= n
      ensures fresh(block) && block.Length == n && block[..size] == memory[..size]
    {
      block := new byte[n];
      forall k | 0 <= k < memory.Length {
        block[k] := memory[k];
      }
    }
  }

  /** The write callback, for `items` items of `itemSize` bytes each. `memoryLeft` is whether
      realloc succeeds if it is called; `written` is the number of items that fwrite reports and
      `taken` the number of bytes that reach the file, which may end inside an item. The store of
      the terminator behind the block, when the write lands on the capacity, is recorded in
      `inBounds` and not carried out. */
  method UserDataWrite(
    mem: MemoryStruct?, content: Bytes, itemSize: nat, items: nat,
    memoryLeft: bool, written: nat, taken: nat
  )
    returns (r: nat)
    requires mem != null ==> mem.Valid()
    requires |content| == itemSize * items
    requires written <= items && written * itemSize <= taken <= |content|
    modifies if mem == null then {} else {mem}, if mem == null || mem.memory == null then {} else {mem.memory}
    ensures mem == null ==> r == 0xFFFF_FFFF
    ensures mem != null ==> mem.Valid() && (mem.memory == null <==> old(mem.memory) == null)
    ensures mem != null && mem.memory != null ==>
              && mem.View() == Write(old(mem.View()), Delivery(content, memoryLeft))
              && (mem.memory == old(mem.memory) || fresh(mem.memory))
              && mem.file == old(mem.file)
    ensures mem != null && mem.memory != null && (memoryLeft || old(mem.size) + |content| <= old(mem.cap)) ==>
              && mem.size == old(mem.size) + |content|
              && mem.memory[..mem.size] == old(mem.memory[..mem.size]) + content
              && mem.cap == (if mem.size <= old(mem.cap) then old(mem.cap) else mem.size + 1)
              && (mem.size < mem.cap ==> mem.memory[mem.size] == 0)
              && r == |content| % 0x1_0000_0000
    ensures mem != null && mem.memory != null && !(memoryLeft || old(mem.size) + |content| <= old(mem.cap)) ==>
              mem.View() == old(mem.View()) && mem.memory == old(mem.memory) && r == 0
    ensures mem != null && mem.memory == null && old(mem.file).Some? ==>
              && mem.file == Some(old(mem.file).value + content[..taken])
              && mem.size == old(mem.size) + written && r == |content| % 0x1_0000_0000
    ensures mem != null && mem.memory == null && old(mem.file).None? ==>
              mem.file == None && mem.size == old(mem.size) && r == 0xFFFF_FFFE
  {
    if mem == null {
      return UINT - 1;
    }
    var realsize := itemSize * items;
    if mem.memory != null {
      ghost var was := mem.View();
      if realsize + mem.size > mem.cap {
        if !memoryLeft {
          return 0;
        }
        var block := mem.Reallocate(mem.size + realsize + 1);
        mem.memory := block;
        mem.cap := mem.size + realsize + 1;
      }
      assert mem.memory[..mem.size] == was.contents;
      var block, start := mem.memory, mem.size;
      forall k | 0 <= k < realsize {
        block[start + k] := content[k];
      }
      assert mem.memory[..mem.size] == was.contents;
      mem.size := mem.size + realsize;
      assert mem.memory[..mem.size] == was.contents + content;
      if mem.size < mem.cap {
        mem.memory[mem.size] := NUL;
      } else {
        mem.inBounds := false;
      }
      assert mem.memory[..mem.size] == was.contents + content;
      r := realsize % UINT;
    } else if mem.file.Some? {
      mem.file := Some(mem.file.value + content[..taken]);
      mem.size := mem.size + written;
      r := realsize % UINT;
    } else {
      r := UINT - 2;
    }
  }
}
