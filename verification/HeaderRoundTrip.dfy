/** What parsing a header block gives back: the laws of the header map. */
module HeaderRoundTrip {
  import opened Tokens
  import opened HeaderParser
  import RecvBuffer

  /** A line of a header block: a status line, or a field, with one byte between its colon and its
      value; HeaderAdd puts a space there. */
  datatype Item = Status(text: Bytes) | Field(name: Bytes, separator: byte, value: Bytes)

  /** No CR, LF or NUL. */
  predicate Clean(b: Bytes) {
    13 !in b && 10 !in b && 0 !in b
  }

  predicate WellFormed(item: Item) {
    match item
    case Status(text) => Clean(text) && 58 !in text
    case Field(name, separator, value) => Clean(name) && Clean([separator]) && Clean(value) && 58 !in name
  }

  function Line(item: Item): Bytes {
    match item
    case Status(text) => text
    case Field(name, separator, value) => name + [COLON, separator] + value
  }

  /** The lines, joined by CR LF. */
  function Render(items: seq<Item>): Bytes {
    if items == [] then []
    else if |items| == 1 then Line(items[0])
    else Line(items[0]) + [CR, LF] + Render(items[1..])
  }

  /** The field `i` is the last one of its name. */
  predicate LastOfItsName(items: seq<Item>, i: nat) {
    && i < |items| && items[i].Field?
    && forall j :: i < j < |items| && items[j].Field? ==> items[j].name != items[i].name
  }

  /** `m` holds the names that occur, each with the value of its last occurrence. */
  ghost predicate LastValueWins(items: seq<Item>, m: Headers) {
    && (forall name :: name in m <==> exists i :: 0 <= i < |items| && items[i].Field? && items[i].name == name)
    && (forall i :: 0 <= i < |items| && LastOfItsName(items, i) ==>
          items[i].name in m && m[items[i].name] == items[i].value)
  }

  lemma CleanAppend(a: Bytes, b: Bytes)
    ensures Clean(a + b) <==> Clean(a) && Clean(b)
  {
  }

  lemma LineIsClean(item: Item)
    requires WellFormed(item)
    ensures Clean(Line(item))
  {
    if item.Field? {
      assert [COLON, item.separator] == [COLON] + [item.separator];
      CleanAppend([COLON], [item.separator]);
      CleanAppend(item.name, [COLON, item.separator]);
      CleanAppend(item.name + [COLON, item.separator], item.value);
    }
  }

  /** The non-empty lines. */
  function Lines(items: seq<Item>): seq<Bytes> {
    if items == [] then []
    else (if Line(items[0]) == [] then [] else [Line(items[0])]) + Lines(items[1..])
  }

  lemma {:induction false} RenderedTokens(items: seq<Item>)
    requires forall i :: 0 <= i < |items| ==> WellFormed(items[i])
    ensures Tokenize(Render(items), CRLF) == Lines(items)
    ensures NUL !in Render(items)
  {
    if items == [] {
    } else {
      var line, rest := Line(items[0]), Render(items[1..]);
      LineIsClean(items[0]);
      TokenizeRun(line, CRLF);
      if |items| > 1 {
        RenderedTokens(items[1..]);
        assert Render(items) == line + [CR] + ([LF] + rest);
        TokenizeSeparated(line, CR, [LF] + rest, CRLF);
        assert ([LF] + rest)[1..] == rest;
      } else {
        assert items[1..] == [];
      }
    }
  }

  lemma FieldColon(name: Bytes, separator: byte, value: Bytes)
    requires COLON !in name
    ensures var line := name + [COLON, separator] + value;
            ColonAt(line) == |name| && line[..|name|] == name && line[|name| + 2..] == value
  {
    var line := name + [COLON, separator] + value;
    assert line[..|name|] == name;
    ColonAtUnique(line, |name|);
  }

  lemma StatusColon(text: Bytes)
    requires COLON !in text
    ensures ColonAt(text) == |text|
  {
  }

  /** The header map with the fields of `items` entered one after the other. */
  function Enter(items: seq<Item>, h: Headers): Headers {
    if items == [] then h
    else Enter(items[1..], if items[0].Field? then h[items[0].name := items[0].value] else h)
  }

  lemma {:induction false} CollectEnters(items: seq<Item>, h: Headers)
    requires forall i :: 0 <= i < |items| ==> WellFormed(items[i])
    ensures Collect(Lines(items), h) == (Enter(items, h), true)
  {
    if items == [] {
    } else {
      var line := Line(items[0]);
      match items[0] {
        case Status(text) =>
          StatusColon(text);
          CollectEnters(items[1..], h);
        case Field(name, separator, value) =>
          FieldColon(name, separator, value);
          CollectEnters(items[1..], h[name := value]);
      }
      if line == [] {
        assert Lines(items) == Lines(items[1..]);
      } else {
        assert Lines(items)[1..] == Lines(items[1..]);
      }
    }
  }

  predicate Named(items: seq<Item>, name: Bytes) {
    exists i :: 0 <= i < |items| && items[i].Field? && items[i].name == name
  }

  lemma {:induction false} EnterKeepsOthers(items: seq<Item>, h: Headers, name: Bytes)
    ensures name in Enter(items, h) <==> name in h || Named(items, name)
    ensures !Named(items, name) && name in h ==> Enter(items, h)[name] == h[name]
  {
    if items == [] {
    } else {
      var h' := if items[0].Field? then h[items[0].name := items[0].value] else h;
      EnterKeepsOthers(items[1..], h', name);
      assert Named(items, name) <==> (items[0].Field? && items[0].name == name) || Named(items[1..], name) by {
        assert forall i :: 0 < i < |items| ==> items[i] == items[1..][i - 1];
        assert forall i :: 0 <= i < |items| - 1 ==> items[i + 1] == items[1..][i];
      }
    }
  }

  lemma {:induction false} EnterLastWins(items: seq<Item>, h: Headers, i: nat)
    requires LastOfItsName(items, i)
    ensures items[i].name in Enter(items, h) && Enter(items, h)[items[i].name] == items[i].value
  {
    var h' := if items[0].Field? then h[items[0].name := items[0].value] else h;
    var rest := items[1..];
    assert forall j :: 0 <= j < |rest| ==> rest[j] == items[j + 1];
    if i == 0 {
      assert !Named(rest, items[0].name);
      EnterKeepsOthers(rest, h', items[0].name);
    } else {
      EnterLastWins(rest, h', i - 1);
    }
  }

  /** A buffer that holds a header block, possibly followed by more line ends, and whatever else
      behind the terminator, denotes that block. */
  lemma BlockText(block: Bytes, tail: Bytes, garbage: Bytes)
    requires NUL !in block && forall k :: 0 <= k < |tail| ==> tail[k] in CRLF
    ensures CString(block + tail + [NUL] + garbage) == block + tail
    ensures Terminated(block + tail + [NUL] + garbage, 0)
  {
    var text := block + tail;
    var mem := text + [NUL] + garbage;
    assert mem[|text|] == NUL && mem[..|text|] == text;
    CStringEnds(mem, |text|);
  }

  /** Header round trip: parsing a rendered block of status lines and fields gives back every
      field name with its last value, whatever the byte behind each colon was, never throws, and
      is not disturbed by more line ends at the end or by what lies behind the terminator. */
  lemma HeadersComeBack(items: seq<Item>, tail: Bytes, garbage: Bytes)
    requires forall i :: 0 <= i < |items| ==> WellFormed(items[i])
    requires forall k :: 0 <= k < |tail| ==> tail[k] == 13 || tail[k] == 10
    ensures var (m, ok) := Collect(Tokenize(CString(Render(items) + tail + [0] + garbage), CRLF), map[]);
            ok && LastValueWins(items, m)
  {
    RenderedTokens(items);
    BlockText(Render(items), tail, garbage);
    TokenizeTail(Render(items), tail, CRLF);
    CollectEnters(items, map[]);
    var m := Enter(items, map[]);
    forall name
      ensures name in m <==> exists i :: 0 <= i < |items| && items[i].Field? && items[i].name == name
    {
      EnterKeepsOthers(items, map[], name);
    }
    forall i | 0 <= i < |items| && LastOfItsName(items, i)
      ensures items[i].name in m && m[items[i].name] == items[i].value
    {
      EnterLastWins(items, map[], i);
    }
  }

  /** From the wire to the map: a rendered header block that arrives in chunks of safe sizes,
      however many, is in the header buffer's memory such that the header loop gives back every
      field name with its last value. */
  lemma ReceivedHeadersComeBack(items: seq<Item>, tail: Bytes, ds: seq<RecvBuffer.Delivery>, memory: Bytes)
    requires forall i :: 0 <= i < |items| ==> WellFormed(items[i])
    requires forall k :: 0 <= k < |tail| ==> tail[k] == 13 || tail[k] == 10
    requires RecvBuffer.Joined(ds) == Render(items) + tail
    requires RecvBuffer.AllAccepted(RecvBuffer.EMPTY, ds) && RecvBuffer.SafeSizes(0, ds)
    requires RecvBuffer.Backs(memory, RecvBuffer.WriteAll(RecvBuffer.EMPTY, ds))
    ensures Terminated(memory, 0)
    ensures var (m, ok) := Collect(Tokenize(CString(memory), CRLF), map[]);
            ok && LastValueWins(items, m)
  {
    RecvBuffer.ContentsAreJoined(ds);
    RecvBuffer.BlockText(memory, RecvBuffer.WriteAll(RecvBuffer.EMPTY, ds));
    HeadersComeBack(items, tail, []);
    assert Render(items) + tail + [NUL] + [] == Render(items) + tail + [NUL];
  }

  // ----- fields written otherwise -----

  /** A field without a value, its colon right before the line end, makes parsing throw, with the
      headers as they were. */
  lemma EmptyFieldThrows(name: Bytes, more: Bytes, garbage: Bytes, h: Headers)
    requires Clean(name) && COLON !in name
    ensures Collect(Tokenize(CString(name + [COLON, CR, LF] + more + [NUL] + garbage), CRLF), h) == (h, false)
  {
    var line := name + [COLON];
    var mem := name + [COLON, CR, LF] + more + [NUL] + garbage;
    assert mem == line + [CR, LF] + more + [NUL] + garbage;
    CStringKeeps(line, [CR, LF] + more + [NUL] + garbage);
    assert mem == line + ([CR, LF] + more + [NUL] + garbage);
    var rest := CString([CR, LF] + more + [NUL] + garbage);
    assert rest[0] == CR && rest == [CR] + rest[1..];
    assert CString(mem) == line + [CR] + rest[1..];
    TokenizeSeparated(line, CR, rest[1..], CRLF);
    TokenizeRun(line, CRLF);
    assert line[..|name|] == name;
    ColonAtUnique(line, |name|);
  }

  lemma {:induction false} CStringKeeps(a: Bytes, b: Bytes)
    requires NUL !in a
    ensures CString(a + b) == a + CString(b)
  {
    if a == [] {
      assert a + b == b;
    } else {
      assert a[0] in a && forall x :: x in a[1..] ==> x in a;
      assert (a + b)[1..] == a[1..] + b;
      CStringKeeps(a[1..], b);
      assert a == [a[0]] + a[1..];
    }
  }

  const HTAB: byte := 9

  predicate IsOws(b: byte) { b == SP || b == HTAB }

  function TrimLeft(b: Bytes): Bytes {
    if b != [] && IsOws(b[0]) then TrimLeft(b[1..]) else b
  }

  function TrimRight(b: Bytes): Bytes {
    if b != [] && IsOws(b[|b| - 1]) then TrimRight(b[..|b| - 1]) else b
  }

  /** The field value of section 5 of RFC 9112: without the optional whitespace around it. */
  function FieldValue(afterColon: Bytes): Bytes {
    TrimRight(TrimLeft(afterColon))
  }

  lemma {:induction false} TrimLeftShape(b: Bytes)
    ensures |TrimLeft(b)| <= |b|
    ensures |TrimLeft(b)| == |b| <==> TrimLeft(b) == b
    ensures TrimLeft(b) == b <==> b == [] || !IsOws(b[0])
  {
    if b == [] {
    } else {
      TrimLeftShape(b[1..]);
    }
  }

  lemma {:induction false} TrimRightShape(b: Bytes)
    ensures |TrimRight(b)| <= |b| && TrimRight(b) == b[..|TrimRight(b)|]
    ensures TrimRight(b) == b <==> b == [] || !IsOws(b[|b| - 1])
    ensures TrimRight(b) != [] ==> !IsOws(TrimRight(b)[|TrimRight(b)| - 1])
    ensures b != [] && !IsOws(b[0]) ==> TrimRight(b) != []
  {
    if b == [] {
    } else {
      TrimRightShape(b[..|b| - 1]);
    }
  }

  lemma OneByteDropped(afterColon: Bytes)
    requires afterColon != []
    ensures afterColon[1..] == FieldValue(afterColon)
            <==> && IsOws(afterColon[0])
                 && (|afterColon| > 1 ==> !IsOws(afterColon[1]) && !IsOws(afterColon[|afterColon| - 1]))
  {
    var rest := afterColon[1..];
    if IsOws(afterColon[0]) {
      TrimLeftShape(rest);
      TrimRightShape(TrimLeft(rest));
    } else {
      TrimRightShape(afterColon);
    }
  }

  /** The header loop drops exactly one byte behind the colon, whatever it is. The map gets the
      field value the standard means if and only if there is such a byte, it is a space or a
      tab, and what follows neither starts nor ends with one. */
  lemma OneByteDroppedMatchesStandard(name: Bytes, afterColon: Bytes)
    requires Clean(name) && Clean(afterColon) && 58 !in name
    ensures var (m, ok) := Collect(Tokenize(name + [58] + afterColon, CRLF), map[]);
            && (ok ==> m.Keys == {name})
            && (ok && m[name] == FieldValue(afterColon)
                <==> && afterColon != [] && afterColon[0] in {32, 9}
                     && (|afterColon| > 1 ==>
                           afterColon[1] !in {32, 9} && afterColon[|afterColon| - 1] !in {32, 9}))
  {
    var line := name + [58] + afterColon;
    TokenizeRun(line, CRLF);
    if afterColon == [] {
      assert line[..|name|] == name;
      ColonAtUnique(line, |name|);
    } else {
      assert line == name + [58, afterColon[0]] + afterColon[1..];
      FieldSetsValue(name, afterColon[0], afterColon[1..], map[]);
      OneByteDropped(afterColon);
    }
  }

  /** The line that HeaderAdd writes means, by the standard, the value it was given, if and only if
      that value neither starts nor ends with a space or a tab; and the header loop gives back the
      value in any case. */
  lemma HeaderAddConforms(name: Bytes, value: Bytes)
    requires 58 !in name
    ensures var line := Line(Field(name, SP, value));
            && line == name + [58, 32] + value
            && ColonAt(line) == |name|
            && (FieldValue(line[ColonAt(line) + 1..]) == value
                <==> value == [] || (value[0] !in {32, 9} && value[|value| - 1] !in {32, 9}))
            && Collect([line], map[]) == (map[name := value], true)
  {
    var line := Line(Field(name, SP, value));
    FieldColon(name, SP, value);
    FieldSetsValue(name, SP, value, map[]);
    assert line[|name| + 1..] == [SP] + value;
    OneByteDropped([SP] + value);
    assert ([SP] + value)[1..] == value;
  }
}
