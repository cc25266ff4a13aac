/** Byte streams cut into frames: what a stream holds does not depend on where reading it is interrupted. */
module Streams {
  import opened ByteLists

  /** What a buffer starts with: not enough, something unacceptable, or an item and its size. */
  datatype Frame<T> = NeedMore | Bad | Got(item: T, size: nat)

  type Framer<!T> = seq<Byte> -> Frame<T>

  /** A frame recognised, or refused, stays so when bytes follow; frames are not empty. */
  ghost predicate Framing<T(!new)>(frame: Framer<T>) {
    forall b: seq<Byte>, more: seq<Byte> :: Stays(frame, b, more)
  }

  ghost predicate Stays<T(!new)>(frame: Framer<T>, b: seq<Byte>, more: seq<Byte>) {
    && (!frame(b).NeedMore? ==> frame(b + more) == frame(b))
    && (frame(b).Got? ==> 0 < frame(b).size <= |b|)
  }

  /** The items a stream holds, what is left after them, and whether it went bad there. */
  datatype Reading<T> = Reading(items: seq<T>, rest: seq<Byte>, bad: bool)

  function Prepend<T>(items: seq<T>, r: Reading<T>): Reading<T> { Reading(items + r.items, r.rest, r.bad) }

  ghost function ReadAll<T(!new)>(frame: Framer<T>, b: seq<Byte>): (r: Reading<T>)
    requires Framing(frame)
    ensures |r.rest| <= |b| && (!r.bad ==> frame(r.rest).NeedMore?)
    decreases |b|
  {
    assert Stays(frame, b, []);
    match frame(b)
    case NeedMore => Reading([], b, false)
    case Bad => Reading([], b, true)
    case Got(item, size) => Prepend([item], ReadAll(frame, b[size..]))
  }

  /** Reading can be interrupted anywhere: what is left, with the bytes that follow, reads the same. */
  lemma {:induction false} ReadAllSplits<T(!new)>(frame: Framer<T>, b: seq<Byte>, more: seq<Byte>)
    requires Framing(frame)
    ensures var first := ReadAll(frame, b);
            if first.bad then ReadAll(frame, b + more).bad && ReadAll(frame, b + more).items == first.items
            else ReadAll(frame, b + more) == Prepend(first.items, ReadAll(frame, first.rest + more))
    decreases |b|
  {
    assert Stays(frame, b, more);
    match frame(b)
    case NeedMore => {
      PrependNothing(ReadAll(frame, b + more));
    }
    case Bad => {}
    case Got(item, size) => {
      assert (b + more)[size..] == b[size..] + more;
      ReadAllSplits(frame, b[size..], more);
      var tail := ReadAll(frame, b[size..]);
      if !tail.bad { PrependTwice([item], tail.items, ReadAll(frame, tail.rest + more)); }
    }
  }

  lemma PrependNothing<T>(r: Reading<T>)
    ensures Prepend([], r) == r
  {
    assert [] + r.items == r.items;
  }

  lemma PrependTwice<T>(a: seq<T>, b: seq<T>, r: Reading<T>)
    ensures Prepend(a, Prepend(b, r)) == Prepend(a + b, r)
  {
    assert a + (b + r.items) == (a + b) + r.items;
  }

  /** The items given so far and what the buffer still holds are what the bytes so far hold. */
  ghost predicate Progress<T(!new)>(frame: Framer<T>, bytes: seq<Byte>, items: seq<T>, buf: seq<Byte>)
    requires Framing(frame)
  {
    ReadAll(frame, bytes) == Prepend(items, ReadAll(frame, buf))
  }

  lemma ProgressStarts<T(!new)>(frame: Framer<T>)
    requires Framing(frame)
    ensures Progress(frame, [], [], [])
  {
    PrependNothing(ReadAll(frame, []));
  }

  lemma ProgressRest<T(!new)>(frame: Framer<T>, bytes: seq<Byte>, items: seq<T>, buf: seq<Byte>)
    requires Framing(frame) && Progress(frame, bytes, items, buf) && frame(buf).NeedMore?
    ensures ReadAll(frame, bytes) == Reading(items, buf, false)
  {
    assert items + [] == items;
  }

  lemma ProgressBad<T(!new)>(frame: Framer<T>, bytes: seq<Byte>, items: seq<T>, buf: seq<Byte>)
    requires Framing(frame) && Progress(frame, bytes, items, buf) && frame(buf).Bad?
    ensures ReadAll(frame, bytes).bad
  {}

  lemma ProgressAppend<T(!new)>(frame: Framer<T>, bytes: seq<Byte>, items: seq<T>, buf: seq<Byte>, more: seq<Byte>)
    requires Framing(frame) && Progress(frame, bytes, items, buf) && frame(buf).NeedMore?
    ensures Progress(frame, bytes + more, items, buf + more)
  {
    ReadAllSplits(frame, bytes, more);
    ProgressRest(frame, bytes, items, buf);
  }

  lemma ProgressItem<T(!new)>(frame: Framer<T>, bytes: seq<Byte>, items: seq<T>, buf: seq<Byte>)
    requires Framing(frame) && Progress(frame, bytes, items, buf) && frame(buf).Got?
    ensures frame(buf).size <= |buf|
    ensures Progress(frame, bytes, items + [frame(buf).item], buf[frame(buf).size..])
  {
    assert Stays(frame, buf, []);
    PrependTwice(items, [frame(buf).item], ReadAll(frame, buf[frame(buf).size..]));
  }

  // ---------------------------------------------------------------- streams of whole frames

  /** Byte strings that are one frame each. */
  datatype Whole<T> = Whole(bytes: seq<Byte>, item: T)

  function Joined<T>(ws: seq<Whole<T>>): seq<Byte> {
    if |ws| == 0 then [] else ws[0].bytes + Joined(ws[1..])
  }

  function ItemsOf<T>(ws: seq<Whole<T>>): seq<T> {
    if |ws| == 0 then [] else [ws[0].item] + ItemsOf(ws[1..])
  }

  /** Each is recognised as its item. */
  ghost predicate AllWhole<T(!new)>(frame: Framer<T>, ws: seq<Whole<T>>) {
    |ws| > 0 ==> frame(ws[0].bytes) == Got(ws[0].item, |ws[0].bytes|) && AllWhole(frame, ws[1..])
  }

  lemma FirstReads<T(!new)>(frame: Framer<T>, w: Whole<T>, rest: seq<Byte>)
    requires Framing(frame) && frame(w.bytes) == Got(w.item, |w.bytes|)
    ensures ReadAll(frame, w.bytes + rest) == Prepend([w.item], ReadAll(frame, rest))
  {
    assert Stays(frame, w.bytes, rest);
    assert (w.bytes + rest)[|w.bytes|..] == rest;
  }

  /** Part of a frame is never taken for one, nor refused. */
  lemma PartReads<T(!new)>(frame: Framer<T>, w: Whole<T>, part: seq<Byte>)
    requires Framing(frame) && frame(w.bytes) == Got(w.item, |w.bytes|) && part < w.bytes
    ensures ReadAll(frame, part) == Reading([], part, false)
  {
    var more := w.bytes[|part|..];
    assert part + more == w.bytes;
    assert Stays(frame, part, more);
  }

  lemma NothingReads<T(!new)>(frame: Framer<T>)
    requires Framing(frame)
    ensures ReadAll(frame, []).items == [] && ReadAll(frame, []).rest == []
            && (frame([]).NeedMore? ==> !ReadAll(frame, []).bad)
  {
    assert Stays(frame, [], []);
  }

  lemma CutPrefix(a: seq<Byte>, b: seq<Byte>, part: seq<Byte>)
    requires part <= a + b
    ensures |part| < |a| ==> part < a
    ensures |part| >= |a| ==> part == a + part[|a|..] && part[|a|..] <= b && (part == a + b ==> part[|a|..] == b)
  {
    assert part == (a + b)[..|part|];
    if |part| < |a| {
      assert part == a[..|part|];
    } else {
      assert part[..|a|] == a && part[|a|..] == b[..|part| - |a|];
    }
  }

  /** A stream of whole frames holds exactly their items; cut short, it holds those of its whole frames. */
  lemma {:induction false} JoinedReads<T(!new)>(frame: Framer<T>, ws: seq<Whole<T>>, part: seq<Byte>)
    requires Framing(frame) && frame([]).NeedMore? && AllWhole(frame, ws) && part <= Joined(ws)
    ensures var r := ReadAll(frame, part);
            !r.bad && r.items <= ItemsOf(ws) && (part == Joined(ws) ==> r.items == ItemsOf(ws) && r.rest == [])
    decreases |ws|
  {
    if |ws| == 0 {
      NothingReads(frame);
    } else {
      CutPrefix(ws[0].bytes, Joined(ws[1..]), part);
      if |part| < |ws[0].bytes| {
        PartReads(frame, ws[0], part);
      } else {
        var rest := part[|ws[0].bytes|..];
        FirstReads(frame, ws[0], rest);
        JoinedReads(frame, ws[1..], rest);
      }
    }
  }

  // ---------------------------------------------------------------- room in the buffer

  /** A frame that lacks one byte, and a read of this size, stay within the limit; or all that is to come does. */
  predicate RoomFor<T>(ws: seq<Whole<T>>, limit: nat, size: nat) {
    |ws| > 0 ==>
      && (|ws[0].bytes| + size <= limit + 1 || |Joined(ws)| <= limit)
      && RoomFor(ws[1..], limit, size)
  }

  /** Then, wherever the stream is cut, what is left of the frames read and the next read fit. */
  lemma {:induction false} RestFits<T(!new)>(frame: Framer<T>, ws: seq<Whole<T>>, part: seq<Byte>, more: seq<Byte>,
                                             limit: nat, size: nat)
    requires Framing(frame) && frame([]).NeedMore? && AllWhole(frame, ws) && RoomFor(ws, limit, size)
    requires part + more <= Joined(ws) && |more| <= size
    ensures |ReadAll(frame, part).rest| + |more| <= limit
    decreases |ws|
  {
    assert part <= part + more;
    if |ws| == 0 {
      NothingReads(frame);
    } else {
      CutPrefix(ws[0].bytes, Joined(ws[1..]), part);
      if |part| < |ws[0].bytes| {
        PartReads(frame, ws[0], part);
      } else {
        var rest := part[|ws[0].bytes|..];
        FirstReads(frame, ws[0], rest);
        assert ws[0].bytes + (rest + more) == part + more;
        CutPrefix(ws[0].bytes, Joined(ws[1..]), part + more);
        assert (part + more)[|ws[0].bytes|..] == rest + more;
        RestFits(frame, ws[1..], rest, more, limit, size);
      }
    }
  }

  /** Otherwise, at some place they do not. */
  lemma {:induction false} TightPlace<T(!new)>(frame: Framer<T>, ws: seq<Whole<T>>, limit: nat, size: nat)
    returns (part: seq<Byte>, more: seq<Byte>)
    requires Framing(frame) && frame([]).NeedMore? && AllWhole(frame, ws) && !RoomFor(ws, limit, size)
    ensures part + more <= Joined(ws) && |more| <= size && |ReadAll(frame, part).rest| + |more| > limit
    decreases |ws|
  {
    assert Stays(frame, ws[0].bytes, []);
    var n, all := |ws[0].bytes|, Joined(ws);
    if n + size <= limit + 1 || |all| <= limit {
      var rest;
      rest, more := TightPlace(frame, ws[1..], limit, size);
      part := ws[0].bytes + rest;
      FirstReads(frame, ws[0], rest);
      assert part + more == ws[0].bytes + (rest + more);
    } else {
      part := all[..n - 1];
      more := if |all| - (n - 1) < size then all[n - 1..] else all[n - 1..n - 1 + size];
      assert part == ws[0].bytes[..n - 1];
      PartReads(frame, ws[0], part);
      assert part + more == all[..n - 1 + |more|];
    }
  }
}

/** The incremental response parser: it gives the same acknowledgements however the stream is cut into
    reads. */
module AckFraming {
  import opened Forest
  import opened ByteLists
  import opened Streams

  datatype Ack = Ack(recordCount: int, okCount: int, usedL2: int, decisions: seq<int>)

  /** A status code and an acknowledgement. */
  type Answer = (nat, Ack)

  /** How a header block is read: status and body length, or an error; and how a body is read. */
  type HeaderParse = seq<Byte> -> Result<(nat, nat)>
  type BodyDecode = seq<Byte> -> Option<Ack>

  /** The blank line between headers and body. */
  const BLANK: seq<Byte> := [13, 10, 13, 10]

  const MAX_RESPONSE_BYTES: nat := 65536
  const READ_SIZE: nat := 4096

  predicate BlankAt(b: seq<Byte>, i: nat) { i + 4 <= |b| && b[i..i + 4] == BLANK }

  /** Where the first blank line starts, from `from` on. */
  function FindBlank(b: seq<Byte>, from: nat): (r: Option<nat>)
    requires from <= |b|
    ensures r.Some? ==> from <= r.value && BlankAt(b, r.value) && forall j | from <= j < r.value :: !BlankAt(b, j)
    ensures r.None? ==> forall j: nat | from <= j :: !BlankAt(b, j)
    decreases |b| - from
  {
    if from + 4 > |b| then None
    else if b[from..from + 4] == BLANK then Some(from)
    else FindBlank(b, from + 1)
  }

  method FindSubsequence(b: seq<Byte>) returns (r: Option<nat>)
    ensures r == FindBlank(b, 0)
  {
    var i := 0;
    while i + 4 <= |b|
      invariant i <= |b| && FindBlank(b, 0) == FindBlank(b, i)
      decreases |b| - i
    {
      if b[i..i + 4] == BLANK {
        return Some(i);
      }
      i := i + 1;
    }
    return None;
  }

  lemma BlankStays(b: seq<Byte>, more: seq<Byte>, i: nat)
    requires i + 4 <= |b|
    ensures BlankAt(b + more, i) <==> BlankAt(b, i)
  {
    assert (b + more)[i..i + 4] == b[i..i + 4];
  }

  /** The first blank line stays the first one when bytes are appended. */
  lemma FirstBlankStays(b: seq<Byte>, more: seq<Byte>)
    requires FindBlank(b, 0).Some?
    ensures FindBlank(b + more, 0) == FindBlank(b, 0)
  {
    var i := FindBlank(b, 0).value;
    BlankStays(b, more, i);
    var r := FindBlank(b + more, 0);
    if r.Some? && r.value < i {
      BlankStays(b, more, r.value);
    }
  }

  // ---------------------------------------------------------------- one response

  /** What a response buffer starts with. */
  function FrameOf(parse: HeaderParse, decode: BodyDecode, b: seq<Byte>): (f: Frame<Answer>)
    ensures f.Got? ==> 4 <= f.size <= |b|
  {
    match FindBlank(b, 0)
    case None => NeedMore
    case Some(i) =>
      match parse(b[..i])
      case Err => Bad
      case Ok(h) =>
        if |b| < i + 4 + h.1 then NeedMore
        else
          match decode(b[i + 4..i + 4 + h.1])
          case None => Bad
          case Some(ack) => Got((h.0, ack), i + 4 + h.1)
  }

  lemma FrameStays(parse: HeaderParse, decode: BodyDecode, b: seq<Byte>, more: seq<Byte>)
    requires !FrameOf(parse, decode, b).NeedMore?
    ensures FrameOf(parse, decode, b + more) == FrameOf(parse, decode, b)
  {
    FirstBlankStays(b, more);
    var i := FindBlank(b, 0).value;
    assert (b + more)[..i] == b[..i];
    if parse(b[..i]).Ok? {
      var n := parse(b[..i]).value.1;
      assert (b + more)[i + 4..i + 4 + n] == b[i + 4..i + 4 + n];
    }
  }

  function ResponseFramer(parse: HeaderParse, decode: BodyDecode): Framer<Answer> { b => FrameOf(parse, decode, b) }

  /** Responses are frames. */
  lemma ResponsesFrame(parse: HeaderParse, decode: BodyDecode)
    ensures Framing(ResponseFramer(parse, decode)) && ResponseFramer(parse, decode)([]).NeedMore?
  {
    var frame := ResponseFramer(parse, decode);
    forall b: seq<Byte>, more: seq<Byte> ensures Stays(frame, b, more) {
      if !FrameOf(parse, decode, b).NeedMore? { FrameStays(parse, decode, b, more); }
    }
  }

  /** A response as a server writes it: its headers end at the first blank line and announce its body. */
  lemma WholeResponse(parse: HeaderParse, decode: BodyDecode, header: seq<Byte>, body: seq<Byte>, status: nat, ack: Ack)
    requires FindBlank(header + BLANK, 0) == Some(|header|)
    requires parse(header) == Ok((status, |body|)) && decode(body) == Some(ack)
    ensures ResponseFramer(parse, decode)(header + BLANK + body) == Got((status, ack), |header + BLANK + body|)
  {
    var head := header + BLANK;
    var bytes := head + body;
    FirstBlankStays(head, body);
    assert bytes[..|header|] == header;
    assert bytes[|head|..|head| + |body|] == body;
  }

  // ---------------------------------------------------------------- the parser

  /** What a read of the socket yields. */
  datatype Read = Data(bytes: seq<Byte>) | WouldBlock | Broken

  datatype Outcome = AckRead(answer: Answer) | Nothing | Failed

  class ResponseParser {
    const parse: HeaderParse
    const decode: BodyDecode
    /** What a buffer of this parser starts with. */
    ghost const frame: Framer<Answer>
    var buf: seq<Byte>
    var headerLen: nat
    var contentLen: nat
    var statusCode: nat
    var headersParsed: bool

    /** Headers remembered from an earlier read are those of the response the buffer starts with. */
    ghost predicate Remembers()
      reads this
    {
      headersParsed ==>
        && FindBlank(buf, 0).Some? && headerLen == FindBlank(buf, 0).value + 4
        && parse(buf[..headerLen - 4]) == Ok((statusCode, contentLen))
    }

    ghost predicate FramesAt(b: seq<Byte>) { frame(b) == FrameOf(parse, decode, b) }

    /** The frames of the stream are what header and body reader make of them, whatever has been read. */
    ghost predicate Made() { Framing(frame) && forall b: seq<Byte> :: FramesAt(b) }

    ghost predicate Valid()
      reads this
    {
      Made() && Remembers()
    }

    constructor (parse: HeaderParse, decode: BodyDecode)
      ensures Valid() && buf == [] && frame == ResponseFramer(parse, decode)
    {
      this.parse := parse;
      this.decode := decode;
      frame := ResponseFramer(parse, decode);
      buf := [];
      headerLen, contentLen, statusCode, headersParsed := 0, 0, 0, false;
      ResponsesFrame(parse, decode);
    }

    method Reset()
      requires Made()
      modifies this
      ensures Valid() && buf == []
    {
      buf := [];
      headerLen, contentLen, statusCode, headersParsed := 0, 0, 0, false;
    }

    /** Forgets the response that was read and moves what follows to the front. */
    method ConsumeParsed(parsedLen: nat)
      requires parsedLen <= |buf|
      modifies this
      ensures buf == old(buf)[parsedLen..] && !headersParsed
    {
      buf := if parsedLen >= |buf| then [] else buf[parsedLen..];
      headerLen, contentLen, statusCode, headersParsed := 0, 0, 0, false;
    }

    /** One complete response, if the buffer starts with one. */
    method TryFinishBatchAck() returns (r: Outcome)
      requires Valid()
      modifies this
      ensures match frame(old(buf))
              case NeedMore => r == Nothing && buf == old(buf) && Valid()
              case Bad => r == Failed
              case Got(answer, size) => size <= |old(buf)| && r == AckRead(answer) && buf == old(buf)[size..] && Valid()
    {
      assert FramesAt(buf);
      if !headersParsed {
        var hdrEnd := FindSubsequence(buf);
        if hdrEnd.None? {
          return Nothing;
        }
        headerLen := hdrEnd.value + 4;
        var h := parse(buf[..hdrEnd.value]);
        if h.Err? {
          return Failed;
        }
        statusCode, contentLen, headersParsed := h.value.0, h.value.1, true;
      }
      if |buf| < headerLen + contentLen {
        return Nothing;
      }
      var status := statusCode;
      var ack := decode(buf[headerLen..headerLen + contentLen]);
      if ack.None? {
        return Failed;
      }
      ConsumeParsed(headerLen + contentLen);
      r := AckRead((status, ack.value));
    }

    /** Bytes that arrive behind what is buffered. */
    method Append(bytes: seq<Byte>)
      requires Valid()
      modifies this
      ensures Valid() && buf == old(buf) + bytes
    {
      if headersParsed {
        FirstBlankStays(buf, bytes);
        assert (buf + bytes)[..headerLen - 4] == buf[..headerLen - 4];
      }
      buf := buf + bytes;
    }

    /** Reads, from number `from` on, until one acknowledgement is complete or the socket has no more. */
    method ReadBatchAck(input: seq<Read>, from: nat) returns (r: Outcome, next: nat)
      requires Valid() && from <= |input|
      modifies this
      ensures from <= next <= |input| && (next == from || frame(old(buf)).NeedMore?)
      ensures r.Nothing? ==> Valid() && buf == old(buf) + Received(input, from, next) && frame(buf).NeedMore?
                             && (next == |input| || input[next].WouldBlock?)
      ensures r.AckRead? ==> Valid() && TookFirst(frame, old(buf) + Received(input, from, next), r.answer, buf)
      ensures r.Failed? ==>
              frame(old(buf) + Received(input, from, next)).Bad? || (next < |input| && input[next].Broken?)
                            || TooLarge(frame, old(buf), input, from, next)
      ensures !r.Failed? ==> Waited(frame, old(buf), input, from, next)
    {
      next := from;
      assert old(buf) + [] == old(buf);
      r := TryFinishBatchAck();
      while r.Nothing? && next < |input| && input[next].Data?
        invariant from <= next <= |input| && (next == from || frame(old(buf)).NeedMore?)
        invariant next == from && r.Nothing? ==> frame(old(buf)).NeedMore?
        invariant r.Nothing? ==> Valid() && buf == old(buf) + Received(input, from, next) && frame(buf).NeedMore?
        invariant r.AckRead? ==> Valid() && TookFirst(frame, old(buf) + Received(input, from, next), r.answer, buf)
        invariant r.Failed? ==>
                  frame(old(buf) + Received(input, from, next)).Bad? || TooLarge(frame, old(buf), input, from, next)
        invariant Waited(frame, old(buf), input, from, next)
        decreases |input| - next
      {
        assert old(buf) + (Received(input, from, next) + input[next].bytes) == buf + input[next].bytes;
        Append(input[next].bytes);
        next := next + 1;
        if |buf| > MAX_RESPONSE_BYTES {
          return Failed, next;
        }
        r := TryFinishBatchAck();
      }
      if r.Nothing? && next < |input| && input[next].Broken? {
        r := Failed;
      }
    }
  }

  /** The bytes of the reads `from..to`. */
  function Received(input: seq<Read>, from: nat, to: nat): seq<Byte>
    requires from <= to <= |input|
  {
    if from == to then [] else Received(input, from, to - 1) + if input[to - 1].Data? then input[to - 1].bytes else []
  }

  /** The bytes started with this answer, and this is what follows it. */
  ghost predicate TookFirst(frame: Framer<Answer>, b: seq<Byte>, answer: Answer, rest: seq<Byte>) {
    frame(b).Got? && answer == frame(b).item && frame(b).size <= |b| && rest == b[frame(b).size..]
  }

  /** Each of these reads came while a response was unfinished, and stayed within the limit. */
  ghost predicate Waited(frame: Framer<Answer>, b: seq<Byte>, input: seq<Read>, from: nat, to: nat)
    requires from <= to <= |input|
  {
    from < to ==>
      && Waited(frame, b, input, from, to - 1)
      && input[to - 1].Data? && frame(b + Received(input, from, to - 1)).NeedMore?
      && |b + Received(input, from, to)| <= MAX_RESPONSE_BYTES
  }

  /** An unfinished response and one read together were over the limit. */
  ghost predicate TooLarge(frame: Framer<Answer>, b: seq<Byte>, input: seq<Read>, from: nat, to: nat)
    requires from <= to <= |input|
  {
    && from < to && input[to - 1].Data? && |b + Received(input, from, to)| > MAX_RESPONSE_BYTES
    && frame(b + Received(input, from, to - 1)).NeedMore?
  }

  // ---------------------------------------------------------------- any chunking

  lemma {:induction false} ReceivedSplits(input: seq<Read>, from: nat, to: nat)
    requires from <= to <= |input|
    ensures Received(input, 0, to) == Received(input, 0, from) + Received(input, from, to)
  {
    if from < to {
      ReceivedSplits(input, from, to - 1);
      var last := if input[to - 1].Data? then input[to - 1].bytes else [];
      assert (Received(input, 0, from) + Received(input, from, to - 1)) + last ==
             Received(input, 0, from) + (Received(input, from, to - 1) + last);
    } else {
      assert Received(input, 0, from) + [] == Received(input, 0, from);
    }
  }

  /** At this read the connection fails: the socket breaks, or what is left of the responses read and the
      bytes that come are over the limit. */
  ghost predicate BreaksAt(frame: Framer<Answer>, input: seq<Read>, n: nat)
    requires Framing(frame) && n < |input|
  {
    || input[n].Broken?
    || (input[n].Data?
        && |ReadAll(frame, Received(input, 0, n)).rest| + |input[n].bytes| > MAX_RESPONSE_BYTES)
  }

  /** No read fails, and no response is bad. */
  ghost predicate Readable(frame: Framer<Answer>, input: seq<Read>)
    requires Framing(frame)
  {
    !ReadAll(frame, Received(input, 0, |input|)).bad && forall n: nat | n < |input| :: !BreaksAt(frame, input, n)
  }

  /** Reading ended here for one of these reasons. */
  ghost predicate Excused(frame: Framer<Answer>, input: seq<Read>, used: nat)
    requires Framing(frame) && used <= |input|
  {
    || (used < |input| && BreaksAt(frame, input, used))
    || (0 < used && BreaksAt(frame, input, used - 1))
    || ReadAll(frame, Received(input, 0, used)).bad
  }

  lemma ExcusedFails(frame: Framer<Answer>, input: seq<Read>, used: nat)
    requires Framing(frame) && used <= |input| && Excused(frame, input, used)
    ensures !Readable(frame, input)
  {
    ReceivedSplits(input, used, |input|);
    ReadAllSplits(frame, Received(input, 0, used), Received(input, used, |input|));
  }

  /** Items given on the way are items of the whole stream. */
  lemma ProgressIsPrefix(frame: Framer<Answer>, input: seq<Read>, used: nat, items: seq<Answer>, buf: seq<Byte>)
    requires Framing(frame) && used <= |input| && Progress(frame, Received(input, 0, used), items, buf)
    ensures items <= ReadAll(frame, Received(input, 0, |input|)).items
  {
    ReceivedSplits(input, used, |input|);
    ReadAllSplits(frame, Received(input, 0, used), Received(input, used, |input|));
    assert items <= ReadAll(frame, Received(input, 0, used)).items;
  }

  lemma {:induction false} WaitedAt(frame: Framer<Answer>, b: seq<Byte>, input: seq<Read>, from: nat, to: nat, n: nat)
    requires from <= n < to <= |input| && Waited(frame, b, input, from, to)
    ensures input[n].Data? && frame(b + Received(input, from, n)).NeedMore?
    ensures |b + Received(input, from, n)| + |input[n].bytes| <= MAX_RESPONSE_BYTES
  {
    if n == to - 1 {
    } else {
      WaitedAt(frame, b, input, from, to - 1, n);
    }
  }

  /** Reads taken while waiting do not fail. */
  lemma WaitedHolds(frame: Framer<Answer>, input: seq<Read>, used: nat, next: nat, items: seq<Answer>, buf: seq<Byte>,
                    n: nat)
    requires Framing(frame) && used <= next <= |input| && Progress(frame, Received(input, 0, used), items, buf)
    requires Waited(frame, buf, input, used, next) && used <= n < next
    ensures !BreaksAt(frame, input, n)
  {
    WaitedAt(frame, buf, input, used, next, n);
    WaitedAt(frame, buf, input, used, next, used);
    assert buf + [] == buf;
    StepProgress(frame, input, used, n, items, buf);
    ProgressRest(frame, Received(input, 0, n), items, buf + Received(input, used, n));
  }

  lemma StepProgress(frame: Framer<Answer>, input: seq<Read>, used: nat, next: nat, items: seq<Answer>, buf: seq<Byte>)
    requires Framing(frame) && used <= next <= |input| && Progress(frame, Received(input, 0, used), items, buf)
    requires next == used || frame(buf).NeedMore?
    ensures Progress(frame, Received(input, 0, next), items, buf + Received(input, used, next))
    ensures next == used ==> buf + Received(input, used, next) == buf
  {
    ReceivedSplits(input, used, next);
    if next > used {
      ProgressAppend(frame, Received(input, 0, used), items, buf, Received(input, used, next));
    } else {
      assert buf + Received(input, used, next) == buf;
    }
  }

  lemma StepExcused(frame: Framer<Answer>, input: seq<Read>, used: nat, next: nat, items: seq<Answer>, buf: seq<Byte>)
    requires Framing(frame) && used <= next <= |input| && Progress(frame, Received(input, 0, used), items, buf)
    requires next == used || frame(buf).NeedMore?
    requires frame(buf + Received(input, used, next)).Bad? || (next < |input| && input[next].Broken?)
             || TooLarge(frame, buf, input, used, next)
    ensures Excused(frame, input, next)
  {
    if frame(buf + Received(input, used, next)).Bad? {
      StepProgress(frame, input, used, next, items, buf);
      ProgressBad(frame, Received(input, 0, next), items, buf + Received(input, used, next));
    } else if !(next < |input| && input[next].Broken?) {
      StepProgress(frame, input, used, next - 1, items, buf);
      ProgressRest(frame, Received(input, 0, next - 1), items, buf + Received(input, used, next - 1));
    }
  }

  /** One call of the parser on the reads from `used` on. */
  method ReadNext(parser: ResponseParser, input: seq<Read>, used: nat, ghost items: seq<Answer>)
    returns (r: Outcome, next: nat)
    requires parser.Valid() && used <= |input| && Progress(parser.frame, Received(input, 0, used), items, parser.buf)
    modifies parser
    ensures used <= next <= |input|
    ensures r.Failed? ==> Framing(parser.frame) && Excused(parser.frame, input, next)
    ensures !r.Failed? ==> parser.Valid() && forall n: nat | used <= n < next :: !BreaksAt(parser.frame, input, n)
    ensures r.AckRead? ==> Progress(parser.frame, Received(input, 0, next), items + [r.answer], parser.buf)
                           && (used < next || |parser.buf| < |old(parser.buf)|)
    ensures r.Nothing? ==> Progress(parser.frame, Received(input, 0, next), items, parser.buf)
                           && parser.frame(parser.buf).NeedMore? && (next == |input| || input[next].WouldBlock?)
  {
    ghost var buf := parser.buf;
    r, next := parser.ReadBatchAck(input, used);
    StepProgress(parser.frame, input, used, next, items, buf);
    if !r.Failed? {
      forall n: nat | used <= n < next ensures !BreaksAt(parser.frame, input, n) {
        WaitedHolds(parser.frame, input, used, next, items, buf, n);
      }
    }
    match r {
      case Failed => StepExcused(parser.frame, input, used, next, items, buf);
      case AckRead(_) =>
        ProgressItem(parser.frame, Received(input, 0, next), items, buf + Received(input, used, next));
        assert Stays(parser.frame, buf + Received(input, used, next), []);
      case Nothing =>
    }
  }

  lemma NothingReceived(input: seq<Read>, n: nat)
    requires n < |input| && !input[n].Data?
    ensures Received(input, 0, n + 1) == Received(input, 0, n)
  {
    assert Received(input, 0, n) + [] == Received(input, 0, n);
  }

  /** The whole run of a connection: it succeeds exactly when no read fails and no response is bad, however the
      bytes are cut into reads; the acknowledgements are then those of the byte stream, and the buffer holds what
      is left of it.  Those given before a failure are right. */
  method ReadStream(parser: ResponseParser, input: seq<Read>) returns (acks: seq<Answer>, ok: bool)
    requires parser.Valid() && parser.buf == []
    modifies parser
    ensures Framing(parser.frame) && (ok <==> Readable(parser.frame, input))
    ensures ok ==> ReadAll(parser.frame, Received(input, 0, |input|)) == Reading(acks, parser.buf, false)
    ensures acks <= ReadAll(parser.frame, Received(input, 0, |input|)).items
  {
    acks, ok := [], true;
    var used, going := 0, true;
    ProgressStarts(parser.frame);
    while going
      invariant used <= |input| && parser.Valid() && ok
                && Progress(parser.frame, Received(input, 0, used), acks, parser.buf)
      invariant forall n: nat | n < used :: !BreaksAt(parser.frame, input, n)
      invariant !going ==> used == |input| && parser.frame(parser.buf).NeedMore?
      decreases |input| - used, going, |parser.buf|
    {
      ProgressIsPrefix(parser.frame, input, used, acks, parser.buf);
      var r, next := ReadNext(parser, input, used, acks);
      match r {
        case Failed =>
          ExcusedFails(parser.frame, input, next);
          return acks, false;
        case AckRead(answer) =>
          acks, used := acks + [answer], next;
        case Nothing =>
          used := next;
          if used == |input| {
            going := false;
          } else {
            NothingReceived(input, used);
            used := used + 1;
          }
      }
    }
    ProgressRest(parser.frame, Received(input, 0, used), acks, parser.buf);
  }

  /** A reconnect resets the parser: whatever it held, no byte from before reaches an acknowledgement after. */
  method ReadAfterReset(parser: ResponseParser, input: seq<Read>) returns (acks: seq<Answer>, ok: bool)
    requires parser.Made()
    modifies parser
    ensures Framing(parser.frame) && (ok <==> Readable(parser.frame, input))
    ensures ok ==> ReadAll(parser.frame, Received(input, 0, |input|)) == Reading(acks, parser.buf, false)
    ensures acks <= ReadAll(parser.frame, Received(input, 0, |input|)).items
  {
    parser.Reset();
    acks, ok := ReadStream(parser, input);
  }

  lemma {:induction false} ReceivedPrefix(input: seq<Read>, n: nat)
    requires n <= |input|
    ensures Received(input, 0, n) <= Received(input, 0, |input|)
    decreases |input| - n
  {
    if n == |input| {
    } else {
      ReceivedPrefix(input, n + 1);
    }
  }

  // ---------------------------------------------------------------- well-formed responses

  /** These bytes, cut into reads. */
  ghost predicate Cutting(input: seq<Read>, bytes: seq<Byte>) {
    && Received(input, 0, |input|) == bytes
    && forall k | 0 <= k < |input| :: !input[k].Broken? && (input[k].Data? ==> |input[k].bytes| <= READ_SIZE)
  }

  /** Well-formed responses, cut into reads anywhere: exactly their acknowledgements, in order, and an empty
      buffer, unless a read fails; and none does if there is room for it. */
  method ReadWellFormed(parser: ResponseParser, input: seq<Read>, ghost ws: seq<Whole<Answer>>)
    returns (acks: seq<Answer>, ok: bool)
    requires parser.Valid() && parser.buf == [] && parser.frame([]).NeedMore?
    requires AllWhole(parser.frame, ws) && Cutting(input, Joined(ws))
    modifies parser
    ensures Framing(parser.frame) && (ok <==> Readable(parser.frame, input))
    ensures RoomFor(ws, MAX_RESPONSE_BYTES, READ_SIZE) ==> ok
    ensures ok ==> acks == ItemsOf(ws) && parser.buf == []
    ensures acks <= ItemsOf(ws)
  {
    acks, ok := ReadStream(parser, input);
    JoinedReads(parser.frame, ws, Joined(ws));
    if RoomFor(ws, MAX_RESPONSE_BYTES, READ_SIZE) {
      RoomReads(parser.frame, input, ws);
    }
  }

  lemma RoomReads(frame: Framer<Answer>, input: seq<Read>, ws: seq<Whole<Answer>>)
    requires Framing(frame) && frame([]).NeedMore? && AllWhole(frame, ws) && Cutting(input, Joined(ws))
    requires RoomFor(ws, MAX_RESPONSE_BYTES, READ_SIZE)
    ensures Readable(frame, input)
  {
    JoinedReads(frame, ws, Joined(ws));
    forall n: nat | n < |input| ensures !BreaksAt(frame, input, n) {
      if input[n].Data? {
        ReceivedPrefix(input, n + 1);
        RestFits(frame, ws, Received(input, 0, n), input[n].bytes, MAX_RESPONSE_BYTES, READ_SIZE);
      }
    }
  }

  /** These bytes, one in each read. */
  function Singles(b: seq<Byte>): (input: seq<Read>)
    ensures |input| == |b| && forall k | 0 <= k < |input| :: input[k].Data? && |input[k].bytes| == 1
  {
    if |b| == 0 then [] else Singles(b[..|b| - 1]) + [Data([b[|b| - 1]])]
  }

  lemma {:induction false} ReceivedSame(a: seq<Read>, b: seq<Read>, n: nat)
    requires n <= |a| && n <= |b| && a[..n] == b[..n]
    ensures Received(a, 0, n) == Received(b, 0, n)
  {
    if n == 0 {
    } else {
      assert a[n - 1] == a[..n][n - 1] == b[..n][n - 1] == b[n - 1];
      assert a[..n - 1] == a[..n][..n - 1] == b[..n][..n - 1] == b[..n - 1];
      ReceivedSame(a, b, n - 1);
    }
  }

  lemma {:induction false} ReceivedJoined(a: seq<Read>, b: seq<Read>)
    ensures Received(a + b, 0, |a|) == Received(a, 0, |a|)
    ensures Received(a + b, 0, |a + b|) == Received(a, 0, |a|) + Received(b, 0, |b|)
  {
    ReceivedSame(a + b, a, |a|);
    if |b| == 0 {
      assert a + b == a;
    } else {
      var init, last := b[..|b| - 1], b[|b| - 1];
      ReceivedJoined(a, init);
      ReceivedSame(a + b, a + init, |a + init|);
      ReceivedSame(b, init, |init|);
      var bytes := if last.Data? then last.bytes else [];
      assert (Received(a, 0, |a|) + Received(init, 0, |init|)) + bytes ==
             Received(a, 0, |a|) + (Received(init, 0, |init|) + bytes);
    }
  }

  lemma {:induction false} SinglesGive(b: seq<Byte>)
    ensures Received(Singles(b), 0, |b|) == b
  {
    if |b| == 0 {
    } else {
      var init := b[..|b| - 1];
      SinglesGive(init);
      ReceivedJoined(Singles(init), [Data([b[|b| - 1]])]);
      assert Received([Data([b[|b| - 1]])], 0, 1) == [] + [b[|b| - 1]];
      assert init + [b[|b| - 1]] == b;
    }
  }

  /** Cut so that these bytes come in one read, after what is before them. */
  function CutAround(part: seq<Byte>, more: seq<Byte>, rest: seq<Byte>): seq<Read> {
    Singles(part) + ([Data(more)] + Singles(rest))
  }

  lemma OneRead(more: seq<Byte>)
    ensures Received([Data(more)], 0, 1) == more
  {
    assert [] + more == more;
  }

  lemma CutAroundGives(part: seq<Byte>, more: seq<Byte>, rest: seq<Byte>)
    ensures var input := CutAround(part, more, rest);
            && Received(input, 0, |input|) == part + more + rest
            && Received(input, 0, |part|) == part && input[|part|] == Data(more)
  {
    SinglesGive(part);
    SinglesGive(rest);
    OneRead(more);
    ReceivedJoined(Singles(part), [Data(more)] + Singles(rest));
    ReceivedJoined([Data(more)], Singles(rest));
    assert part + (more + rest) == part + more + rest;
  }

  lemma CutAroundCuts(part: seq<Byte>, more: seq<Byte>, rest: seq<Byte>)
    requires |more| <= READ_SIZE
    ensures Cutting(CutAround(part, more, rest), part + more + rest)
  {
    CutAroundGives(part, more, rest);
    var a, b := Singles(part), Singles(rest);
    forall k | 0 <= k < |CutAround(part, more, rest)|
      ensures CutAround(part, more, rest)[k].Data? && |CutAround(part, more, rest)[k].bytes| <= READ_SIZE
    {
      if k < |a| {
        assert CutAround(part, more, rest)[k] == a[k];
      } else if k > |a| {
        assert CutAround(part, more, rest)[k] == b[k - |a| - 1];
      }
    }
  }

  /** Well-formed responses are read however they are cut if and only if there is room for them: each one but
      for its last byte, and a read, within the limit, unless all that is to come is within it. */
  lemma CuttingsReadIff(frame: Framer<Answer>, ws: seq<Whole<Answer>>)
    requires Framing(frame) && frame([]).NeedMore? && AllWhole(frame, ws)
    ensures (forall input: seq<Read> | Cutting(input, Joined(ws)) :: Readable(frame, input)) <==>
            RoomFor(ws, MAX_RESPONSE_BYTES, READ_SIZE)
  {
    if RoomFor(ws, MAX_RESPONSE_BYTES, READ_SIZE) {
      forall input: seq<Read> | Cutting(input, Joined(ws)) ensures Readable(frame, input) {
        RoomReads(frame, input, ws);
      }
    } else {
      var part, more := TightPlace(frame, ws, MAX_RESPONSE_BYTES, READ_SIZE);
      var rest := Joined(ws)[|part + more|..];
      assert part + more + rest == Joined(ws);
      CutAroundGives(part, more, rest);
      CutAroundCuts(part, more, rest);
      var input := CutAround(part, more, rest);
      assert BreaksAt(frame, input, |part|);
      assert Cutting(input, Joined(ws)) && !Readable(frame, input);
    }
  }
}
