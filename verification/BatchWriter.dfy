/** Byte strings cut into pieces. */
module ByteLists {
  /** Bytes are numbers; the writer passes them through, and what it encodes is below 256. */
  type Byte = int

  /** The pieces one after the other. */
  function Flat(list: seq<seq<Byte>>): seq<Byte> {
    if |list| == 0 then [] else list[0] + Flat(list[1..])
  }

  lemma {:induction false} FlatJoin(a: seq<seq<Byte>>, b: seq<seq<Byte>>)
    ensures Flat(a + b) == Flat(a) + Flat(b)
  {
    if |a| == 0 {
      assert a + b == b;
    } else {
      assert (a + b)[1..] == a[1..] + b;
      FlatJoin(a[1..], b);
      assert a[0] + (Flat(a[1..]) + Flat(b)) == (a[0] + Flat(a[1..])) + Flat(b);
    }
  }

  lemma FlatSmall(a: seq<Byte>, b: seq<Byte>)
    ensures Flat([a]) == a && Flat([a, b]) == a + b
  {
    assert Flat([a][1..]) == [] && [a, b][1..] == [b];
    assert Flat([b]) == b + Flat([b][1..]);
  }

  /** The length of `n` pieces of equal length. */
  function Copies(n: nat, len: nat): nat {
    if n == 0 then 0 else len + Copies(n - 1, len)
  }

  lemma {:induction false} CopiesIsProduct(n: nat, len: nat)
    ensures Copies(n, len) == len * n
  {
    if n == 0 {
    } else {
      CopiesIsProduct(n - 1, len);
      assert len * n == len * (n - 1) + len;
    }
  }

  predicate Even(list: seq<seq<Byte>>, len: nat) { forall k | 0 <= k < |list| :: |list[k]| == len }

  lemma {:induction false} FlatLength(list: seq<seq<Byte>>, len: nat)
    requires Even(list, len)
    ensures |Flat(list)| == Copies(|list|, len)
  {
    if |list| > 0 { FlatLength(list[1..], len); }
  }

  lemma DropTwice(s: seq<Byte>, a: nat, b: nat)
    requires a + b <= |s|
    ensures s[a + b..] == s[a..][b..]
  {}

  lemma DropFirst(a: seq<Byte>, b: seq<Byte>, n: nat)
    requires n <= |b|
    ensures (a + b)[|a| + n..] == b[n..]
  {}

  /** Dropping whole pieces. */
  lemma {:induction false} FlatDrop(list: seq<seq<Byte>>, len: nat, n: nat)
    requires Even(list, len) && n <= |list|
    ensures Copies(n, len) <= |Flat(list)| && Flat(list)[Copies(n, len)..] == Flat(list[n..])
  {
    if n == 0 {
      assert list[0..] == list && Flat(list)[0..] == Flat(list);
    } else {
      FlatDrop(list[1..], len, n - 1);
      assert list[1..][n - 1..] == list[n..];
      DropFirst(list[0], Flat(list[1..]), Copies(n - 1, len));
    }
  }

  /** The bytes from an offset on start inside the piece the offset falls in. */
  lemma FlatResume(list: seq<seq<Byte>>, len: nat, off: nat) returns (n: nat, r: nat)
    requires Even(list, len) && off <= |Flat(list)|
    ensures var step := if len == 0 then 1 else len; n == off / step && r == off % step
    ensures n <= |list| && (r > 0 ==> n < |list| && r < len)
    ensures r <= |Flat(list[n..])| && Flat(list)[off..] == Flat(list[n..])[r..]
  {
    FlatLength(list, len);
    n, r := PieceAt(off, len, |list|);
    FlatDrop(list, len, n);
    DropTwice(Flat(list), Copies(n, len), r);
  }

  /** Which piece an offset falls in, and where in it. */
  lemma PieceAt(off: nat, len: nat, count: nat) returns (n: nat, r: nat)
    requires off <= Copies(count, len)
    ensures var step := if len == 0 then 1 else len; n == off / step && r == off % step
    ensures n <= count && (r > 0 ==> n < count && r < len) && Copies(n, len) + r == off
  {
    CopiesIsProduct(count, len);
    if len == 0 {
      n, r := 0, 0;
    } else {
      n, r := off / len, off % len;
      DivBound(off, len, count);
      CopiesIsProduct(n, len);
    }
  }

  lemma DivBound(off: nat, len: nat, n: nat)
    requires len > 0 && off <= len * n
    ensures off == len * (off / len) + off % len && off / len <= n && (off % len > 0 ==> off / len < n)
  {
    var d := off / len;
    assert off == d * len + off % len;
    if d > n { Multiples(n + 1, d, len); }
  }

  lemma Multiples(a: nat, b: nat, len: nat)
    requires a <= b
    ensures a * len <= b * len
  {}

  lemma CutJoined(a: seq<Byte>, b: seq<Byte>, off: nat)
    requires off <= |a| + |b|
    ensures (a + b)[off..] == if off < |a| then a[off..] + b else b[off - |a|..]
  {}

  // ---------------------------------------------------------------- little-endian words

  function Le16(n: nat): (b: seq<Byte>)
    ensures |b| == 2 && forall k | 0 <= k < 2 :: 0 <= b[k] < 256
  {
    [n % 256, n / 256 % 256]
  }

  function Le32(n: nat): (b: seq<Byte>)
    ensures |b| == 4 && forall k | 0 <= k < 4 :: 0 <= b[k] < 256
  {
    [n % 256, n / 256 % 256, n / 256 / 256 % 256, n / 256 / 256 / 256 % 256]
  }

  function FromLe32(b: seq<Byte>): int
    requires |b| == 4
  {
    b[0] + 256 * (b[1] + 256 * (b[2] + 256 * b[3]))
  }

  lemma Le32RoundTrip(n: nat)
    requires n < 0x1_0000_0000
    ensures FromLe32(Le32(n)) == n
  {
    var a, b, c := n / 256, n / 256 / 256, n / 256 / 256 / 256;
    assert n == 256 * a + n % 256 && a == 256 * b + a % 256 && b == 256 * c + b % 256;
    assert c < 256;
  }

  // ---------------------------------------------------------------- cutting

  /** What is left of two strings, without an empty slice for a first one that is gone. */
  method CutParts(a: seq<Byte>, b: seq<Byte>, off: nat) returns (bufs: seq<seq<Byte>>)
    requires off <= |a| + |b|
    ensures Flat(bufs) == (a + b)[off..]
  {
    CutJoined(a, b, off);
    if off < |a| {
      FlatSmall(a[off..], b);
      bufs := [a[off..], b];
    } else {
      FlatSmall(b[off - |a|..], []);
      bufs := [b[off - |a|..]];
    }
  }

  lemma CutFirst(a: seq<Byte>, x: seq<Byte>, p: nat)
    requires p <= |a|
    ensures (a + x)[p..] == a[p..] + x
  {}

  /** What is left of three strings when the first has to go before the rest. */
  lemma CutThree(a: seq<Byte>, b: seq<Byte>, c: seq<Byte>, p: nat, n: nat)
    requires p <= |a| && n <= |b| + |c| && (n > 0 ==> p == |a|)
    ensures (a + (b + c))[p + n..] == a[p..] + (if n < |b| then b[n..] else []) + c[if n < |b| then 0 else n - |b|..]
  {
    var tail := (b + c)[n..];
    assert (a + (b + c))[p + n..] == a[p..] + tail by {
      if n == 0 {
        CutFirst(a, b + c, p);
        assert tail == b + c;
      } else {
        DropFirst(a, b + c, n);
        assert a[p..] == [] && [] + tail == tail;
      }
    }
    CutTail(b, c, n);
    var left, rest := if n < |b| then b[n..] else [], c[if n < |b| then 0 else n - |b|..];
    assert a[p..] + (left + rest) == a[p..] + left + rest;
  }

  lemma CutTail(b: seq<Byte>, c: seq<Byte>, n: nat)
    requires n <= |b| + |c|
    ensures (b + c)[n..] == (if n < |b| then b[n..] else []) + c[if n < |b| then 0 else n - |b|..]
  {
    CutJoined(b, c, n);
    if n < |b| { assert c[0..] == c; } else { assert [] + c[n - |b|..] == c[n - |b|..]; }
  }
}

/** Writing a batch request piece by piece: prefix, 16-byte header, then each record's optional 40-byte
    route header and its row. */
module BatchWriters {
  import opened Forest
  import opened BatchWorkers
  import opened ByteLists

  /** Rows of equal length; `Row` wraps around. */
  datatype Corpus = Corpus(rowBytes: nat, rows: seq<seq<Byte>>) {
    predicate Valid() { |rows| > 0 && forall k | 0 <= k < |rows| :: |rows[k]| == rowBytes }

    function Row(idx: nat): (row: seq<Byte>)
      requires Valid()
      ensures |row| == rowBytes
    {
      rows[idx % |rows|]
    }
  }

  const ROUTE_HEADER: nat := 40
  const BATCH_HEADER: nat := 16
  /** How many route headers the writer has room for. */
  const MAX_ROUTED: nat := 128

  /** Encoded route headers, one per row; they wrap around too. */
  datatype RouteMeta = RouteMeta(headers: seq<seq<Byte>>) {
    predicate Valid() { |headers| > 0 && forall k | 0 <= k < |headers| :: |headers[k]| == ROUTE_HEADER }

    function Header(idx: nat): (h: seq<Byte>)
      requires Valid()
      ensures |h| == ROUTE_HEADER
    {
      headers[idx % |headers|]
    }
  }

  /** A request to write: its records start at a row and wrap around the corpus. */
  datatype Request = Request(prefix: seq<Byte>, header: seq<Byte>, startRow: nat, records: nat, corpus: Corpus,
                             route: Option<RouteMeta>) {
    predicate Valid() {
      && |header| == BATCH_HEADER && corpus.Valid()
      && (route.Some? ==> route.value.Valid() && records <= MAX_ROUTED)
    }

    function RecordLen(): nat { corpus.rowBytes + if route.Some? then ROUTE_HEADER else 0 }

    function RowOf(k: nat): nat
      requires corpus.Valid()
    {
      (startRow + k) % |corpus.rows|
    }

    /** A record's route header, if there is one, and its row. */
    function RoutePart(k: nat): (h: seq<Byte>)
      requires Valid()
      ensures |h| == if route.Some? then ROUTE_HEADER else 0
    {
      if route.Some? then route.value.Header(RowOf(k)) else []
    }

    function RowPart(k: nat): (row: seq<Byte>)
      requires Valid()
      ensures |row| == corpus.rowBytes
    {
      corpus.Row(RowOf(k))
    }

    function Record(k: nat): (r: seq<Byte>)
      requires Valid()
      ensures |r| == RecordLen()
    {
      RoutePart(k) + RowPart(k)
    }

    function Records(): (list: seq<seq<Byte>>)
      requires Valid()
      ensures |list| == records && Even(list, RecordLen())
    {
      seq(records, k requires 0 <= k < records => Record(k))
    }

    /** What has to go over the wire. */
    function Message(): (r: seq<Byte>)
      requires Valid()
      ensures |r| == |prefix| + BodyLen()
    {
      FlatLength(Records(), RecordLen());
      CopiesIsProduct(records, RecordLen());
      prefix + (header + Flat(Records()))
    }

    function BodyLen(): nat { BATCH_HEADER + RecordLen() * records }
  }

  /** How far a request has been written. */
  class WriteState {
    var prefixOff: nat
    var bodyOff: nat

    constructor ()
      ensures prefixOff == 0 && bodyOff == 0
    {
      prefixOff, bodyOff := 0, 0;
    }

    predicate Valid(q: Request)
      requires q.Valid()
      reads this
    {
      prefixOff <= |q.prefix| && bodyOff <= q.BodyLen() && (bodyOff > 0 ==> prefixOff == |q.prefix|)
    }

    function Sent(): nat
      reads this
    {
      prefixOff + bodyOff
    }
  }

  // ---------------------------------------------------------------- one flush

  method RecordSlices(q: Request, k: nat, off: nat, ghost list: seq<seq<Byte>>) returns (bufs: seq<seq<Byte>>)
    requires q.Valid() && k < q.records && off <= q.RecordLen() && list == q.Records()
    ensures Flat(bufs) == list[k][off..]
  {
    bufs := CutParts(q.RoutePart(k), q.RowPart(k), off);
  }

  /** The slices of all records from one on, the first from an offset inside it. */
  method RecordsSlices(q: Request, start: nat, firstOff: nat, ghost list: seq<seq<Byte>>) returns (bufs: seq<seq<Byte>>)
    requires q.Valid() && start <= q.records && (firstOff > 0 ==> start < q.records && firstOff < q.RecordLen())
             && list == q.Records()
    ensures firstOff <= |Flat(list[start..])| && Flat(bufs) == Flat(list[start..])[firstOff..]
  {
    bufs := [];
    if start == q.records {
      return;
    }
    bufs := RecordSlices(q, start, firstOff, list);
    FirstOfRest(list, start, firstOff);
    bufs := RestSlices(q, start + 1, bufs, list);
  }

  /** Appends the slices of the whole records from one on. */
  method RestSlices(q: Request, from: nat, first: seq<seq<Byte>>, ghost list: seq<seq<Byte>>)
    returns (bufs: seq<seq<Byte>>)
    requires q.Valid() && from <= q.records && list == q.Records()
    ensures Flat(bufs) == Flat(first) + Flat(list[from..])
  {
    bufs := first;
    ghost var goal, sofar := Flat(first) + Flat(list[from..]), Flat(first);
    for k := from to q.records
      invariant sofar == Flat(bufs) && sofar + Flat(list[k..]) == goal
    {
      var more := RecordSlices(q, k, 0, list);
      FlatJoin(bufs, more);
      OneMore(list, k, sofar);
      bufs := bufs + more;
      sofar := sofar + list[k][0..];
    }
  }

  lemma FirstOfRest(list: seq<seq<Byte>>, k: nat, off: nat)
    requires k < |list| && off <= |list[k]|
    ensures off <= |Flat(list[k..])| && list[k][off..] + Flat(list[k + 1..]) == Flat(list[k..])[off..]
  {
    assert list[k..][1..] == list[k + 1..];
    CutJoined(list[k], Flat(list[k + 1..]), off);
  }

  lemma OneMore(list: seq<seq<Byte>>, k: nat, sofar: seq<Byte>)
    requires k < |list|
    ensures (sofar + list[k][0..]) + Flat(list[k + 1..]) == sofar + Flat(list[k..])
  {
    assert list[k..][1..] == list[k + 1..] && list[k][0..] == list[k];
    assert (sofar + list[k]) + Flat(list[k + 1..]) == sofar + (list[k] + Flat(list[k + 1..]));
  }

  function HeadLeft(q: Request, bodyOff: nat): seq<Byte>
    requires q.Valid()
  {
    if bodyOff < BATCH_HEADER then q.header[bodyOff..] else []
  }

  /** The slices of what is left of prefix and header. */
  method HeadSlices(q: Request, prefixOff: nat, bodyOff: nat) returns (bufs: seq<seq<Byte>>)
    requires q.Valid() && prefixOff <= |q.prefix|
    ensures Flat(bufs) == q.prefix[prefixOff..] + HeadLeft(q, bodyOff)
  {
    bufs := [];
    if prefixOff < |q.prefix| {
      bufs := [q.prefix[prefixOff..]];
    }
    FlatSmall(q.prefix[prefixOff..], []);
    assert Flat(bufs) == q.prefix[prefixOff..];
    if bodyOff < BATCH_HEADER {
      FlatSmall(q.header[bodyOff..], []);
      FlatJoin(bufs, [q.header[bodyOff..]]);
      bufs := bufs + [q.header[bodyOff..]];
    }
  }

  /** The slices handed to the vectored write: exactly what has not been written yet. */
  method Slices(q: Request, prefixOff: nat, bodyOff: nat) returns (bufs: seq<seq<Byte>>)
    requires q.Valid() && prefixOff <= |q.prefix| && bodyOff <= q.BodyLen() && (bodyOff > 0 ==> prefixOff == |q.prefix|)
    ensures prefixOff + bodyOff <= |q.Message()| && Flat(bufs) == q.Message()[prefixOff + bodyOff..]
  {
    bufs := HeadSlices(q, prefixOff, bodyOff);
    var off := if bodyOff < BATCH_HEADER then 0 else bodyOff - BATCH_HEADER;
    var step := if q.RecordLen() == 0 then 1 else q.RecordLen();
    assert |q.Message()| == |q.prefix| + BATCH_HEADER + |Flat(q.Records())|;
    ghost var n, r := FlatResume(q.Records(), q.RecordLen(), off);
    var more := RecordsSlices(q, off / step, off % step, q.Records());
    FlatJoin(bufs, more);
    CutThree(q.prefix, q.header, Flat(q.Records()), prefixOff, bodyOff);
    bufs := bufs + more;
  }

  /** One vectored write of which the socket takes `accept` bytes: it sends the next bytes of the message,
      and reports completion exactly at its end.  A write that takes nothing is an error. */
  method FlushWriteBatch(q: Request, ws: WriteState, accept: nat) returns (r: Result<bool>, out: seq<Byte>)
    requires q.Valid() && ws.Valid(q)
    modifies ws
    ensures ws.Valid(q) && ws.Sent() == old(ws.Sent()) + |out| && ws.Sent() <= |q.Message()|
    ensures out == q.Message()[old(ws.Sent())..ws.Sent()]
    ensures |out| == if accept < |q.Message()| - old(ws.Sent()) then accept else |q.Message()| - old(ws.Sent())
    ensures r == if |out| == 0 then Err else Ok(ws.Sent() == |q.Message()|)
  {
    var bufs := Slices(q, ws.prefixOff, ws.bodyOff);
    var offered := Flat(bufs);
    var wrote := if accept < |offered| then accept else |offered|;
    out := offered[..wrote];
    if wrote == 0 {
      return Err, out;
    }
    var prefixRem := |q.prefix| - ws.prefixOff;
    var takePrefix := if wrote < prefixRem then wrote else prefixRem;
    var left := wrote - takePrefix;
    var bodyRem := q.BodyLen() - ws.bodyOff;
    ws.prefixOff := ws.prefixOff + takePrefix;
    ws.bodyOff := ws.bodyOff + if left < bodyRem then left else bodyRem;
    r := Ok(ws.prefixOff >= |q.prefix| && ws.bodyOff >= q.BodyLen());
  }

  /** Any sequence of partial writes: what went out is always a prefix of the message, and the request is
      reported done exactly when all of it went out. */
  method WriteRequest(q: Request, accepts: seq<nat>) returns (done: bool, emitted: seq<Byte>)
    requires q.Valid()
    ensures emitted <= q.Message() && (done <==> emitted == q.Message())
    ensures (forall k | 0 <= k < |accepts| :: accepts[k] > 0) && !done ==> |emitted| >= |accepts|
  {
    var ws := new WriteState();
    done, emitted := false, [];
    var k := 0;
    while k < |accepts| && !done
      invariant 0 <= k <= |accepts| && ws.Valid(q) && fresh(ws) && ws.Sent() == |emitted| <= |q.Message()|
      invariant emitted == q.Message()[..ws.Sent()] && (done <==> ws.Sent() == |q.Message()|)
      invariant (forall j | 0 <= j < |accepts| :: accepts[j] > 0) ==> done || |emitted| >= k
    {
      var r, out := FlushWriteBatch(q, ws, accepts[k]);
      assert q.Message()[..ws.Sent()] == q.Message()[..|emitted|] + out;
      emitted := emitted + out;
      if r.Err? {
        return;
      }
      done := r.value;
      k := k + 1;
    }
  }

  // ---------------------------------------------------------------- what is announced

  function EncodeBatchHeader(records: nat, recordBytes: nat, routed: bool): (h: seq<Byte>)
    ensures |h| == BATCH_HEADER
  {
    [0x52, 0x42, 0x48, 0x31] + Le16(1) + Le16(if routed then 1 else 0) + Le32(records) + Le32(recordBytes)
  }

  /** The request written for a token: its rows, but no more than a batch. */
  function RequestFor(prefix: seq<Byte>, startRow: nat, rows: nat, batchRecords: nat, corpus: Corpus,
                      route: Option<RouteMeta>): Request
  {
    var records := SentRows(rows, batchRecords);
    Request(prefix, EncodeBatchHeader(records, corpus.rowBytes + if route.Some? then ROUTE_HEADER else 0, route.Some?),
            startRow, records, corpus, route)
  }

  lemma EncodedFields(records: nat, recordBytes: nat, routed: bool)
    requires records < 0x1_0000_0000 && recordBytes < 0x1_0000_0000
    ensures var h := EncodeBatchHeader(records, recordBytes, routed);
            && FromLe32(h[8..12]) == records && FromLe32(h[12..16]) == recordBytes
            && h[..8] == ['R' as int, 'B' as int, 'H' as int, '1' as int, 1, 0, if routed then 1 else 0, 0]
            && records == h[8] + 0x100 * h[9] + 0x1_0000 * h[10] + 0x100_0000 * h[11]
            && recordBytes == h[12] + 0x100 * h[13] + 0x1_0000 * h[14] + 0x100_0000 * h[15]
  {
    var h := EncodeBatchHeader(records, recordBytes, routed);
    assert h[8..12] == Le32(records) && h[12..16] == Le32(recordBytes);
    Le32RoundTrip(records);
    Le32RoundTrip(recordBytes);
  }

  /** The header describes the body that follows it. */
  lemma HeaderDescribesBody(prefix: seq<Byte>, startRow: nat, rows: nat, batchRecords: nat, corpus: Corpus,
                            route: Option<RouteMeta>)
    requires var q := RequestFor(prefix, startRow, rows, batchRecords, corpus, route);
             q.Valid() && q.records < 0x1_0000_0000 && q.RecordLen() < 0x1_0000_0000
    ensures var q := RequestFor(prefix, startRow, rows, batchRecords, corpus, route);
            |q.Message()| == |prefix| + BATCH_HEADER + FromLe32(q.header[12..16]) * FromLe32(q.header[8..12])
  {
    var q := RequestFor(prefix, startRow, rows, batchRecords, corpus, route);
    EncodedFields(q.records, q.RecordLen(), route.Some?);
    assert FromLe32(q.header[12..16]) == q.RecordLen() && FromLe32(q.header[8..12]) == q.records;
  }

  /** The Content-Length every request of a run announces in its prefix. */
  function AnnouncedLength(q: Request, batchRecords: nat): nat {
    BATCH_HEADER + q.RecordLen() * AtLeastOne(batchRecords)
  }

  /** The body is as long as announced if and only if the token fills its batch (or records are empty). */
  lemma AnnouncedLengthIff(prefix: seq<Byte>, startRow: nat, rows: nat, batchRecords: nat, corpus: Corpus,
                           route: Option<RouteMeta>)
    ensures var q := RequestFor(prefix, startRow, rows, batchRecords, corpus, route);
            q.BodyLen() == AnnouncedLength(q, batchRecords) <==>
                q.RecordLen() == 0 || AtLeastOne(rows) >= AtLeastOne(batchRecords)
  {
    var q := RequestFor(prefix, startRow, rows, batchRecords, corpus, route);
    if q.records < AtLeastOne(batchRecords) && q.RecordLen() > 0 {
      LessTimes(q.records, AtLeastOne(batchRecords), q.RecordLen());
    }
  }

  lemma LessTimes(a: nat, b: nat, len: nat)
    requires a < b && len > 0
    ensures len * a < len * b
  {
    assert len * b == len * a + len * (b - a);
  }
}
