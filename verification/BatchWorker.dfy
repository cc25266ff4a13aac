/** Asking connections in turn. */
module RoundRobin {
  /** The connection asked at a step of the round robin. */
  function Turn(nextRr: nat, step: nat, n: nat): (i: nat)
    requires n > 0
    ensures i < n
  {
    (nextRr + step) % n
  }

  lemma EveryTurnComes(nextRr: nat, i: nat, n: nat) returns (step: nat)
    requires nextRr < n && i < n
    ensures step < n && Turn(nextRr, step, n) == i
  {
    step := if i >= nextRr then i - nextRr else i + n - nextRr;
  }
}

/** The HTTP batch worker: tokens popped from the ingress queue wait locally, then on a connection,
    are written, wait for their acknowledgement, and are finished exactly once. */
module BatchWorkers {
  import opened Forest
  import opened RoundRobin

  /** A popped request: `record` says whether it counts, `rows` how many rows it stands for. */
  datatype Token = Token(rowIdx: nat, schedAt: int, record: bool, rows: nat)

  /** A request being written or waiting for its acknowledgement. */
  datatype Active = Active(token: Token, rows: nat, deadline: int)

  datatype Conn = Conn(pending: seq<Token>, writing: Option<Active>, inflight: seq<Active>) {
    function Load(): nat { |pending| + |inflight| + if writing.Some? then 1 else 0 }

    /** Requests with a deadline, oldest first. */
    function Actives(): seq<Active> { inflight + if writing.Some? then [writing.value] else [] }

    /** Everything the connection holds, in the order it came. */
    function Line(): seq<Token> { Tokens(Actives()) + pending }

    function OldestDeadline(): Option<int> {
      if |inflight| > 0 then Some(inflight[0].deadline)
      else if writing.Some? then Some(writing.value.deadline)
      else None
    }
  }

  const IDLE: Conn := Conn([], None, [])

  datatype Fate = Acked | TimedOut | Dropped

  datatype Finish = Finish(token: Token, fate: Fate)

  /** What reading a connection yields, and what flushing one does. */
  datatype Read = Ack(success: bool, okCount: nat) | NoMoreBytes | ReadBroken
  datatype Write = WholeRequest | PartOfIt | WouldBlock | WriteBroken

  function AtLeastOne(n: nat): nat { if n == 0 then 1 else n }

  /** The rows a request carries: the token's, but no more than a batch. */
  function SentRows(rows: nat, batchRecords: nat): nat {
    var r, b := AtLeastOne(rows), AtLeastOne(batchRecords);
    if r < b then r else b
  }

  function Tokens(actives: seq<Active>): (r: seq<Token>)
    ensures |r| == |actives|
  {
    seq(|actives|, k requires 0 <= k < |actives| => actives[k].token)
  }

  function Finished(tokens: seq<Token>, fate: Fate): (r: seq<Finish>)
    ensures |r| == |tokens|
  {
    seq(|tokens|, k requires 0 <= k < |tokens| => Finish(tokens[k], fate))
  }

  // ---------------------------------------------------------------- weighing tokens

  /** What tokens weigh together.  Counting one token or its rows are two ways of weighing. */
  function Weigh(tokens: seq<Token>, w: Token -> nat): nat {
    if |tokens| == 0 then 0 else Weigh(tokens[..|tokens| - 1], w) + w(tokens[|tokens| - 1])
  }

  function WeighConns(conns: seq<Conn>, w: Token -> nat): nat {
    if |conns| == 0 then 0 else WeighConns(conns[..|conns| - 1], w) + Weigh(conns[|conns| - 1].Line(), w)
  }

  lemma {:induction false} WeighJoin(a: seq<Token>, b: seq<Token>, w: Token -> nat)
    ensures Weigh(a + b, w) == Weigh(a, w) + Weigh(b, w)
  {
    if |b| == 0 {
      assert a + b == a;
    } else {
      assert (a + b)[..|a + b| - 1] == a + b[..|b| - 1];
      WeighJoin(a, b[..|b| - 1], w);
    }
  }

  lemma WeighCut(a: seq<Token>, k: nat, w: Token -> nat)
    requires k <= |a|
    ensures Weigh(a, w) == Weigh(a[..k], w) + Weigh(a[k..], w)
  {
    assert a == a[..k] + a[k..];
    WeighJoin(a[..k], a[k..], w);
  }

  lemma {:induction false} WeighUpdate(conns: seq<Conn>, i: nat, c: Conn, w: Token -> nat)
    requires i < |conns|
    ensures WeighConns(conns[i := c], w) + Weigh(conns[i].Line(), w) == WeighConns(conns, w) + Weigh(c.Line(), w)
  {
    var last := |conns| - 1;
    if i == last {
      assert conns[i := c][..last] == conns[..last];
    } else {
      assert conns[i := c][..last] == conns[..last][i := c];
      WeighUpdate(conns[..last], i, c, w);
    }
  }

  lemma {:induction false} IdleWeighsNothing(conns: seq<Conn>, w: Token -> nat)
    requires forall i | 0 <= i < |conns| :: conns[i] == IDLE
    ensures WeighConns(conns, w) == 0
  {
    if |conns| > 0 { IdleWeighsNothing(conns[..|conns| - 1], w); }
  }

  function EndedTokens(finished: seq<Finish>): (r: seq<Token>)
    ensures |r| == |finished|
  {
    seq(|finished|, k requires 0 <= k < |finished| => finished[k].token)
  }

  lemma EndedJoin(finished: seq<Finish>, tokens: seq<Token>, fate: Fate)
    ensures EndedTokens(finished + Finished(tokens, fate)) == EndedTokens(finished) + tokens
  {}

  /** Weighed any way, what was popped is what waits locally, is on a connection, or is finished. */
  ghost predicate Kept(popped: seq<Token>, local: seq<Token>, conns: seq<Conn>, finished: seq<Finish>, w: Token -> nat)
  {
    Weigh(popped, w) == Weigh(local, w) + WeighConns(conns, w) + Weigh(EndedTokens(finished), w)
  }

  ghost predicate AllKept(popped: seq<Token>, local: seq<Token>, conns: seq<Conn>, finished: seq<Finish>) {
    forall w: Token -> nat :: Kept(popped, local, conns, finished, w)
  }

  /** How often a token occurs is a weight. */
  function IsToken(x: Token): Token -> nat { t => if t == x then 1 else 0 }

  // ---------------------------------------------------------------- rows

  /** The rows a token stands for in the accounts; unrecorded tokens count for nothing. */
  function Rows(t: Token): nat { if t.record then AtLeastOne(t.rows) else 0 }

  function FateRows(finished: seq<Finish>, fate: Fate, batchRecords: nat): nat {
    if |finished| == 0 then 0
    else
      var last := finished[|finished| - 1];
      FateRows(finished[..|finished| - 1], fate, batchRecords)
      + if last.fate != fate || !last.token.record then 0
        else if fate.Dropped? then AtLeastOne(last.token.rows)
        else SentRows(last.token.rows, batchRecords)
  }

  /** Rows of written tokens that did not fit their batch: they were never sent. */
  function UnsentRows(finished: seq<Finish>, batchRecords: nat): nat {
    if |finished| == 0 then 0
    else
      var last := finished[|finished| - 1];
      UnsentRows(finished[..|finished| - 1], batchRecords)
      + if last.fate.Dropped? || !last.token.record then 0
        else AtLeastOne(last.token.rows) - SentRows(last.token.rows, batchRecords)
  }

  /** Every finished row is acknowledged, timed out, dropped or was never sent. */
  lemma {:induction false} RowsByFate(finished: seq<Finish>, batchRecords: nat)
    ensures Weigh(EndedTokens(finished), Rows) ==
            FateRows(finished, Acked, batchRecords) + FateRows(finished, TimedOut, batchRecords)
            + FateRows(finished, Dropped, batchRecords) + UnsentRows(finished, batchRecords)
  {
    if |finished| == 0 {
    } else {
      var front := finished[..|finished| - 1];
      RowsByFate(front, batchRecords);
      assert EndedTokens(finished)[..|finished| - 1] == EndedTokens(front);
    }
  }

  /** Rows are left unsent exactly when a recorded token larger than a batch was written and finished. */
  lemma {:induction false} UnsentIff(finished: seq<Finish>, batchRecords: nat)
    ensures UnsentRows(finished, batchRecords) == 0 <==>
            forall k | 0 <= k < |finished| && !finished[k].fate.Dropped? && finished[k].token.record ::
              AtLeastOne(finished[k].token.rows) <= AtLeastOne(batchRecords)
  {
    if |finished| == 0 {
    } else {
      var last := |finished| - 1;
      UnsentIff(finished[..last], batchRecords);
      forall k | 0 <= k < last ensures finished[..last][k] == finished[k] {}
    }
  }

  lemma {:induction false} FateRowsJoin(finished: seq<Finish>, tokens: seq<Token>, fate: Fate, counted: Fate,
                                        batchRecords: nat)
    ensures FateRows(finished + Finished(tokens, fate), counted, batchRecords) ==
            FateRows(finished, counted, batchRecords)
            + (if counted != fate then 0 else FateRows(Finished(tokens, fate), fate, batchRecords))
    decreases |tokens|
  {
    if |tokens| == 0 {
      assert finished + Finished(tokens, fate) == finished;
    } else {
      var front := tokens[..|tokens| - 1];
      var all := finished + Finished(tokens, fate);
      assert all[..|all| - 1] == finished + Finished(front, fate);
      assert Finished(tokens, fate)[..|tokens| - 1] == Finished(front, fate);
      FateRowsJoin(finished, front, fate, counted, batchRecords);
    }
  }

  // ---------------------------------------------------------------- one step on one connection

  /** Moving tokens from a connection to the finished ones keeps everything. */
  lemma EndTokens(popped: seq<Token>, local: seq<Token>, conns: seq<Conn>, finished: seq<Finish>, i: nat, c: Conn,
                  tokens: seq<Token>, fate: Fate)
    requires AllKept(popped, local, conns, finished) && i < |conns|
    requires Splits(conns[i].Line(), c.Line(), tokens)
    ensures AllKept(popped, local, conns[i := c], finished + Finished(tokens, fate))
  {
    var conns', finished' := conns[i := c], finished + Finished(tokens, fate);
    forall w: Token -> nat ensures Kept(popped, local, conns', finished', w) {
      assert Kept(popped, local, conns, finished, w) && SplitsOff(conns[i].Line(), c.Line(), tokens, w);
      WeighUpdate(conns, i, c, w);
      EndedJoin(finished, tokens, fate);
      WeighJoin(EndedTokens(finished), tokens, w);
    }
  }

  /** Weighed any way, a line is what is left of it and what was taken off. */
  ghost predicate Splits(line: seq<Token>, rest: seq<Token>, tokens: seq<Token>) {
    forall w: Token -> nat :: SplitsOff(line, rest, tokens, w)
  }

  lemma NothingSplits(line: seq<Token>)
    ensures Splits(line, line, [])
  {
    forall w: Token -> nat ensures SplitsOff(line, line, [], w) {}
  }

  ghost predicate SplitsOff(line: seq<Token>, rest: seq<Token>, tokens: seq<Token>, w: Token -> nat) {
    Weigh(line, w) == Weigh(rest, w) + Weigh(tokens, w)
  }

  /** Moving the first local token to the end of a connection's line keeps everything. */
  lemma HandOver(popped: seq<Token>, local: seq<Token>, conns: seq<Conn>, finished: seq<Finish>, i: nat, c: Conn)
    requires AllKept(popped, local, conns, finished) && i < |conns| && |local| > 0
             && c.Line() == conns[i].Line() + [local[0]]
    ensures AllKept(popped, local[1..], conns[i := c], finished)
  {
    var local', conns' := local[1..], conns[i := c];
    forall w: Token -> nat ensures Kept(popped, local', conns', finished, w) {
      assert Kept(popped, local, conns, finished, w);
      WeighUpdate(conns, i, c, w);
      WeighJoin(conns[i].Line(), [local[0]], w);
      WeighCut(local, 1, w);
      assert local[..1] == [local[0]];
    }
  }

  lemma Arrive(popped: seq<Token>, local: seq<Token>, conns: seq<Conn>, finished: seq<Finish>, more: seq<Token>)
    requires AllKept(popped, local, conns, finished)
    ensures AllKept(popped + more, local + more, conns, finished)
  {
    var popped', local' := popped + more, local + more;
    forall w: Token -> nat ensures Kept(popped', local', conns, finished, w) {
      assert Kept(popped, local, conns, finished, w);
      WeighJoin(popped, more, w);
      WeighJoin(local, more, w);
    }
  }

  /** Dropping the local tokens keeps everything. */
  lemma EndLocal(popped: seq<Token>, local: seq<Token>, conns: seq<Conn>, finished: seq<Finish>)
    requires AllKept(popped, local, conns, finished)
    ensures AllKept(popped, [], conns, finished + Finished(local, Dropped))
  {
    var finished' := finished + Finished(local, Dropped);
    forall w: Token -> nat ensures Kept(popped, [], conns, finished', w) {
      assert Kept(popped, local, conns, finished, w);
      EndedJoin(finished, local, Dropped);
      WeighJoin(EndedTokens(finished), local, w);
    }
  }

  // ---------------------------------------------------------------- a connection in order

  /** Deadlines come in order, and none is later than `latest`. */
  ghost predicate InOrder(actives: seq<Active>, latest: int) {
    && (forall j, k | 0 <= j < k < |actives| :: actives[j].deadline <= actives[k].deadline)
    && (forall k | 0 <= k < |actives| :: actives[k].deadline <= latest)
  }

  ghost predicate CarryRows(actives: seq<Active>, batchRecords: nat) {
    forall k | 0 <= k < |actives| :: actives[k].rows == SentRows(actives[k].token.rows, batchRecords)
  }

  lemma TailInOrder(actives: seq<Active>, batchRecords: nat, latest: int)
    requires |actives| > 0 && CarryRows(actives, batchRecords) && InOrder(actives, latest)
    ensures CarryRows(actives[1..], batchRecords) && InOrder(actives[1..], latest)
  {}

  /** The connection is within its cap, its requests carry the rows they should, its deadlines are in
      order, and since the last reconnect acknowledgements were matched to written requests first to first. */
  ghost predicate ConnOk(c: Conn, written: seq<Token>, acked: seq<Token>, cap: nat, batchRecords: nat, latest: int) {
    && c.Load() <= cap
    && CarryRows(c.Actives(), batchRecords) && InOrder(c.Actives(), latest)
    && written == acked + Tokens(c.inflight)
  }

  ghost predicate Monotone(clock: nat -> int) { forall i: nat, j: nat | i <= j :: clock(i) <= clock(j) }

  /** The connection after starting to write its first pending request, if it was not writing. */
  function Primed(c: Conn, deadline: int, batchRecords: nat): Conn {
    if c.writing.Some? || |c.pending| == 0 then c
    else Conn(c.pending[1..], Some(Active(c.pending[0], SentRows(c.pending[0].rows, batchRecords), deadline)),
              c.inflight)
  }

  lemma PrimedOk(c: Conn, written: seq<Token>, acked: seq<Token>, cap: nat, batchRecords: nat, latest: int,
                 deadline: int)
    requires ConnOk(c, written, acked, cap, batchRecords, latest) && latest <= deadline
    ensures ConnOk(Primed(c, deadline, batchRecords), written, acked, cap, batchRecords, deadline)
    ensures Primed(c, deadline, batchRecords).Line() == c.Line()
  {
    var c' := Primed(c, deadline, batchRecords);
    if c' != c {
      assert c'.Actives() == c.Actives() + [c'.writing.value];
      assert c'.Line() == c.Line();
    }
  }

  /** The connection after its request was written whole. */
  function SentOff(c: Conn, deadline: int): Conn
    requires c.writing.Some?
  {
    Conn(c.pending, None, c.inflight + [c.writing.value.(deadline := deadline)])
  }

  lemma SentOffOk(c: Conn, written: seq<Token>, acked: seq<Token>, cap: nat, batchRecords: nat, latest: int,
                  deadline: int)
    requires ConnOk(c, written, acked, cap, batchRecords, latest) && latest <= deadline && c.writing.Some?
    ensures ConnOk(SentOff(c, deadline), written + [c.writing.value.token], acked, cap, batchRecords, deadline)
    ensures SentOff(c, deadline).Line() == c.Line()
  {
    var c' := SentOff(c, deadline);
    assert c'.Actives()[..|c.inflight|] == c.Actives()[..|c.inflight|];
    assert c.Actives()[|c.inflight|] == c.writing.value;
    assert Tokens(c'.inflight) == Tokens(c.inflight) + [c.writing.value.token];
    assert c'.Line() == c.Line();
  }

  /** The connection after an acknowledgement: its oldest request is done. */
  function Answered(c: Conn): Conn
    requires |c.inflight| > 0
  {
    c.(inflight := c.inflight[1..])
  }

  lemma AnsweredOk(c: Conn, written: seq<Token>, acked: seq<Token>, cap: nat, batchRecords: nat, latest: int)
    requires ConnOk(c, written, acked, cap, batchRecords, latest) && |c.inflight| > 0
    ensures ConnOk(Answered(c), written, acked + [c.inflight[0].token], cap, batchRecords, latest)
    ensures c.Line() == [c.inflight[0].token] + Answered(c).Line()
  {
    TailInOrder(c.Actives(), batchRecords, latest);
    assert Answered(c).Actives() == c.Actives()[1..];
    assert c.Actives() == [c.inflight[0]] + Answered(c).Actives();
    assert Tokens(c.inflight) == [c.inflight[0].token] + Tokens(Answered(c).inflight);
  }

  /** The oldest deadline is the least one. */
  lemma OldestIsLeast(c: Conn, written: seq<Token>, acked: seq<Token>, cap: nat, batchRecords: nat, latest: int)
    requires ConnOk(c, written, acked, cap, batchRecords, latest)
    ensures c.OldestDeadline().None? <==> c.Actives() == []
    ensures c.OldestDeadline().Some? ==>
            forall k | 0 <= k < |c.Actives()| :: c.OldestDeadline().value <= c.Actives()[k].deadline
  {
    if |c.Actives()| > 0 { assert c.OldestDeadline() == Some(c.Actives()[0].deadline); }
  }

  ghost predicate AllOk(conns: seq<Conn>, written: seq<seq<Token>>, acked: seq<seq<Token>>, cap: nat, batchRecords: nat,
                        latest: int)
  {
    && |written| == |acked| == |conns|
    && forall i: nat :: OkAt(conns, written, acked, cap, batchRecords, latest, i)
  }

  ghost predicate OkAt(conns: seq<Conn>, written: seq<seq<Token>>, acked: seq<seq<Token>>, cap: nat, batchRecords: nat,
                       latest: int, i: nat)
    requires |written| == |acked| == |conns|
  {
    i < |conns| ==> ConnOk(conns[i], written[i], acked[i], cap, batchRecords, latest)
  }

  /** Time passes, and one connection changes. */
  lemma OneChanged(conns: seq<Conn>, written: seq<seq<Token>>, acked: seq<seq<Token>>, cap: nat, batchRecords: nat,
                   latest: int, i: nat, c: Conn, wrote: seq<Token>, got: seq<Token>, later: int)
    requires AllOk(conns, written, acked, cap, batchRecords, latest) && latest <= later && i < |conns|
    requires ConnOk(c, wrote, got, cap, batchRecords, later)
    ensures AllOk(conns[i := c], written[i := wrote], acked[i := got], cap, batchRecords, later)
  {
    var conns', written', acked' := conns[i := c], written[i := wrote], acked[i := got];
    forall j: nat ensures OkAt(conns', written', acked', cap, batchRecords, later, j) {
      assert OkAt(conns, written, acked, cap, batchRecords, latest, j);
    }
  }

  lemma ConnChanged(conns: seq<Conn>, written: seq<seq<Token>>, acked: seq<seq<Token>>, cap: nat, batchRecords: nat,
                    latest: int, i: nat, c: Conn)
    requires AllOk(conns, written, acked, cap, batchRecords, latest) && i < |conns|
    requires ConnOk(c, written[i], acked[i], cap, batchRecords, latest)
    ensures AllOk(conns[i := c], written, acked, cap, batchRecords, latest)
  {
    OneChanged(conns, written, acked, cap, batchRecords, latest, i, c, written[i], acked[i], latest);
    assert written[i := written[i]] == written && acked[i := acked[i]] == acked;
  }

  lemma TimePasses(conns: seq<Conn>, written: seq<seq<Token>>, acked: seq<seq<Token>>, cap: nat, batchRecords: nat,
                   latest: int, later: int)
    requires AllOk(conns, written, acked, cap, batchRecords, latest) && latest <= later
    ensures AllOk(conns, written, acked, cap, batchRecords, later)
  {
    forall j: nat ensures OkAt(conns, written, acked, cap, batchRecords, later, j) {
      assert OkAt(conns, written, acked, cap, batchRecords, latest, j);
    }
  }

  lemma PendingSplits(c: Conn)
    ensures Splits(c.Line(), c.(pending := []).Line(), c.pending)
  {
    var line, rest, tokens := c.Line(), c.(pending := []).Line(), c.pending;
    forall w: Token -> nat ensures SplitsOff(line, rest, tokens, w) {
      assert rest == Tokens(c.Actives());
      WeighJoin(rest, tokens, w);
    }
  }

  lemma ActivesSplit(c: Conn)
    ensures Splits(c.Line(), c.(writing := None, inflight := []).Line(), Abandoned(c))
  {
    var line, rest, tokens := c.Line(), c.(writing := None, inflight := []).Line(), Abandoned(c);
    var now := Tokens(if c.writing.Some? then [c.writing.value] else []);
    forall w: Token -> nat ensures SplitsOff(line, rest, tokens, w) {
      assert rest == c.pending;
      assert tokens == now + Tokens(c.inflight) && Tokens(c.Actives()) == Tokens(c.inflight) + now;
      WeighJoin(Tokens(c.Actives()), c.pending, w);
      WeighJoin(Tokens(c.inflight), now, w);
      WeighJoin(now, Tokens(c.inflight), w);
    }
  }

  lemma FrontSplits(c: Conn)
    requires |c.inflight| > 0
    ensures Splits(c.Line(), Answered(c).Line(), [c.inflight[0].token])
  {
    var line, rest, tokens := c.Line(), Answered(c).Line(), [c.inflight[0].token];
    assert c.Actives() == [c.inflight[0]] + Answered(c).Actives();
    assert line == tokens + rest;
    forall w: Token -> nat ensures SplitsOff(line, rest, tokens, w) { WeighJoin(tokens, rest, w); }
  }

  lemma AbandonedCarry(c: Conn, batchRecords: nat)
    requires CarryRows(c.Actives(), batchRecords)
    ensures CarryRows(AbandonOrder(c), batchRecords)
  {
    forall k | 0 <= k < |c.inflight| ensures c.inflight[k].rows == SentRows(c.inflight[k].token.rows, batchRecords) {
      assert c.Actives()[k] == c.inflight[k];
    }
    if c.writing.Some? { assert c.Actives()[|c.inflight|] == c.writing.value; }
  }

  /** Finishing tokens one way adds their rows to that account only. */
  lemma CountsAfter(finished: seq<Finish>, tokens: seq<Token>, fate: Fate, batchRecords: nat)
    ensures forall counted: Fate ::
              FateRows(finished + Finished(tokens, fate), counted, batchRecords) ==
              FateRows(finished, counted, batchRecords)
                  + (if counted != fate then 0 else FateRows(Finished(tokens, fate), fate, batchRecords))
  {
    var all := finished + Finished(tokens, fate);
    forall counted: Fate
      ensures FateRows(all, counted, batchRecords) ==
              FateRows(finished, counted, batchRecords)
                  + (if counted != fate then 0 else FateRows(Finished(tokens, fate), fate, batchRecords))
    {
      FateRowsJoin(finished, tokens, fate, counted, batchRecords);
    }
  }

  // ---------------------------------------------------------------- acknowledgements

  /** The tokens of acknowledgements, in order. */
  function RepliedTokens(replies: seq<Reply>): (r: seq<Token>)
    ensures |r| == |replies|
  {
    seq(|replies|, k requires 0 <= k < |replies| => replies[k].token)
  }

  /** The tokens finished by an acknowledgement, in order. */
  function AckedTokens(finished: seq<Finish>): seq<Token> {
    if |finished| == 0 then []
    else
      var last := finished[|finished| - 1];
      AckedTokens(finished[..|finished| - 1]) + if last.fate.Acked? then [last.token] else []
  }

  /** What the successes answering recorded requests report together. */
  function OkRows(replies: seq<Reply>): nat {
    if |replies| == 0 then 0
    else
      var last := replies[|replies| - 1];
      OkRows(replies[..|replies| - 1]) + if last.token.record && last.success then last.okCount else 0
  }

  /** The rows of the recorded requests that failures answer. */
  function ErrRows(replies: seq<Reply>, batchRecords: nat): nat {
    if |replies| == 0 then 0
    else
      var last := replies[|replies| - 1];
      ErrRows(replies[..|replies| - 1], batchRecords)
      + if last.token.record && !last.success then SentRows(last.token.rows, batchRecords) else 0
  }

  /** The acknowledgement, if a success for a recorded request, reports the rows of the request. */
  predicate Counts(r: Reply, batchRecords: nat) {
    r.success && r.token.record ==> r.okCount == SentRows(r.token.rows, batchRecords)
  }

  predicate AllCounted(replies: seq<Reply>, batchRecords: nat) {
    forall k | 0 <= k < |replies| :: Counts(replies[k], batchRecords)
  }

  lemma {:induction false} AckedJoin(finished: seq<Finish>, tokens: seq<Token>, fate: Fate)
    ensures AckedTokens(finished + Finished(tokens, fate)) ==
            AckedTokens(finished) + if fate.Acked? then tokens else []
    decreases |tokens|
  {
    var all := finished + Finished(tokens, fate);
    if |tokens| == 0 {
      assert all == finished;
    } else {
      var front := tokens[..|tokens| - 1];
      assert all[..|all| - 1] == finished + Finished(front, fate);
      AckedJoin(finished, front, fate);
    }
  }

  lemma {:induction false} RepliesJoin(a: seq<Reply>, b: seq<Reply>, batchRecords: nat)
    ensures OkRows(a + b) == OkRows(a) + OkRows(b)
    ensures ErrRows(a + b, batchRecords) == ErrRows(a, batchRecords) + ErrRows(b, batchRecords)
    ensures RepliedTokens(a + b) == RepliedTokens(a) + RepliedTokens(b)
  {
    assert RepliedTokens(a + b) == RepliedTokens(a) + RepliedTokens(b);
    if |b| == 0 {
      assert a + b == a;
    } else {
      assert (a + b)[..|a + b| - 1] == a + b[..|b| - 1];
      RepliesJoin(a, b[..|b| - 1], batchRecords);
    }
  }

  lemma OneReply(r: Reply, batchRecords: nat)
    ensures RepliedTokens([r]) == [r.token]
    ensures OkRows([r]) == if r.token.record && r.success then r.okCount else 0
    ensures ErrRows([r], batchRecords) ==
            if r.token.record && !r.success then SentRows(r.token.rows, batchRecords) else 0
  {
    assert [r][..0] == [];
  }

  /** When successes report the rows of what they answer, the rows acknowledged are those of the two counters. */
  lemma {:induction false} CountedReplies(finished: seq<Finish>, replies: seq<Reply>, batchRecords: nat)
    requires AckedTokens(finished) == RepliedTokens(replies) && AllCounted(replies, batchRecords)
    ensures OkRows(replies) + ErrRows(replies, batchRecords) == FateRows(finished, Acked, batchRecords)
  {
    if |finished| == 0 {
    } else {
      var front, last := finished[..|finished| - 1], finished[|finished| - 1];
      if last.fate.Acked? {
        var before := replies[..|replies| - 1];
        assert RepliedTokens(before) == RepliedTokens(replies)[..|replies| - 1] == AckedTokens(front);
        assert replies[|replies| - 1].token == AckedTokens(finished)[|replies| - 1] == last.token;
        assert Counts(replies[|replies| - 1], batchRecords);
        CountedReplies(front, before, batchRecords);
      } else {
        CountedReplies(front, replies, batchRecords);
      }
    }
  }

  lemma StartsOk(n: nat, cap: nat, batchRecords: nat, latest: int)
    ensures AllOk(seq(n, _ => IDLE), seq(n, _ => []), seq(n, _ => []), cap, batchRecords, latest)
    ensures AllKept([], [], seq(n, _ => IDLE), [])
  {
    var conns := seq(n, _ => IDLE);
    forall w: Token -> nat ensures Kept([], [], conns, [], w) { IdleWeighsNothing(conns, w); }
  }

  // ---------------------------------------------------------------- rows of tokens given up

  method SumDropped(tokens: seq<Token>) returns (rows: nat)
    ensures rows == Weigh(tokens, Rows)
  {
    rows := 0;
    for k := 0 to |tokens|
      invariant rows == Weigh(tokens[..k], Rows)
    {
      assert tokens[..k + 1][..k] == tokens[..k];
      if tokens[k].record {
        rows := rows + AtLeastOne(tokens[k].rows);
      }
    }
    assert tokens[..|tokens|] == tokens;
  }

  /** The rows the recorded ones of these requests carry. */
  function ActiveRows(actives: seq<Active>): nat {
    if |actives| == 0 then 0
    else
      var last := actives[|actives| - 1];
      ActiveRows(actives[..|actives| - 1]) + if last.token.record then last.rows else 0
  }

  method SumTimedOut(actives: seq<Active>) returns (rows: nat)
    ensures rows == ActiveRows(actives)
  {
    rows := 0;
    for k := 0 to |actives|
      invariant rows == ActiveRows(actives[..k])
    {
      assert actives[..k + 1][..k] == actives[..k];
      if actives[k].token.record {
        rows := rows + actives[k].rows;
      }
    }
    assert actives[..|actives|] == actives;
  }

  lemma {:induction false} DroppedAreRows(tokens: seq<Token>, batchRecords: nat)
    ensures FateRows(Finished(tokens, Dropped), Dropped, batchRecords) == Weigh(tokens, Rows)
  {
    if |tokens| == 0 {
    } else {
      var last := |tokens| - 1;
      assert Finished(tokens, Dropped)[..last] == Finished(tokens[..last], Dropped);
      DroppedAreRows(tokens[..last], batchRecords);
    }
  }

  lemma {:induction false} TimedOutAreRows(actives: seq<Active>, batchRecords: nat)
    requires CarryRows(actives, batchRecords)
    ensures FateRows(Finished(Tokens(actives), TimedOut), TimedOut, batchRecords) == ActiveRows(actives)
  {
    if |actives| == 0 {
    } else {
      var last := |actives| - 1;
      assert Finished(Tokens(actives), TimedOut)[..last] == Finished(Tokens(actives[..last]), TimedOut);
      TimedOutAreRows(actives[..last], batchRecords);
    }
  }

  // ---------------------------------------------------------------- the worker's state

  /** The settings of a run; `clock` gives the successive readings of the clock. */
  datatype Config = Config(cap: nat, batchRecords: nat, timeout: nat, clock: nat -> int) {
    /** No deadline set before the next reading is later than this. */
    function Latest(ticks: nat): int { clock(ticks) + timeout }
  }

  /** The variables of the worker loop; `ticks` counts the readings of the clock. */
  datatype Worker = Worker(
    local: seq<Token>, conns: seq<Conn>, nextRr: nat, ok: nat, err: nat, timeouts: nat, dropped: nat, ticks: nat)

  /** Where in a run something is read: the turn, its event, and the event's read. */
  datatype Place = Place(turn: nat, event: nat, read: nat) {
    predicate Before(other: Place) {
      || turn < other.turn
      || (turn == other.turn && (event < other.event || (event == other.event && read < other.read)))
    }
  }

  /** The acknowledgement read there, on this connection, answered this token's request. */
  datatype Reply = Reply(token: Token, conn: nat, at: Place, success: bool, okCount: nat)

  /** What has happened: every token popped and finished; per connection since its last reconnect, the
      requests written whole and those acknowledged; every acknowledgement; and which turn and event it is. */
  datatype Log = Log(
    popped: seq<Token>, finished: seq<Finish>, written: seq<seq<Token>>, acked: seq<seq<Token>>,
    replies: seq<Reply>, turn: nat, event: nat)

  /** The worker, and what has happened to it. */
  datatype Books = Books(w: Worker, g: Log) {
    function AtTurn(k: nat): Books { this.(g := g.(turn := k)) }

    function AtEvent(k: nat): Books { this.(g := g.(event := k)) }
  }

  /** No acknowledgement in between. */
  predicate SameReplies(g: Log, g': Log) { g'.replies == g.replies && g'.turn == g.turn && g'.event == g.event }

  predicate NoneOverdue(c: Conn, now: int) { forall k | 0 <= k < |c.Actives()| :: c.Actives()[k].deadline > now }

  predicate Overdue(c: Conn, now: int) { c.OldestDeadline().Some? && now >= c.OldestDeadline().value }

  /** The order in which a connection's requests are timed out. */
  function AbandonOrder(c: Conn): seq<Active> { (if c.writing.Some? then [c.writing.value] else []) + c.inflight }

  function Abandoned(c: Conn): seq<Token> { Tokens(AbandonOrder(c)) }

  function Cleared(histories: seq<seq<Token>>, i: nat): seq<seq<Token>> {
    if i < |histories| then histories[i := []] else histories
  }

  function Longer(histories: seq<seq<Token>>, i: nat, t: Token): seq<seq<Token>> {
    if i < |histories| then histories[i := histories[i] + [t]] else histories
  }

  // ---------------------------------------------------------------- what each step does

  /** The first connection, in turn, that has room. */
  function FirstRoom(conns: seq<Conn>, nextRr: nat, cap: nat, step: nat): (r: Option<nat>)
    requires step <= |conns|
    ensures r.Some? ==> r.value < |conns| && conns[r.value].Load() < cap
    decreases |conns| - step
  {
    if step == |conns| then None
    else if conns[Turn(nextRr, step, |conns|)].Load() < cap then Some(Turn(nextRr, step, |conns|))
    else FirstRoom(conns, nextRr, cap, step + 1)
  }

  /** Priming reads the clock only if it starts a request. */
  function PrimedWorker(cfg: Config, w: Worker, i: nat): (w': Worker)
    requires i < |w.conns|
    ensures |w'.conns| == |w.conns| && w'.local == w.local
  {
    if w.conns[i].writing.Some? || |w.conns[i].pending| == 0 then w
    else
      var c := Primed(w.conns[i], cfg.Latest(w.ticks + 1), cfg.batchRecords);
      w.(ticks := w.ticks + 1, conns := w.conns[i := c])
  }

  function HandedWorker(cfg: Config, w: Worker, i: nat): (w': Worker)
    requires i < |w.conns| && |w.local| > 0
    ensures |w'.conns| == |w.conns| && w'.local == w.local[1..]
  {
    var c := w.conns[i].(pending := w.conns[i].pending + [w.local[0]]);
    PrimedWorker(cfg, w.(local := w.local[1..], conns := w.conns[i := c], nextRr := (i + 1) % |w.conns|), i)
  }

  /** Local tokens go, first to first, to the connections in turn. */
  function AssignedWorker(cfg: Config, w: Worker): (w': Worker)
    ensures |w'.conns| == |w.conns|
    decreases |w.local|
  {
    if |w.local| == 0 then w else
      match FirstRoom(w.conns, w.nextRr, cfg.cap, 0)
      case None => w
      case Some(i) => AssignedWorker(cfg, HandedWorker(cfg, w, i))
  }

  function PoppedBooks(s: Books, tokens: seq<Token>): Books {
    Books(s.w.(local := s.w.local + tokens), s.g.(popped := s.g.popped + tokens))
  }

  /** What connection `i` has not started to write is dropped. */
  function DroppedBooks(s: Books, i: nat): (s': Books)
    requires i < |s.w.conns|
    ensures |s'.w.conns| == |s.w.conns| && s'.w.local == s.w.local
    ensures SameReplies(s.g, s'.g)
  {
    var c := s.w.conns[i];
    Books(s.w.(conns := s.w.conns[i := c.(pending := [])], dropped := s.w.dropped + Weigh(c.pending, Rows)),
          s.g.(finished := s.g.finished + Finished(c.pending, Dropped)))
  }

  /** What it has started is timed out, and its histories end. */
  function TimedOutBooks(s: Books, i: nat): (s': Books)
    requires i < |s.w.conns|
    ensures |s'.w.conns| == |s.w.conns| && s'.w.local == s.w.local
    ensures SameReplies(s.g, s'.g)
  {
    var c := s.w.conns[i];
    Books(s.w.(conns := s.w.conns[i := c.(writing := None, inflight := [])],
               timeouts := s.w.timeouts + ActiveRows(AbandonOrder(c))),
          s.g.(finished := s.g.finished + Finished(Abandoned(c), TimedOut),
               written := Cleared(s.g.written, i), acked := Cleared(s.g.acked, i)))
  }

  function FailedBooks(s: Books, i: nat): (s': Books)
    requires i < |s.w.conns|
    ensures |s'.w.conns| == |s.w.conns| && s'.w.local == s.w.local
    ensures SameReplies(s.g, s'.g)
  {
    TimedOutBooks(DroppedBooks(s, i), i)
  }

  /** Overdue connections fail, from connection `i` on. */
  function SweptBooks(s: Books, now: int, i: nat): (s': Books)
    requires i <= |s.w.conns|
    ensures |s'.w.conns| == |s.w.conns|
    ensures SameReplies(s.g, s'.g)
    decreases |s.w.conns| - i
  {
    if i == |s.w.conns| then s
    else SweptBooks(if Overdue(s.w.conns[i], now) then FailedBooks(s, i) else s, now, i + 1)
  }

  function DroppedFrom(s: Books, i: nat): (s': Books)
    requires i <= |s.w.conns|
    ensures |s'.w.conns| == |s.w.conns|
    ensures SameReplies(s.g, s'.g)
    decreases |s.w.conns| - i
  {
    if i == |s.w.conns| then s else DroppedFrom(DroppedBooks(s, i), i + 1)
  }

  function TimedOutFrom(s: Books, i: nat): (s': Books)
    requires i <= |s.w.conns|
    ensures |s'.w.conns| == |s.w.conns|
    ensures SameReplies(s.g, s'.g)
    decreases |s.w.conns| - i
  {
    if i == |s.w.conns| then s else TimedOutFrom(TimedOutBooks(s, i), i + 1)
  }

  /** The tokens no connection has taken are dropped. */
  function DroppedLocal(s: Books): Books {
    Books(s.w.(local := [], dropped := s.w.dropped + Weigh(s.w.local, Rows)),
          s.g.(finished := s.g.finished + Finished(s.w.local, Dropped)))
  }

  function DrainedBooks(s: Books): (s': Books)
    ensures SameReplies(s.g, s'.g)
  {
    TimedOutFrom(DroppedFrom(DroppedLocal(s), 0), 0)
  }

  /** An acknowledgement answers the oldest request waiting.  A success counts what the server says, a
      failure the rows of the request; unrecorded requests count for nothing. */
  function AckedBooks(s: Books, i: nat, success: bool, okCount: nat, k: nat): (s': Books)
    requires i < |s.w.conns| && |s.w.conns[i].inflight| > 0
    ensures |s'.w.conns| == |s.w.conns| && s'.w.local == s.w.local
    ensures s'.g.turn == s.g.turn && s'.g.event == s.g.event
  {
    var a := s.w.conns[i].inflight[0];
    Books(s.w.(conns := s.w.conns[i := Answered(s.w.conns[i])],
               ok := if a.token.record && success then s.w.ok + okCount else s.w.ok,
               err := if a.token.record && !success then s.w.err + a.rows else s.w.err),
          s.g.(finished := s.g.finished + Finished([a.token], Acked), acked := Longer(s.g.acked, i, a.token),
               replies := s.g.replies + [Reply(a.token, i, Place(s.g.turn, s.g.event, k), success, okCount)]))
  }

  /** The reads from number `k` on. */
  function ReadBooks(s: Books, i: nat, arrivals: seq<Read>, k: nat): (s': Books)
    requires i < |s.w.conns| && k <= |arrivals|
    ensures |s'.w.conns| == |s.w.conns| && s'.w.local == s.w.local
    ensures s'.g.turn == s.g.turn && s'.g.event == s.g.event
    decreases |arrivals| - k
  {
    if k == |arrivals| then s else
      match arrivals[k]
      case Ack(success, okCount) =>
        if |s.w.conns[i].inflight| == 0 then FailedBooks(s, i)
        else ReadBooks(AckedBooks(s, i, success, okCount, k), i, arrivals, k + 1)
      case NoMoreBytes => s
      case ReadBroken => FailedBooks(s, i)
  }

  /** The request written whole waits, with a new deadline. */
  function SentBooks(cfg: Config, s: Books, i: nat): (s': Books)
    requires i < |s.w.conns| && s.w.conns[i].writing.Some?
    ensures |s'.w.conns| == |s.w.conns| && s'.w.local == s.w.local
    ensures SameReplies(s.g, s'.g)
  {
    var c := s.w.conns[i];
    Books(s.w.(ticks := s.w.ticks + 1, conns := s.w.conns[i := SentOff(c, cfg.Latest(s.w.ticks + 1))]),
          s.g.(written := Longer(s.g.written, i, c.writing.value.token)))
  }

  /** The writes from number `k` on, each of a request primed just before. */
  function WrittenBooks(cfg: Config, s: Books, i: nat, writes: seq<Write>, k: nat): (s': Books)
    requires i < |s.w.conns| && k <= |writes|
    ensures |s'.w.conns| == |s.w.conns| && s'.w.local == s.w.local
    ensures SameReplies(s.g, s'.g)
    decreases |writes| - k
  {
    var p := s.(w := PrimedWorker(cfg, s.w, i));
    if p.w.conns[i].writing.None? || k == |writes| then p else
      match writes[k]
      case WholeRequest => WrittenBooks(cfg, SentBooks(cfg, p, i), i, writes, k + 1)
      case PartOfIt => p
      case WouldBlock => p
      case WriteBroken => FailedBooks(p, i)
  }

  /** What the poller reports of a connection: what its reads and its writes will yield. */
  datatype Event = Event(conn: nat, readable: Option<seq<Read>>, writable: Option<seq<Write>>)

  /** Acknowledgements are read if some are waited for. */
  function ReadEvent(s: Books, ev: Event): (s': Books)
    requires ev.conn < |s.w.conns|
    ensures |s'.w.conns| == |s.w.conns| && s'.g.turn == s.g.turn && s'.g.event == s.g.event
  {
    if ev.readable.Some? && |s.w.conns[ev.conn].inflight| > 0 then ReadBooks(s, ev.conn, ev.readable.value, 0) else s
  }

  /** One event: reads, then writes. */
  function EventBooks(cfg: Config, s: Books, ev: Event): (s': Books)
    ensures |s'.w.conns| == |s.w.conns| && s'.g.turn == s.g.turn && s'.g.event == s.g.event
  {
    if ev.conn >= |s.w.conns| then s
    else if ev.writable.Some? then WrittenBooks(cfg, ReadEvent(s, ev), ev.conn, ev.writable.value, 0)
    else ReadEvent(s, ev)
  }

  function EventsBooks(cfg: Config, s: Books, events: seq<Event>, k: nat): Books
    requires k <= |events|
    decreases |events| - k
  {
    if k == |events| then s else EventsBooks(cfg, EventBooks(cfg, s.AtEvent(k), events[k]), events, k + 1)
  }

  /** What the environment does in one turn of the loop. */
  datatype Round = Round(pacingDone: bool, arrived: seq<Token>, events: seq<Event>)

  function Arrivals(round: Round): seq<Token> { if round.pacingDone then [] else round.arrived }

  function PoppedIn(rounds: seq<Round>, n: nat): seq<Token>
    requires n <= |rounds|
  {
    if n == 0 then [] else PoppedIn(rounds, n - 1) + Arrivals(rounds[n - 1])
  }

  /** How long the loop waits for the last requests once pacing is over, beyond their timeout. */
  const DRAIN_GRACE: nat := 100

  /** Arrivals and hand-over. */
  function AssignedTurn(cfg: Config, s: Books, round: Round): Books {
    var p := if round.pacingDone then s else PoppedBooks(s, round.arrived);
    p.(w := AssignedWorker(cfg, p.w))
  }

  /** A turn of the loop before its exit checks: the clock is read once more for the sweep. */
  function SweptTurn(cfg: Config, s: Books, round: Round): Books {
    var a := AssignedTurn(cfg, s, round);
    SweptBooks(a.(w := a.w.(ticks := a.w.ticks + 1)), cfg.clock(a.w.ticks + 1), 0)
  }

  /** The rest of a turn once pacing is over: whether the drain has lasted long enough takes two readings
      of the clock. */
  function LateTurn(cfg: Config, t: Books, drain: Option<int>, events: seq<Event>): (Books, Option<int>, bool) {
    var start := if drain.Some? then drain.value else cfg.clock(t.w.ticks + 1);
    var d := t.(w := t.w.(ticks := t.w.ticks + 2));
    if cfg.clock(t.w.ticks + 2) - start >= cfg.timeout + DRAIN_GRACE then (DrainedBooks(d), Some(start), true)
    else (EventsBooks(cfg, d, events, 0), Some(start), false)
  }

  /** A whole turn: the books, when draining started, and whether the loop ends. */
  function WholeTurn(cfg: Config, s: Books, drain: Option<int>, round: Round): (Books, Option<int>, bool) {
    var t := SweptTurn(cfg, s, round);
    if !round.pacingDone then (EventsBooks(cfg, t, round.events, 0), None, false)
    else if Settled(t.w) then (t, drain, true)
    else LateTurn(cfg, t, drain, round.events)
  }

  /** Where the loop goes from turn `k` on: the books, whether the loop ended by itself, and after how many turns. */
  function RunFrom(cfg: Config, s: Books, drain: Option<int>, rounds: seq<Round>, k: nat): (r: (Books, bool, nat))
    requires k <= |rounds|
    ensures k <= r.2 <= |rounds| && (!r.1 ==> r.2 == |rounds|)
    decreases |rounds| - k
  {
    if k == |rounds| then (s, false, k) else
      var (s', drain', ended) := WholeTurn(cfg, s.AtTurn(k), drain, rounds[k]);
      if ended then (s', true, k + 1) else RunFrom(cfg, s', drain', rounds, k + 1)
  }

  /** Everything popped has been finished. */
  predicate Settled(w: Worker) { w.local == [] && forall i | 0 <= i < |w.conns| :: w.conns[i] == IDLE }

  function Initial(nConns: nat, workerId: nat): Books {
    Books(Worker([], seq(nConns, _ => IDLE), workerId % AtLeastOne(nConns), 0, 0, 0, 0, 0),
          Log([], [], seq(nConns, _ => []), seq(nConns, _ => []), [], 0, 0))
  }

  // ---------------------------------------------------------------- the steps, as the worker takes them

  method Start(nConns: nat, workerId: nat) returns (w: Worker, ghost g: Log)
    ensures Books(w, g) == Initial(nConns, workerId)
  {
    w := Worker([], seq(nConns, _ => IDLE), workerId % AtLeastOne(nConns), 0, 0, 0, 0, 0);
    g := Log([], [], seq(nConns, _ => []), seq(nConns, _ => []), [], 0, 0);
  }

  /** Starts writing the connection's first pending request, unless it is writing already. */
  method Prime(cfg: Config, w: Worker, i: nat) returns (w': Worker)
    requires i < |w.conns|
    ensures w' == PrimedWorker(cfg, w, i)
  {
    w' := w;
    if w.conns[i].writing.None? && |w.conns[i].pending| > 0 {
      var ticks := w.ticks + 1;
      var deadline := cfg.clock(ticks) + cfg.timeout;
      w' := w.(ticks := ticks, conns := w.conns[i := Primed(w.conns[i], deadline, cfg.batchRecords)]);
    }
  }

  /** The first connection, from the next in turn, that has room. */
  method PickConn(cfg: Config, w: Worker) returns (r: Option<nat>)
    ensures r == FirstRoom(w.conns, w.nextRr, cfg.cap, 0)
  {
    for step := 0 to |w.conns|
      invariant FirstRoom(w.conns, w.nextRr, cfg.cap, 0) == FirstRoom(w.conns, w.nextRr, cfg.cap, step)
    {
      var idx := Turn(w.nextRr, step, |w.conns|);
      if w.conns[idx].Load() < cfg.cap {
        return Some(idx);
      }
    }
    return None;
  }

  /** Appends the first local token to the connection's pending queue and primes it. */
  method HandFirst(cfg: Config, w: Worker, i: nat) returns (w': Worker)
    requires i < |w.conns| && |w.local| > 0
    ensures w' == HandedWorker(cfg, w, i)
  {
    var c := w.conns[i].(pending := w.conns[i].pending + [w.local[0]]);
    w' := w.(local := w.local[1..], conns := w.conns[i := c], nextRr := (i + 1) % |w.conns|);
    w' := Prime(cfg, w', i);
  }

  /** Hands local tokens over, in order, until none is left or every connection is full. */
  method Assign(cfg: Config, w: Worker) returns (w': Worker)
    ensures w' == AssignedWorker(cfg, w)
  {
    w' := w;
    while |w'.local| > 0
      invariant AssignedWorker(cfg, w') == AssignedWorker(cfg, w)
      decreases |w'.local|
    {
      var sel := PickConn(cfg, w');
      if sel.None? {
        return;
      }
      w' := HandFirst(cfg, w', sel.value);
    }
  }

  /** Drops the requests the connection has not started to write. */
  method DropPending(w: Worker, i: nat, ghost g: Log) returns (w': Worker, ghost g': Log)
    requires i < |w.conns|
    ensures Books(w', g') == DroppedBooks(Books(w, g), i)
  {
    var rows := SumDropped(w.conns[i].pending);
    w' := w.(conns := w.conns[i := w.conns[i].(pending := [])], dropped := w.dropped + rows);
    g' := g.(finished := g.finished + Finished(w.conns[i].pending, Dropped));
  }

  /** Times out the request being written and those waiting; the histories of the connection end. */
  method TimeOutActives(w: Worker, i: nat, ghost g: Log) returns (w': Worker, ghost g': Log)
    requires i < |w.conns|
    ensures Books(w', g') == TimedOutBooks(Books(w, g), i)
  {
    var rows := SumTimedOut(AbandonOrder(w.conns[i]));
    var c := w.conns[i].(writing := None, inflight := []);
    w' := w.(conns := w.conns[i := c], timeouts := w.timeouts + rows);
    g' := g.(finished := g.finished + Finished(Abandoned(w.conns[i]), TimedOut),
             written := Cleared(g.written, i), acked := Cleared(g.acked, i));
  }

  /** Gives a connection up. */
  method FailConn(w: Worker, i: nat, ghost g: Log) returns (w': Worker, ghost g': Log)
    requires i < |w.conns|
    ensures Books(w', g') == FailedBooks(Books(w, g), i)
  {
    w', g' := DropPending(w, i, g);
    w', g' := TimeOutActives(w', i, g');
  }

  /** Fails every connection whose oldest deadline has passed. */
  method Sweep(w: Worker, now: int, ghost g: Log) returns (w': Worker, ghost g': Log)
    ensures Books(w', g') == SweptBooks(Books(w, g), now, 0)
  {
    w', g' := w, g;
    for i := 0 to |w.conns|
      invariant |w'.conns| == |w.conns|
      invariant SweptBooks(Books(w', g'), now, i) == SweptBooks(Books(w, g), now, 0)
    {
      var oldest := w'.conns[i].OldestDeadline();
      if oldest.Some? && now >= oldest.value {
        w', g' := FailConn(w', i, g');
      }
    }
  }

  /** Drops the tokens no connection has taken. */
  method DropLocal(w: Worker, ghost g: Log) returns (w': Worker, ghost g': Log)
    ensures Books(w', g') == DroppedLocal(Books(w, g))
  {
    var rows := SumDropped(w.local);
    w' := w.(local := [], dropped := w.dropped + rows);
    g' := g.(finished := g.finished + Finished(w.local, Dropped));
  }

  /** Drops what no connection has started to write. */
  method DropAll(w: Worker, ghost g: Log) returns (w': Worker, ghost g': Log)
    ensures Books(w', g') == DroppedFrom(Books(w, g), 0)
  {
    w', g' := w, g;
    for i := 0 to |w.conns|
      invariant |w'.conns| == |w.conns|
      invariant DroppedFrom(Books(w', g'), i) == DroppedFrom(Books(w, g), 0)
    {
      w', g' := DropPending(w', i, g');
    }
  }

  /** Times out what every connection has started to write or waits for. */
  method TimeOutAll(w: Worker, ghost g: Log) returns (w': Worker, ghost g': Log)
    ensures Books(w', g') == TimedOutFrom(Books(w, g), 0)
  {
    w', g' := w, g;
    for i := 0 to |w.conns|
      invariant |w'.conns| == |w.conns|
      invariant TimedOutFrom(Books(w', g'), i) == TimedOutFrom(Books(w, g), 0)
    {
      w', g' := TimeOutActives(w', i, g');
    }
  }

  /** Gives up at the end of the run: whatever is left is dropped or timed out. */
  method Drain(w: Worker, ghost g: Log) returns (w': Worker, ghost g': Log)
    ensures Books(w', g') == DrainedBooks(Books(w, g))
  {
    w', g' := DropLocal(w, g);
    w', g' := DropAll(w', g');
    w', g' := TimeOutAll(w', g');
  }

  /** One acknowledgement finishes the oldest request waiting. */
  method Acknowledge(w: Worker, i: nat, success: bool, okCount: nat, ghost k: nat, ghost g: Log)
    returns (w': Worker, ghost g': Log)
    requires i < |w.conns| && |w.conns[i].inflight| > 0
    ensures Books(w', g') == AckedBooks(Books(w, g), i, success, okCount, k)
  {
    var active := w.conns[i].inflight[0];
    w' := w.(conns := w.conns[i := Answered(w.conns[i])]);
    if active.token.record {
      if success {
        w' := w'.(ok := w.ok + okCount);
      } else {
        w' := w'.(err := w.err + active.rows);
      }
    }
    g' := g.(finished := g.finished + Finished([active.token], Acked), acked := Longer(g.acked, i, active.token),
             replies := g.replies + [Reply(active.token, i, Place(g.turn, g.event, k), success, okCount)]);
  }

  /** Reads acknowledgements until none is left.  A broken read, or an acknowledgement nothing waits for,
      fails the connection. */
  method ReadAcks(w: Worker, i: nat, arrivals: seq<Read>, ghost g: Log) returns (w': Worker, ghost g': Log)
    requires i < |w.conns|
    ensures Books(w', g') == ReadBooks(Books(w, g), i, arrivals, 0)
  {
    w', g' := w, g;
    for k := 0 to |arrivals|
      invariant |w'.conns| == |w.conns|
      invariant ReadBooks(Books(w', g'), i, arrivals, k) == ReadBooks(Books(w, g), i, arrivals, 0)
    {
      match arrivals[k] {
        case Ack(success, okCount) =>
          if |w'.conns[i].inflight| == 0 {
            w', g' := FailConn(w', i, g');
            return;
          }
          w', g' := Acknowledge(w', i, success, okCount, k, g');
        case NoMoreBytes =>
          return;
        case ReadBroken =>
          w', g' := FailConn(w', i, g');
          return;
      }
    }
  }

  /** A whole request was written: it waits for its acknowledgement, with a new deadline. */
  method Sent(cfg: Config, w: Worker, i: nat, ghost g: Log) returns (w': Worker, ghost g': Log)
    requires i < |w.conns| && w.conns[i].writing.Some?
    ensures Books(w', g') == SentBooks(cfg, Books(w, g), i)
  {
    var ticks := w.ticks + 1;
    w' := w.(ticks := ticks, conns := w.conns[i := SentOff(w.conns[i], cfg.clock(ticks) + cfg.timeout)]);
    g' := g.(written := Longer(g.written, i, w.conns[i].writing.value.token));
  }

  /** Writes requests one after the other until the connection takes no more.  A broken write fails the
      connection. */
  method WriteOut(cfg: Config, w: Worker, i: nat, writes: seq<Write>, ghost g: Log) returns (w': Worker, ghost g': Log)
    requires i < |w.conns|
    ensures Books(w', g') == WrittenBooks(cfg, Books(w, g), i, writes, 0)
  {
    w', g' := w, g;
    for k := 0 to |writes|
      invariant |w'.conns| == |w.conns|
      invariant WrittenBooks(cfg, Books(w', g'), i, writes, k) == WrittenBooks(cfg, Books(w, g), i, writes, 0)
    {
      w' := Prime(cfg, w', i);
      if w'.conns[i].writing.None? {
        return;
      }
      match writes[k] {
        case WholeRequest =>
          w', g' := Sent(cfg, w', i, g');
        case PartOfIt =>
          return;
        case WouldBlock =>
          return;
        case WriteBroken =>
          w', g' := FailConn(w', i, g');
          return;
      }
    }
    w' := Prime(cfg, w', i);
  }

  /** What the poller reports of one connection; reports of unknown connections are passed over. */
  method HandleEvent(cfg: Config, w: Worker, ev: Event, ghost g: Log) returns (w': Worker, ghost g': Log)
    ensures Books(w', g') == EventBooks(cfg, Books(w, g), ev)
  {
    w', g' := w, g;
    if ev.conn >= |w.conns| {
      return;
    }
    if ev.readable.Some? && |w.conns[ev.conn].inflight| > 0 {
      w', g' := ReadAcks(w, ev.conn, ev.readable.value, g);
    }
    if ev.writable.Some? {
      w', g' := WriteOut(cfg, w', ev.conn, ev.writable.value, g');
    }
  }

  method HandleEvents(cfg: Config, w: Worker, events: seq<Event>, ghost g: Log) returns (w': Worker, ghost g': Log)
    ensures Books(w', g') == EventsBooks(cfg, Books(w, g), events, 0)
  {
    w', g' := w, g;
    for k := 0 to |events|
      invariant EventsBooks(cfg, Books(w', g'), events, k) == EventsBooks(cfg, Books(w, g), events, 0)
    {
      w', g' := HandleEvent(cfg, w', events[k], g'.(event := k));
    }
  }

  method IsIdle(w: Worker) returns (idle: bool)
    ensures idle == Settled(w)
  {
    if w.local != [] {
      return false;
    }
    for i := 0 to |w.conns|
      invariant forall j | 0 <= j < i :: w.conns[j] == IDLE
    {
      if w.conns[i].writing.Some? || w.conns[i].inflight != [] || w.conns[i].pending != [] {
        return false;
      }
    }
    return true;
  }

  /** A turn of the loop up to its exit checks. */
  method TakeTurn(cfg: Config, w: Worker, round: Round, ghost g: Log) returns (w': Worker, ghost g': Log)
    ensures Books(w', g') == SweptTurn(cfg, Books(w, g), round)
  {
    w', g' := w, g;
    if !round.pacingDone {
      w', g' := w.(local := w.local + round.arrived), g.(popped := g.popped + round.arrived);
    }
    w' := Assign(cfg, w');
    w' := w'.(ticks := w'.ticks + 1);
    w', g' := Sweep(w', cfg.clock(w'.ticks), g');
  }

  /** A turn of the loop, with its two ways out. */
  method OneTurn(cfg: Config, w: Worker, drain: Option<int>, round: Round, ghost g: Log)
    returns (w': Worker, drain': Option<int>, ended: bool, ghost g': Log)
    ensures (Books(w', g'), drain', ended) == WholeTurn(cfg, Books(w, g), drain, round)
  {
    w', g' := TakeTurn(cfg, w, round, g);
    drain' := None;
    if round.pacingDone {
      var idle := IsIdle(w');
      if idle {
        return w', drain, true, g';
      }
      drain' := if drain.Some? then drain else Some(cfg.clock(w'.ticks + 1));
      w' := w'.(ticks := w'.ticks + 2);
      if cfg.clock(w'.ticks) - drain'.value >= cfg.timeout + DRAIN_GRACE {
        w', g' := Drain(w', g');
        return w', drain', true, g';
      }
    }
    w', g' := HandleEvents(cfg, w', round.events, g');
    ended := false;
  }

  /** The worker loop over any environment: it goes where its turns lead, keeps the invariant, and ends by itself
      only when everything popped has been finished. */
  method RunWorker(cfg: Config, nConns: nat, workerId: nat, rounds: seq<Round>)
    returns (w: Worker, exited: bool, turns: nat, ghost g: Log)
    ensures (Books(w, g), exited, turns) == RunFrom(cfg, Initial(nConns, workerId), None, rounds, 0)
    ensures cfg.cap >= 1 && Monotone(cfg.clock) ==>
              Sound(cfg, Books(w, g)) && g.popped == PoppedIn(rounds, turns) && (exited ==> Settled(w))
    ensures cfg.cap >= 1 && Monotone(cfg.clock) ==>
              w.ok == OkRows(g.replies) && w.err == ErrRows(g.replies, cfg.batchRecords)
    ensures AllCame(rounds, g.replies, Place(turns, 0, 0))
  {
    RunCame(cfg, nConns, workerId, rounds);
    if cfg.cap >= 1 && Monotone(cfg.clock) {
      RunSound(cfg, nConns, workerId, rounds);
    }
    w, g := Start(nConns, workerId);
    var drainStarted: Option<int> := None;
    turns, exited := 0, false;
    while turns < |rounds|
      invariant turns <= |rounds| && !exited
      invariant RunFrom(cfg, Books(w, g), drainStarted, rounds, turns) ==
                RunFrom(cfg, Initial(nConns, workerId), None, rounds, 0)
    {
      w, drainStarted, exited, g := OneTurn(cfg, w, drainStarted, rounds[turns], g.(turn := turns));
      turns := turns + 1;
      if exited {
        return;
      }
    }
  }

  // ---------------------------------------------------------------- the invariant

  /** The invariant of the loop. */
  ghost predicate Sound(cfg: Config, s: Books) {
    var w, g := s.w, s.g;
    && cfg.cap >= 1 && Monotone(cfg.clock) && (|w.conns| > 0 ==> w.nextRr < |w.conns|)
    && AllKept(g.popped, w.local, w.conns, g.finished)
    && AllOk(w.conns, g.written, g.acked, cfg.cap, cfg.batchRecords, cfg.Latest(w.ticks))
    && w.timeouts == FateRows(g.finished, TimedOut, cfg.batchRecords)
    && w.dropped == FateRows(g.finished, Dropped, cfg.batchRecords)
    && AckedTokens(g.finished) == RepliedTokens(g.replies)
    && w.ok == OkRows(g.replies) && w.err == ErrRows(g.replies, cfg.batchRecords)
  }

  /** One connection changed, and these tokens were finished one way and counted there, acknowledged ones by
      these replies. */
  ghost predicate OneStep(cfg: Config, s: Books, s': Books, i: nat, tokens: seq<Token>, fate: Fate,
                          replies: seq<Reply>)
  {
    var w, g, w', g' := s.w, s.g, s'.w, s'.g;
    var rows := FateRows(Finished(tokens, fate), fate, cfg.batchRecords);
    && i < |w.conns| == |w'.conns| && |g.written| == |g.acked| == |g'.written| == |g'.acked| == |w.conns|
    && w'.local == w.local && w'.nextRr == w.nextRr && w.ticks <= w'.ticks
    && g'.popped == g.popped && g'.finished == g.finished + Finished(tokens, fate)
    && w'.conns == w.conns[i := w'.conns[i]]
    && g'.written == g.written[i := g'.written[i]] && g'.acked == g.acked[i := g'.acked[i]]
    && w'.timeouts == w.timeouts + (if fate.TimedOut? then rows else 0)
    && w'.dropped == w.dropped + (if fate.Dropped? then rows else 0)
    && g'.replies == g.replies + replies && RepliedTokens(replies) == (if fate.Acked? then tokens else [])
    && w'.ok == w.ok + OkRows(replies) && w'.err == w.err + ErrRows(replies, cfg.batchRecords)
  }

  /** Every such step keeps the invariant. */
  lemma StepSound(cfg: Config, s: Books, s': Books, i: nat, tokens: seq<Token>, fate: Fate, replies: seq<Reply>)
    requires Sound(cfg, s) && OneStep(cfg, s, s', i, tokens, fate, replies)
    requires ConnOk(s'.w.conns[i], s'.g.written[i], s'.g.acked[i], cfg.cap, cfg.batchRecords, cfg.Latest(s'.w.ticks))
    requires Splits(s.w.conns[i].Line(), s'.w.conns[i].Line(), tokens)
    ensures Sound(cfg, s')
  {
    var w, g, w', g' := s.w, s.g, s'.w, s'.g;
    OneChanged(w.conns, g.written, g.acked, cfg.cap, cfg.batchRecords, cfg.Latest(w.ticks),
               i, w'.conns[i], g'.written[i], g'.acked[i], cfg.Latest(w'.ticks));
    EndTokens(g.popped, w.local, w.conns, g.finished, i, w'.conns[i], tokens, fate);
    CountsAfter(g.finished, tokens, fate, cfg.batchRecords);
    AckedJoin(g.finished, tokens, fate);
    RepliesJoin(g.replies, replies, cfg.batchRecords);
  }

  lemma ConnSound(cfg: Config, s: Books, i: nat, later: nat)
    requires Sound(cfg, s) && i < |s.w.conns| && s.w.ticks <= later
    ensures ConnOk(s.w.conns[i], s.g.written[i], s.g.acked[i], cfg.cap, cfg.batchRecords, cfg.Latest(later))
  {
    assert OkAt(s.w.conns, s.g.written, s.g.acked, cfg.cap, cfg.batchRecords, cfg.Latest(s.w.ticks), i);
  }

  /** Reading the clock changes nothing else. */
  lemma TickSound(cfg: Config, s: Books, more: nat)
    requires Sound(cfg, s)
    ensures Sound(cfg, s.(w := s.w.(ticks := s.w.ticks + more)))
  {
    var now, later := cfg.Latest(s.w.ticks), cfg.Latest(s.w.ticks + more);
    TimePasses(s.w.conns, s.g.written, s.g.acked, cfg.cap, cfg.batchRecords, now, later);
  }

  lemma InitialSound(cfg: Config, nConns: nat, workerId: nat)
    requires cfg.cap >= 1 && Monotone(cfg.clock)
    ensures Sound(cfg, Initial(nConns, workerId))
  {
    StartsOk(nConns, cfg.cap, cfg.batchRecords, cfg.Latest(0));
  }

  lemma PoppedSound(cfg: Config, s: Books, tokens: seq<Token>)
    requires Sound(cfg, s)
    ensures Sound(cfg, PoppedBooks(s, tokens))
  {
    Arrive(s.g.popped, s.w.local, s.w.conns, s.g.finished, tokens);
  }

  // ---------------------------------------------------------------- handing over

  /** Starting to write a request changes nobody's place in the line. */
  lemma PrimedSound(cfg: Config, s: Books, i: nat)
    requires Sound(cfg, s) && i < |s.w.conns|
    ensures Sound(cfg, s.(w := PrimedWorker(cfg, s.w, i)))
    ensures PrimedWorker(cfg, s.w, i).conns == s.w.conns[i := PrimedWorker(cfg, s.w, i).conns[i]]
    ensures PrimedWorker(cfg, s.w, i).conns[i].Line() == s.w.conns[i].Line()
    ensures PrimedWorker(cfg, s.w, i).conns[i].inflight == s.w.conns[i].inflight
    ensures PrimedWorker(cfg, s.w, i).conns[i].writing.None? ==> PrimedWorker(cfg, s.w, i).conns[i].pending == []
    ensures s.w.conns[i].writing.None? && |s.w.conns[i].pending| > 0 ==>
              var first := s.w.conns[i].pending[0];
              PrimedWorker(cfg, s.w, i).conns[i].writing ==
              Some(Active(first, SentRows(first.rows, cfg.batchRecords), cfg.clock(s.w.ticks + 1) + cfg.timeout))
  {
    var w, s', c := s.w, s.(w := PrimedWorker(cfg, s.w, i)), s.w.conns[i];
    if s' == s {
      assert w.conns[i := c] == w.conns;
    } else {
      var latest := cfg.Latest(w.ticks + 1);
      ConnSound(cfg, s, i, w.ticks + 1);
      PrimedOk(c, s.g.written[i], s.g.acked[i], cfg.cap, cfg.batchRecords, latest, latest);
      NothingSplits(c.Line());
      NothingFinished(s.g, i);
      StepSound(cfg, s, s', i, [], Dropped, []);
    }
  }

  lemma NothingFinished(g: Log, i: nat)
    requires i < |g.written| == |g.acked|
    ensures g.finished + Finished([], Dropped) == g.finished
    ensures g.written[i := g.written[i]] == g.written && g.acked[i := g.acked[i]] == g.acked
  {}

  /** The first local token joins the end of a connection's line. */
  lemma HandedSound(cfg: Config, s: Books, i: nat)
    requires Sound(cfg, s) && i < |s.w.conns| && s.w.conns[i].Load() < cfg.cap && |s.w.local| > 0
    ensures Sound(cfg, s.(w := HandedWorker(cfg, s.w, i)))
    ensures HandedWorker(cfg, s.w, i).conns == s.w.conns[i := HandedWorker(cfg, s.w, i).conns[i]]
    ensures HandedWorker(cfg, s.w, i).conns[i].Line() == s.w.conns[i].Line() + [s.w.local[0]]
  {
    var w := s.w;
    var c := w.conns[i].(pending := w.conns[i].pending + [w.local[0]]);
    ConnSound(cfg, s, i, w.ticks);
    assert c.Line() == w.conns[i].Line() + [w.local[0]];
    ConnChanged(w.conns, s.g.written, s.g.acked, cfg.cap, cfg.batchRecords, cfg.Latest(w.ticks), i, c);
    HandOver(s.g.popped, w.local, w.conns, s.g.finished, i, c);
    var t := s.(w := w.(local := w.local[1..], conns := w.conns[i := c], nextRr := (i + 1) % |w.conns|));
    PrimedSound(cfg, t, i);
  }

  /** When no connection is found, every one is at its cap. */
  lemma NoRoomLeft(cfg: Config, s: Books)
    requires Sound(cfg, s) && FirstRoom(s.w.conns, s.w.nextRr, cfg.cap, 0) == None
    ensures Full(cfg, s.w)
  {
    var w := s.w;
    forall i: nat | i < |w.conns| ensures w.conns[i].Load() == cfg.cap {
      var k := EveryTurnComes(w.nextRr, i, |w.conns|);
      NoRoomAt(w.conns, w.nextRr, cfg.cap, 0, k);
      ConnSound(cfg, s, i, w.ticks);
    }
  }

  /** The connection found is the first with room, asking from the next in turn, round and round. */
  lemma {:induction false} FirstRoomIsFirst(conns: seq<Conn>, nextRr: nat, cap: nat, step: nat) returns (k: nat)
    requires step <= |conns| && FirstRoom(conns, nextRr, cap, step).Some?
    ensures step <= k < |conns| && FirstRoom(conns, nextRr, cap, step) == Some((nextRr + k) % |conns|)
    ensures conns[(nextRr + k) % |conns|].Load() < cap
    ensures forall j | step <= j < k :: conns[Turn(nextRr, j, |conns|)].Load() >= cap
    decreases |conns| - step
  {
    if conns[Turn(nextRr, step, |conns|)].Load() < cap {
      k := step;
    } else {
      k := FirstRoomIsFirst(conns, nextRr, cap, step + 1);
    }
  }

  ghost predicate Full(cfg: Config, w: Worker) { forall i: nat | i < |w.conns| :: w.conns[i].Load() == cfg.cap }

  lemma {:induction false} NoRoomAt(conns: seq<Conn>, nextRr: nat, cap: nat, step: nat, k: nat)
    requires step <= k < |conns| && FirstRoom(conns, nextRr, cap, step) == None
    ensures conns[Turn(nextRr, k, |conns|)].Load() >= cap
    decreases |conns| - step
  {
    if step < k { NoRoomAt(conns, nextRr, cap, step + 1, k); }
  }

  /** Local tokens leave in order, until none is left or every connection is full. */
  lemma {:induction false} AssignedSound(cfg: Config, s: Books)
    requires Sound(cfg, s)
    ensures Sound(cfg, s.(w := AssignedWorker(cfg, s.w)))
    ensures AssignedWorker(cfg, s.w).local == [] || Full(cfg, AssignedWorker(cfg, s.w))
    ensures exists k: nat :: k <= |s.w.local| && AssignedWorker(cfg, s.w).local == s.w.local[k..]
    decreases |s.w.local|
  {
    var room := FirstRoom(s.w.conns, s.w.nextRr, cfg.cap, 0);
    if |s.w.local| == 0 || room.None? {
      if room.None? { NoRoomLeft(cfg, s); }
      assert AssignedWorker(cfg, s.w).local == s.w.local[0..];
    } else {
      var h := s.(w := HandedWorker(cfg, s.w, room.value));
      HandedSound(cfg, s, room.value);
      AssignedSound(cfg, h);
      var k: nat :| k <= |h.w.local| && AssignedWorker(cfg, h.w).local == h.w.local[k..];
      assert s.w.local[1..][k..] == s.w.local[k + 1..];
    }
  }

  // ---------------------------------------------------------------- giving up

  lemma DroppedSound(cfg: Config, s: Books, i: nat)
    requires Sound(cfg, s) && i < |s.w.conns|
    ensures Sound(cfg, DroppedBooks(s, i))
  {
    var c := s.w.conns[i];
    ConnSound(cfg, s, i, s.w.ticks);
    PendingSplits(c);
    DroppedAreRows(c.pending, cfg.batchRecords);
    NothingFinished(s.g, i);
    StepSound(cfg, s, DroppedBooks(s, i), i, c.pending, Dropped, []);
  }

  lemma TimedOutSound(cfg: Config, s: Books, i: nat)
    requires Sound(cfg, s) && i < |s.w.conns|
    ensures Sound(cfg, TimedOutBooks(s, i))
  {
    var c := s.w.conns[i];
    ConnSound(cfg, s, i, s.w.ticks);
    AbandonedCarry(c, cfg.batchRecords);
    TimedOutAreRows(AbandonOrder(c), cfg.batchRecords);
    ActivesSplit(c);
    StepSound(cfg, s, TimedOutBooks(s, i), i, Abandoned(c), TimedOut, []);
  }

  /** Nothing on a failed connection survives, and each request of it is finished once. */
  lemma FailedSound(cfg: Config, s: Books, i: nat)
    requires Sound(cfg, s) && i < |s.w.conns|
    ensures Sound(cfg, FailedBooks(s, i)) && FailedBooks(s, i).w.conns == s.w.conns[i := IDLE]
    ensures FailedBooks(s, i).g.finished ==
            s.g.finished + Finished(s.w.conns[i].pending, Dropped) + Finished(Abandoned(s.w.conns[i]), TimedOut)
    ensures FailedBooks(s, i).g.written[i] == [] == FailedBooks(s, i).g.acked[i]
  {
    DroppedSound(cfg, s, i);
    TimedOutSound(cfg, DroppedBooks(s, i), i);
  }

  lemma {:induction false} SweptConn(s: Books, now: int, i: nat, j: nat)
    requires i <= |s.w.conns| && j < |s.w.conns|
    ensures SweptBooks(s, now, i).w.conns[j] ==
            if i <= j && Overdue(s.w.conns[j], now) then IDLE else s.w.conns[j]
    decreases |s.w.conns| - i
  {
    if i < |s.w.conns| { SweptConn(if Overdue(s.w.conns[i], now) then FailedBooks(s, i) else s, now, i + 1, j); }
  }

  /** A connection whose oldest request is not overdue has no request that is. */
  lemma OldestNotOverdue(cfg: Config, s: Books, i: nat, now: int)
    requires Sound(cfg, s) && i < |s.w.conns| && !Overdue(s.w.conns[i], now)
    ensures NoneOverdue(s.w.conns[i], now)
  {
    ConnSound(cfg, s, i, s.w.ticks);
    OldestIsLeast(s.w.conns[i], s.g.written[i], s.g.acked[i], cfg.cap, cfg.batchRecords, cfg.Latest(s.w.ticks));
  }

  lemma {:induction false} SweptSound(cfg: Config, s: Books, now: int, i: nat)
    requires Sound(cfg, s) && i <= |s.w.conns|
    ensures Sound(cfg, SweptBooks(s, now, i)) && SweptBooks(s, now, i).g.popped == s.g.popped
    decreases |s.w.conns| - i
  {
    if i == |s.w.conns| {
    } else {
      if Overdue(s.w.conns[i], now) { FailedSound(cfg, s, i); }
      SweptSound(cfg, if Overdue(s.w.conns[i], now) then FailedBooks(s, i) else s, now, i + 1);
    }
  }

  /** After a sweep no request is overdue. */
  lemma NoneOverdueLeft(cfg: Config, s: Books, now: int, i: nat)
    requires Sound(cfg, s) && i < |s.w.conns|
    ensures NoneOverdue(SweptBooks(s, now, 0).w.conns[i], now)
  {
    SweptConn(s, now, 0, i);
    if !Overdue(s.w.conns[i], now) { OldestNotOverdue(cfg, s, i, now); }
  }

  lemma DroppedLocalSound(cfg: Config, s: Books)
    requires Sound(cfg, s)
    ensures Sound(cfg, DroppedLocal(s))
  {
    EndLocal(s.g.popped, s.w.local, s.w.conns, s.g.finished);
    CountsAfter(s.g.finished, s.w.local, Dropped, cfg.batchRecords);
    AckedJoin(s.g.finished, s.w.local, Dropped);
    DroppedAreRows(s.w.local, cfg.batchRecords);
  }

  lemma {:induction false} DroppedFromSound(cfg: Config, s: Books, i: nat)
    requires Sound(cfg, s) && i <= |s.w.conns| && forall j | 0 <= j < i :: s.w.conns[j].pending == []
    ensures Sound(cfg, DroppedFrom(s, i))
    ensures DroppedFrom(s, i).w.local == s.w.local && DroppedFrom(s, i).g.popped == s.g.popped
    ensures forall j | 0 <= j < |s.w.conns| :: DroppedFrom(s, i).w.conns[j].pending == []
    decreases |s.w.conns| - i
  {
    if i == |s.w.conns| {
    } else {
      DroppedSound(cfg, s, i);
      DroppedFromSound(cfg, DroppedBooks(s, i), i + 1);
    }
  }

  lemma {:induction false} TimedOutFromSound(cfg: Config, s: Books, i: nat)
    requires Sound(cfg, s) && i <= |s.w.conns| && forall j | 0 <= j < i :: s.w.conns[j] == IDLE
    requires forall j | 0 <= j < |s.w.conns| :: s.w.conns[j].pending == []
    ensures Sound(cfg, TimedOutFrom(s, i))
    ensures TimedOutFrom(s, i).w.local == s.w.local && TimedOutFrom(s, i).g.popped == s.g.popped
    ensures forall j | 0 <= j < |s.w.conns| :: TimedOutFrom(s, i).w.conns[j] == IDLE
    decreases |s.w.conns| - i
  {
    if i == |s.w.conns| {
    } else {
      TimedOutSound(cfg, s, i);
      TimedOutFromSound(cfg, TimedOutBooks(s, i), i + 1);
    }
  }

  /** At the end of the drain everything has been finished. */
  lemma DrainedSound(cfg: Config, s: Books)
    requires Sound(cfg, s)
    ensures Sound(cfg, DrainedBooks(s)) && Settled(DrainedBooks(s).w) && DrainedBooks(s).g.popped == s.g.popped
  {
    DroppedLocalSound(cfg, s);
    DroppedFromSound(cfg, DroppedLocal(s), 0);
    TimedOutFromSound(cfg, DroppedFrom(DroppedLocal(s), 0), 0);
  }

  /** What connections have not started to write, one after the other. */
  function AllPending(conns: seq<Conn>): seq<Token> {
    if |conns| == 0 then [] else conns[0].pending + AllPending(conns[1..])
  }

  /** What they have started, in the order it is timed out. */
  function AllAbandoned(conns: seq<Conn>): seq<Token> {
    if |conns| == 0 then [] else Abandoned(conns[0]) + AllAbandoned(conns[1..])
  }

  lemma FinishedJoin(a: seq<Token>, b: seq<Token>, fate: Fate)
    ensures Finished(a + b, fate) == Finished(a, fate) + Finished(b, fate)
  {}

  lemma {:induction false} DroppedFromFinishes(s: Books, i: nat)
    requires i <= |s.w.conns|
    ensures DroppedFrom(s, i).g.finished == s.g.finished + Finished(AllPending(s.w.conns[i..]), Dropped)
    ensures AllAbandoned(DroppedFrom(s, i).w.conns[i..]) == AllAbandoned(s.w.conns[i..])
    ensures DroppedFrom(s, i).w.conns[..i] == s.w.conns[..i]
    decreases |s.w.conns| - i
  {
    var conns, t := s.w.conns, DroppedFrom(s, i);
    if i < |conns| {
      var d := DroppedBooks(s, i);
      DroppedFromFinishes(d, i + 1);
      assert d.w.conns[i + 1..] == conns[i + 1..] == conns[i..][1..];
      assert t.w.conns[i..][0] == t.w.conns[..i + 1][i] == d.w.conns[i] && t.w.conns[i..][1..] == t.w.conns[i + 1..];
      assert t.w.conns[..i] == t.w.conns[..i + 1][..i];
      FinishedJoin(conns[i].pending, AllPending(conns[i + 1..]), Dropped);
    }
  }

  lemma {:induction false} TimedOutFromFinishes(s: Books, i: nat)
    requires i <= |s.w.conns|
    ensures TimedOutFrom(s, i).g.finished == s.g.finished + Finished(AllAbandoned(s.w.conns[i..]), TimedOut)
    decreases |s.w.conns| - i
  {
    var conns := s.w.conns;
    if i < |conns| {
      TimedOutFromFinishes(TimedOutBooks(s, i), i + 1);
      assert TimedOutBooks(s, i).w.conns[i + 1..] == conns[i + 1..] == conns[i..][1..];
      FinishedJoin(Abandoned(conns[i]), AllAbandoned(conns[i + 1..]), TimedOut);
    }
  }

  /** The drain drops the local tokens, then what the connections have not started to write, then times out what they
      have. */
  lemma DrainFinishes(s: Books)
    ensures DrainedBooks(s).g.finished ==
            s.g.finished + Finished(s.w.local, Dropped) + Finished(AllPending(s.w.conns), Dropped)
            + Finished(AllAbandoned(s.w.conns), TimedOut)
  {
    var d := DroppedLocal(s);
    DroppedFromFinishes(d, 0);
    TimedOutFromFinishes(DroppedFrom(d, 0), 0);
    assert s.w.conns[0..] == s.w.conns && DroppedFrom(d, 0).w.conns[0..] == DroppedFrom(d, 0).w.conns;
  }

  // ---------------------------------------------------------------- reading and writing

  lemma AckedSound(cfg: Config, s: Books, i: nat, success: bool, okCount: nat, k: nat)
    requires Sound(cfg, s) && i < |s.w.conns| && |s.w.conns[i].inflight| > 0
    ensures Sound(cfg, AckedBooks(s, i, success, okCount, k))
  {
    var c := s.w.conns[i];
    var a := c.inflight[0];
    ConnSound(cfg, s, i, s.w.ticks);
    assert a == c.Actives()[0];
    AnsweredOk(c, s.g.written[i], s.g.acked[i], cfg.cap, cfg.batchRecords, cfg.Latest(s.w.ticks));
    FrontSplits(c);
    NothingFinished(s.g, i);
    var reply := Reply(a.token, i, Place(s.g.turn, s.g.event, k), success, okCount);
    OneReply(reply, cfg.batchRecords);
    StepSound(cfg, s, AckedBooks(s, i, success, okCount, k), i, [a.token], Acked, [reply]);
  }

  lemma {:induction false} ReadSound(cfg: Config, s: Books, i: nat, arrivals: seq<Read>, k: nat)
    requires Sound(cfg, s) && i < |s.w.conns| && k <= |arrivals|
    ensures Sound(cfg, ReadBooks(s, i, arrivals, k)) && ReadBooks(s, i, arrivals, k).g.popped == s.g.popped
    decreases |arrivals| - k
  {
    if k == |arrivals| {
    } else {
      match arrivals[k]
      case Ack(success, okCount) =>
        if |s.w.conns[i].inflight| == 0 {
          FailedSound(cfg, s, i);
        } else {
          AckedSound(cfg, s, i, success, okCount, k);
          ReadSound(cfg, AckedBooks(s, i, success, okCount, k), i, arrivals, k + 1);
        }
      case NoMoreBytes =>
      case ReadBroken => FailedSound(cfg, s, i);
    }
  }

  /** How many acknowledgements come, from number `k` on, before something else does. */
  function LeadingAcks(arrivals: seq<Read>, k: nat): (n: nat)
    requires k <= |arrivals|
    ensures k + n <= |arrivals| && (k + n < |arrivals| ==> !arrivals[k + n].Ack?)
    ensures forall j | k <= j < k + n :: arrivals[j].Ack?
    decreases |arrivals| - k
  {
    if k == |arrivals| || !arrivals[k].Ack? then 0 else 1 + LeadingAcks(arrivals, k + 1)
  }

  /** Of `n` acknowledgements the first, as many as there are requests waiting, answer these in order. */
  function Answers(c: Conn, n: nat): (r: seq<Token>)
    ensures |r| <= n
  {
    Tokens(c.inflight)[..if n < |c.inflight| then n else |c.inflight|]
  }

  /** These tokens were told finished, and connection `i` is without them, or has failed with what was left. */
  ghost predicate AfterReads(s: Books, s': Books, i: nat, told: seq<Token>, failed: bool) {
    && i < |s.w.conns| && |s.g.written| == |s.g.acked| == |s.w.conns| && |told| <= |s.w.conns[i].inflight|
    && var c := s.w.conns[i];
       var rest := c.(inflight := c.inflight[|told|..]);
       if failed then
         && s'.w.conns == s.w.conns[i := IDLE]
         && s'.g.finished == s.g.finished + Finished(told, Acked) + Finished(c.pending, Dropped)
                             + Finished(Abandoned(rest), TimedOut)
         && s'.g.written == s.g.written[i := []] && s'.g.acked == s.g.acked[i := []]
       else
         && s'.w.conns == s.w.conns[i := rest]
         && s'.g.finished == s.g.finished + Finished(told, Acked)
         && s'.g.written == s.g.written && s'.g.acked == s.g.acked[i := s.g.acked[i] + told]
  }

  lemma NothingRead(s: Books, i: nat)
    requires i < |s.w.conns| == |s.g.written| == |s.g.acked|
    ensures AfterReads(s, s, i, [], false) && AfterReads(s, FailedBooks(s, i), i, [], true)
  {
    var c := s.w.conns[i];
    assert c.(inflight := c.inflight[0..]) == c && s.w.conns[i := c] == s.w.conns;
    assert s.g.acked[i] + [] == s.g.acked[i] && s.g.acked[i := s.g.acked[i]] == s.g.acked;
    assert s.g.finished + Finished([], Acked) == s.g.finished;
  }

  lemma OneMoreRead(s: Books, s': Books, i: nat, success: bool, okCount: nat, k: nat, told: seq<Token>, failed: bool)
    requires i < |s.w.conns| == |s.g.written| == |s.g.acked| && |s.w.conns[i].inflight| > 0
    requires AfterReads(AckedBooks(s, i, success, okCount, k), s', i, told, failed)
    ensures AfterReads(s, s', i, [s.w.conns[i].inflight[0].token] + told, failed)
  {
    var c, t, a := s.w.conns[i], AckedBooks(s, i, success, okCount, k), s.w.conns[i].inflight[0].token;
    assert t.w.conns[i].inflight[|told|..] == c.inflight[|told| + 1..];
    assert Finished([a] + told, Acked) == Finished([a], Acked) + Finished(told, Acked);
    assert s.g.acked[i] + [a] + told == s.g.acked[i] + ([a] + told);
  }

  /** The acknowledgements read finish the oldest requests, in order, and are matched to them; one too
      many, or a broken read, fails the connection with what is left on it. */
  lemma {:induction false} ReadAnswers(s: Books, i: nat, arrivals: seq<Read>, k: nat)
    requires i < |s.w.conns| == |s.g.written| == |s.g.acked| && k <= |arrivals|
    ensures var c, n := s.w.conns[i], LeadingAcks(arrivals, k);
            AfterReads(s, ReadBooks(s, i, arrivals, k), i, Answers(c, n),
                       n > |c.inflight| || (k + n < |arrivals| && arrivals[k + n].ReadBroken?))
    decreases |arrivals| - k
  {
    var c, n := s.w.conns[i], LeadingAcks(arrivals, k);
    if n == 0 || |c.inflight| == 0 {
      NothingRead(s, i);
      assert Answers(c, n) == [];
    } else {
      var t := AckedBooks(s, i, arrivals[k].success, arrivals[k].okCount, k);
      ReadAnswers(t, i, arrivals, k + 1);
      AnswersSplit(c, n);
      OneMoreRead(s, ReadBooks(s, i, arrivals, k), i, arrivals[k].success, arrivals[k].okCount, k,
                  Answers(t.w.conns[i], n - 1),
                  n > |c.inflight| || (k + n < |arrivals| && arrivals[k + n].ReadBroken?));
    }
  }

  /** The reads from number `k` on as acknowledgements of these tokens' requests. */
  function RepliesTo(g: Log, i: nat, tokens: seq<Token>, arrivals: seq<Read>, k: nat): seq<Reply>
    requires k + |tokens| <= |arrivals| && forall j | k <= j < k + |tokens| :: arrivals[j].Ack?
  {
    seq(|tokens|, j requires 0 <= j < |tokens| =>
      Reply(tokens[j], i, Place(g.turn, g.event, k + j), arrivals[k + j].success, arrivals[k + j].okCount))
  }

  /** Reading logs exactly these acknowledgements, each with the request it answers. */
  lemma {:induction false} ReadReplies(s: Books, i: nat, arrivals: seq<Read>, k: nat)
    requires i < |s.w.conns| && k <= |arrivals|
    ensures ReadBooks(s, i, arrivals, k).g.replies ==
            s.g.replies + RepliesTo(s.g, i, Answers(s.w.conns[i], LeadingAcks(arrivals, k)), arrivals, k)
    decreases |arrivals| - k
  {
    var c, n := s.w.conns[i], LeadingAcks(arrivals, k);
    if n > 0 && |c.inflight| > 0 {
      var t := AckedBooks(s, i, arrivals[k].success, arrivals[k].okCount, k);
      ReadReplies(t, i, arrivals, k + 1);
      AnswersSplit(c, n);
      FirstReply(s.g, t.g, i, c.inflight[0].token, Answers(Answered(c), n - 1), arrivals, k);
    }
  }

  lemma FirstReply(g: Log, g': Log, i: nat, first: Token, rest: seq<Token>, arrivals: seq<Read>, k: nat)
    requires k + |rest| + 1 <= |arrivals| && forall j | k <= j < k + |rest| + 1 :: arrivals[j].Ack?
    requires g'.turn == g.turn && g'.event == g.event
    ensures RepliesTo(g, i, [first] + rest, arrivals, k) ==
            [Reply(first, i, Place(g.turn, g.event, k), arrivals[k].success, arrivals[k].okCount)]
            + RepliesTo(g', i, rest, arrivals, k + 1)
  {}

  /** An event reads only on a connection that waits for an acknowledgement, as far as acknowledgements come; no other
      event acknowledges anything. */
  lemma EventReplies(cfg: Config, s: Books, ev: Event)
    ensures EventBooks(cfg, s, ev).g.replies == s.g.replies +
            if ev.conn < |s.w.conns| && ev.readable.Some? && |s.w.conns[ev.conn].inflight| > 0
            then
              var arrivals := ev.readable.value;
              RepliesTo(s.g, ev.conn, Answers(s.w.conns[ev.conn], LeadingAcks(arrivals, 0)), arrivals, 0)
            else []
    ensures ev.conn < |s.w.conns| && s.w.conns[ev.conn].inflight == [] && ev.writable.None? ==>
              EventBooks(cfg, s, ev) == s
  {
    if ev.conn < |s.w.conns| && ev.readable.Some? { ReadReplies(s, ev.conn, ev.readable.value, 0); }
  }

  lemma AnswersSplit(c: Conn, n: nat)
    requires n > 0 && |c.inflight| > 0
    ensures Answers(c, n) == [c.inflight[0].token] + Answers(Answered(c), n - 1)
  {}

  lemma SentSound(cfg: Config, s: Books, i: nat)
    requires Sound(cfg, s) && i < |s.w.conns| && s.w.conns[i].writing.Some?
    ensures Sound(cfg, SentBooks(cfg, s, i))
    ensures SentBooks(cfg, s, i).w.conns[i].Line() == s.w.conns[i].Line()
    ensures SentBooks(cfg, s, i).w.conns[i].inflight ==
            s.w.conns[i].inflight
            + [s.w.conns[i].writing.value.(deadline := cfg.clock(s.w.ticks + 1) + cfg.timeout)]
  {
    var c, latest := s.w.conns[i], cfg.Latest(s.w.ticks + 1);
    ConnSound(cfg, s, i, s.w.ticks + 1);
    SentOffOk(c, s.g.written[i], s.g.acked[i], cfg.cap, cfg.batchRecords, latest, latest);
    NothingSplits(c.Line());
    NothingFinished(s.g, i);
    StepSound(cfg, s, SentBooks(cfg, s, i), i, [], Dropped, []);
  }

  lemma {:induction false} WrittenSound(cfg: Config, s: Books, i: nat, writes: seq<Write>, k: nat)
    requires Sound(cfg, s) && i < |s.w.conns| && k <= |writes|
    ensures Sound(cfg, WrittenBooks(cfg, s, i, writes, k))
    ensures WrittenBooks(cfg, s, i, writes, k).g.popped == s.g.popped
    decreases |writes| - k
  {
    var p := s.(w := PrimedWorker(cfg, s.w, i));
    PrimedSound(cfg, s, i);
    if p.w.conns[i].writing.Some? && k < |writes| {
      match writes[k]
      case WholeRequest =>
        SentSound(cfg, p, i);
        WrittenSound(cfg, SentBooks(cfg, p, i), i, writes, k + 1);
      case PartOfIt =>
      case WouldBlock =>
      case WriteBroken => FailedSound(cfg, p, i);
    }
  }

  /** How many whole requests are written, from number `k` on, before something else happens. */
  function LeadingWhole(writes: seq<Write>, k: nat): (n: nat)
    requires k <= |writes|
    ensures k + n <= |writes| && (k + n < |writes| ==> !writes[k + n].WholeRequest?)
    ensures forall j | k <= j < k + n :: writes[j].WholeRequest?
    decreases |writes| - k
  {
    if k == |writes| || !writes[k].WholeRequest? then 0 else 1 + LeadingWhole(writes, k + 1)
  }

  /** The next tokens of a line from place `from` on, at most `n`. */
  function NextOfLine(line: seq<Token>, from: nat, n: nat): (r: seq<Token>)
    requires from <= |line|
    ensures |r| <= n
  {
    line[from..from + if n < |line| - from then n else |line| - from]
  }

  /** These tokens were written whole on connection `i`, whose line stays as it is, or it has failed. */
  ghost predicate AfterWrites(s: Books, s': Books, i: nat, wrote: seq<Token>, failed: bool) {
    && i < |s.w.conns| && |s.g.written| == |s.g.acked| == |s.w.conns| == |s'.w.conns|
    && if failed then
         && s'.w.conns == s.w.conns[i := IDLE]
         && s'.g.written == s.g.written[i := []] && s'.g.acked == s.g.acked[i := []]
       else
         && s'.w.conns == s.w.conns[i := s'.w.conns[i]] && s'.w.conns[i].Line() == s.w.conns[i].Line()
         && Tokens(s'.w.conns[i].inflight) == Tokens(s.w.conns[i].inflight) + wrote
         && s'.g == s.g.(written := s.g.written[i := s.g.written[i] + wrote])
  }

  lemma NothingWritten(cfg: Config, s: Books, i: nat)
    requires Sound(cfg, s) && i < |s.w.conns|
    ensures var p := s.(w := PrimedWorker(cfg, s.w, i));
            AfterWrites(s, p, i, [], false) && AfterWrites(s, FailedBooks(p, i), i, [], true)
  {
    var p := s.(w := PrimedWorker(cfg, s.w, i));
    PrimedSound(cfg, s, i);
    FailedSound(cfg, p, i);
    assert s.g.written[i] + [] == s.g.written[i] && s.g.written[i := s.g.written[i]] == s.g.written;
    assert Tokens(s.w.conns[i].inflight) + [] == Tokens(s.w.conns[i].inflight);
  }

  lemma OneMoreWrite(cfg: Config, s: Books, s': Books, i: nat, wrote: seq<Token>, failed: bool)
    requires Sound(cfg, s) && i < |s.w.conns| && PrimedWorker(cfg, s.w, i).conns[i].writing.Some?
    requires AfterWrites(SentBooks(cfg, s.(w := PrimedWorker(cfg, s.w, i)), i), s', i, wrote, failed)
    ensures AfterWrites(s, s', i, [PrimedWorker(cfg, s.w, i).conns[i].writing.value.token] + wrote, failed)
  {
    var p := s.(w := PrimedWorker(cfg, s.w, i));
    PrimedSound(cfg, s, i);
    SentSound(cfg, p, i);
    var next := p.w.conns[i].writing.value.token;
    var t := SentBooks(cfg, p, i);
    assert Tokens(t.w.conns[i].inflight) == Tokens(s.w.conns[i].inflight) + [next];
    assert s.g.written[i] + [next] + wrote == s.g.written[i] + ([next] + wrote);
    assert Tokens(s.w.conns[i].inflight) + [next] + wrote == Tokens(s.w.conns[i].inflight) + ([next] + wrote);
  }

  /** How many requests of the line do not wait for their acknowledgement yet. */
  function Unwritten(c: Conn): (n: nat)
    ensures n == |c.Line()| - |c.inflight|
  {
    |c.pending| + if c.writing.Some? then 1 else 0
  }

  /** Writing breaks, from number `k` on, while `left` requests are still to be written. */
  predicate WritingFails(writes: seq<Write>, k: nat, left: nat)
    requires k <= |writes|
  {
    var n := LeadingWhole(writes, k);
    n < left && k + n < |writes| && writes[k + n].WriteBroken?
  }

  /** No request is written whole. */
  lemma NoneWhole(cfg: Config, s: Books, i: nat, writes: seq<Write>, k: nat)
    requires Sound(cfg, s) && i < |s.w.conns| && k <= |writes|
    requires LeadingWhole(writes, k) == 0 || Unwritten(s.w.conns[i]) == 0
    ensures AfterWrites(s, WrittenBooks(cfg, s, i, writes, k), i, [], WritingFails(writes, k, Unwritten(s.w.conns[i])))
  {
    NothingWritten(cfg, s, i);
    PrimedSound(cfg, s, i);
  }

  /** Requests written whole are written in the order of the line; a broken write fails the connection. */
  lemma {:induction false} WritesInOrder(cfg: Config, s: Books, i: nat, writes: seq<Write>, k: nat)
    requires Sound(cfg, s) && i < |s.w.conns| && k <= |writes|
    ensures var c := s.w.conns[i];
            AfterWrites(s, WrittenBooks(cfg, s, i, writes, k), i,
                        NextOfLine(c.Line(), |c.inflight|, LeadingWhole(writes, k)),
                        WritingFails(writes, k, Unwritten(c)))
    decreases |writes| - k
  {
    var c, n := s.w.conns[i], LeadingWhole(writes, k);
    if n == 0 || Unwritten(c) == 0 {
      NoneWhole(cfg, s, i, writes, k);
      assert NextOfLine(c.Line(), |c.inflight|, n) == [];
    } else {
      var t := SentBooks(cfg, s.(w := PrimedWorker(cfg, s.w, i)), i);
      FirstWrite(cfg, s, i);
      WritesInOrder(cfg, t, i, writes, k + 1);
      WholeThenRest(cfg, s, WrittenBooks(cfg, t, i, writes, k + 1), i, writes, k);
    }
  }

  lemma WholeThenRest(cfg: Config, s: Books, s': Books, i: nat, writes: seq<Write>, k: nat)
    requires Sound(cfg, s) && i < |s.w.conns| && k < |writes| && writes[k].WholeRequest? && Unwritten(s.w.conns[i]) > 0
    requires PrimedWorker(cfg, s.w, i).conns[i].writing.Some?
    requires var t := SentBooks(cfg, s.(w := PrimedWorker(cfg, s.w, i)), i);
             var c := t.w.conns[i];
             AfterWrites(t, s', i, NextOfLine(c.Line(), |c.inflight|, LeadingWhole(writes, k + 1)),
                         WritingFails(writes, k + 1, Unwritten(c)))
    ensures var c := s.w.conns[i];
            AfterWrites(s, s', i, NextOfLine(c.Line(), |c.inflight|, LeadingWhole(writes, k)),
                        WritingFails(writes, k, Unwritten(c)))
  {
    var c, n := s.w.conns[i], LeadingWhole(writes, k);
    var t := SentBooks(cfg, s.(w := PrimedWorker(cfg, s.w, i)), i);
    FirstWrite(cfg, s, i);
    var rest := NextOfLine(t.w.conns[i].Line(), |t.w.conns[i].inflight|, n - 1);
    OneMoreWrite(cfg, s, s', i, rest, WritingFails(writes, k + 1, Unwritten(t.w.conns[i])));
    assert NextOfLine(c.Line(), |c.inflight|, n) == [c.Line()[|c.inflight|]] + rest;
  }

  /** The first request written whole is the next of the line. */
  lemma FirstWrite(cfg: Config, s: Books, i: nat)
    requires Sound(cfg, s) && i < |s.w.conns| && Unwritten(s.w.conns[i]) > 0
    ensures PrimedWorker(cfg, s.w, i).conns[i].writing.Some?
    ensures PrimedWorker(cfg, s.w, i).conns[i].writing.value.token == s.w.conns[i].Line()[|s.w.conns[i].inflight|]
    ensures var t := SentBooks(cfg, s.(w := PrimedWorker(cfg, s.w, i)), i);
            && Sound(cfg, t) && t.w.conns[i].Line() == s.w.conns[i].Line()
            && |t.w.conns[i].inflight| == |s.w.conns[i].inflight| + 1
            && Unwritten(t.w.conns[i]) == Unwritten(s.w.conns[i]) - 1
  {
    var p := s.(w := PrimedWorker(cfg, s.w, i));
    PrimedSound(cfg, s, i);
    var c := p.w.conns[i];
    SentSound(cfg, p, i);
    assert c.Line()[|c.inflight|] == c.Actives()[|c.inflight|].token;
  }

  lemma EventSound(cfg: Config, s: Books, ev: Event)
    requires Sound(cfg, s)
    ensures Sound(cfg, EventBooks(cfg, s, ev)) && EventBooks(cfg, s, ev).g.popped == s.g.popped
  {
    if ev.conn < |s.w.conns| {
      if ev.readable.Some? { ReadSound(cfg, s, ev.conn, ev.readable.value, 0); }
      if ev.writable.Some? { WrittenSound(cfg, ReadEvent(s, ev), ev.conn, ev.writable.value, 0); }
    }
  }

  lemma {:induction false} EventsSound(cfg: Config, s: Books, events: seq<Event>, k: nat)
    requires Sound(cfg, s) && k <= |events|
    ensures Sound(cfg, EventsBooks(cfg, s, events, k)) && EventsBooks(cfg, s, events, k).g.popped == s.g.popped
    decreases |events| - k
  {
    if k == |events| {
    } else {
      EventSound(cfg, s.AtEvent(k), events[k]);
      EventsSound(cfg, EventBooks(cfg, s.AtEvent(k), events[k]), events, k + 1);
    }
  }

  // ---------------------------------------------------------------- a run

  lemma AssignedTurnSound(cfg: Config, s: Books, round: Round)
    requires Sound(cfg, s)
    ensures Sound(cfg, AssignedTurn(cfg, s, round))
    ensures AssignedTurn(cfg, s, round).g.popped == s.g.popped + Arrivals(round)
    ensures AssignedTurn(cfg, s, round).g.popped == s.g.popped + if round.pacingDone then [] else round.arrived
  {
    if !round.pacingDone { PoppedSound(cfg, s, round.arrived); }
    AssignedSound(cfg, if round.pacingDone then s else PoppedBooks(s, round.arrived));
  }

  lemma TurnSound(cfg: Config, s: Books, round: Round)
    requires Sound(cfg, s)
    ensures Sound(cfg, SweptTurn(cfg, s, round)) && SweptTurn(cfg, s, round).g.popped == s.g.popped + Arrivals(round)
  {
    var a := AssignedTurn(cfg, s, round);
    AssignedTurnSound(cfg, s, round);
    TickSound(cfg, a, 1);
    SweptSound(cfg, a.(w := a.w.(ticks := a.w.ticks + 1)), cfg.clock(a.w.ticks + 1), 0);
  }

  lemma LateTurnSound(cfg: Config, t: Books, drain: Option<int>, events: seq<Event>)
    requires Sound(cfg, t)
    ensures var (s', drain', ended) := LateTurn(cfg, t, drain, events);
            Sound(cfg, s') && s'.g.popped == t.g.popped && (ended ==> Settled(s'.w))
  {
    var d := t.(w := t.w.(ticks := t.w.ticks + 2));
    TickSound(cfg, t, 2);
    DrainedSound(cfg, d);
    EventsSound(cfg, d, events, 0);
  }

  /** A turn ends the loop exactly when pacing is over and, after the sweep, nothing is left or draining has lasted the
      timeout and a tenth of a second; draining starts with the first turn after pacing, and over again if pacing
      does. */
  lemma LoopEndsIff(cfg: Config, s: Books, drain: Option<int>, round: Round)
    ensures var t := SweptTurn(cfg, s, round);
            var start := if drain.Some? then drain.value else cfg.clock(t.w.ticks + 1);
            var (s', drain', ended) := WholeTurn(cfg, s, drain, round);
            && (ended <==> round.pacingDone &&
                           (Settled(t.w) || cfg.clock(t.w.ticks + 2) >= start + cfg.timeout + 100))
            && (!ended ==> drain' == if round.pacingDone then Some(start) else None)
            && (!ended ==>
                  var late := if round.pacingDone then t.(w := t.w.(ticks := t.w.ticks + 2)) else t;
                  s' == EventsBooks(cfg, late, round.events, 0))
  {}

  /** Its events are then handled, each once and in order. */
  lemma {:induction false} EventsInOrder(cfg: Config, s: Books, events: seq<Event>, k: nat, j: nat)
    requires k <= j <= |events|
    ensures EventsBooks(cfg, s, events, k) == EventsBooks(cfg, HandledTo(cfg, s, events, k, j), events, j)
    ensures j == |events| ==> EventsBooks(cfg, s, events, k) == HandledTo(cfg, s, events, k, j)
    decreases j - k
  {
    if k < j { EventsInOrder(cfg, EventBooks(cfg, s.AtEvent(k), events[k]), events, k + 1, j); }
  }

  /** The books after the events from number `k` to `j`. */
  function HandledTo(cfg: Config, s: Books, events: seq<Event>, k: nat, j: nat): Books
    requires k <= j <= |events|
    decreases j - k
  {
    if k == j then s else HandledTo(cfg, EventBooks(cfg, s.AtEvent(k), events[k]), events, k + 1, j)
  }

  /** A turn keeps the invariant, and ends the loop only when everything popped has been finished. */
  lemma WholeTurnSound(cfg: Config, s: Books, drain: Option<int>, round: Round)
    requires Sound(cfg, s)
    ensures var (s', drain', ended) := WholeTurn(cfg, s, drain, round);
            Sound(cfg, s') && s'.g.popped == s.g.popped + Arrivals(round) && (ended ==> Settled(s'.w))
  {
    var t := SweptTurn(cfg, s, round);
    TurnSound(cfg, s, round);
    if round.pacingDone {
      LateTurnSound(cfg, t, drain, round.events);
    } else {
      EventsSound(cfg, t, round.events, 0);
    }
  }

  lemma {:induction false} RunSoundFrom(cfg: Config, s: Books, drain: Option<int>, rounds: seq<Round>, k: nat)
    requires Sound(cfg, s) && k <= |rounds| && s.g.popped == PoppedIn(rounds, k)
    ensures var (s', exited, turns) := RunFrom(cfg, s, drain, rounds, k);
            Sound(cfg, s') && s'.g.popped == PoppedIn(rounds, turns) && (exited ==> Settled(s'.w))
    decreases |rounds| - k
  {
    if k == |rounds| {
    } else {
      var (s', drain', ended) := WholeTurn(cfg, s.AtTurn(k), drain, rounds[k]);
      WholeTurnSound(cfg, s.AtTurn(k), drain, rounds[k]);
      if !ended { RunSoundFrom(cfg, s', drain', rounds, k + 1); }
    }
  }

  /** Over any environment the invariant holds of the worker and of what has happened to it, and when the
      loop ends by itself everything popped has been finished. */
  lemma RunSound(cfg: Config, nConns: nat, workerId: nat, rounds: seq<Round>)
    requires cfg.cap >= 1 && Monotone(cfg.clock)
    ensures var (s, exited, turns) := RunFrom(cfg, Initial(nConns, workerId), None, rounds, 0);
            Sound(cfg, s) && s.g.popped == PoppedIn(rounds, turns) && (exited ==> Settled(s.w))
  {
    InitialSound(cfg, nConns, workerId);
    RunSoundFrom(cfg, Initial(nConns, workerId), None, rounds, 0);
  }

  // ---------------------------------------------------------------- the acknowledgements of a run

  /** The acknowledgement was read at its place, on its connection, and said this. */
  ghost predicate Came(rounds: seq<Round>, r: Reply) {
    && r.at.turn < |rounds| && r.at.event < |rounds[r.at.turn].events|
    && var ev := rounds[r.at.turn].events[r.at.event];
       && ev.conn == r.conn && ev.readable.Some? && r.at.read < |ev.readable.value|
       && ev.readable.value[r.at.read] == Ack(r.success, r.okCount)
  }

  ghost predicate CameAt(rounds: seq<Round>, replies: seq<Reply>, end: Place, k: nat)
    requires k < |replies|
  {
    && Came(rounds, replies[k]) && replies[k].at.Before(end)
    && forall j: nat | j < k :: replies[j].at.Before(replies[k].at)
  }

  /** Each acknowledgement is one the environment gave before this place, and no two are the same one. */
  ghost predicate AllCame(rounds: seq<Round>, replies: seq<Reply>, end: Place) {
    forall k: nat | k < |replies| :: CameAt(rounds, replies, end, k)
  }

  lemma CameEarlier(rounds: seq<Round>, replies: seq<Reply>, end: Place, later: Place)
    requires AllCame(rounds, replies, end) && end.Before(later)
    ensures AllCame(rounds, replies, later)
  {
    forall k: nat | k < |replies| ensures CameAt(rounds, replies, later, k) {
      assert CameAt(rounds, replies, end, k);
    }
  }

  lemma OneMoreCame(rounds: seq<Round>, replies: seq<Reply>, r: Reply, later: Place)
    requires AllCame(rounds, replies, r.at) && Came(rounds, r) && r.at.Before(later)
    ensures AllCame(rounds, replies + [r], later)
  {
    var all := replies + [r];
    forall k: nat | k < |all| ensures CameAt(rounds, all, later, k) {
      if k < |replies| { assert CameAt(rounds, replies, r.at, k); }
      forall j: nat | j < k ensures all[j].at.Before(all[k].at) { assert CameAt(rounds, replies, r.at, j); }
    }
  }

  /** The event being handled, and what it has to read. */
  ghost predicate Handling(rounds: seq<Round>, g: Log, i: nat, arrivals: seq<Read>) {
    && g.turn < |rounds| && g.event < |rounds[g.turn].events|
    && rounds[g.turn].events[g.event].conn == i && rounds[g.turn].events[g.event].readable == Some(arrivals)
  }

  lemma {:induction false} ReadCame(rounds: seq<Round>, s: Books, i: nat, arrivals: seq<Read>, k: nat)
    requires i < |s.w.conns| && k <= |arrivals| && Handling(rounds, s.g, i, arrivals)
    requires AllCame(rounds, s.g.replies, Place(s.g.turn, s.g.event, k))
    ensures AllCame(rounds, ReadBooks(s, i, arrivals, k).g.replies, Place(s.g.turn, s.g.event + 1, 0))
    decreases |arrivals| - k
  {
    CameEarlier(rounds, s.g.replies, Place(s.g.turn, s.g.event, k), Place(s.g.turn, s.g.event + 1, 0));
    if k < |arrivals| && arrivals[k].Ack? && |s.w.conns[i].inflight| > 0 {
      var t := AckedBooks(s, i, arrivals[k].success, arrivals[k].okCount, k);
      OneMoreCame(rounds, s.g.replies, t.g.replies[|s.g.replies|], Place(s.g.turn, s.g.event, k + 1));
      ReadCame(rounds, t, i, arrivals, k + 1);
    }
  }

  lemma {:induction false} EventsCame(cfg: Config, rounds: seq<Round>, s: Books, k: nat)
    requires s.g.turn < |rounds| && k <= |rounds[s.g.turn].events|
    requires AllCame(rounds, s.g.replies, Place(s.g.turn, k, 0))
    ensures AllCame(rounds, EventsBooks(cfg, s, rounds[s.g.turn].events, k).g.replies, Place(s.g.turn + 1, 0, 0))
    decreases |rounds[s.g.turn].events| - k
  {
    var events, t := rounds[s.g.turn].events, s.AtEvent(k);
    if k == |events| {
      CameEarlier(rounds, s.g.replies, Place(s.g.turn, k, 0), Place(s.g.turn + 1, 0, 0));
    } else {
      CameEarlier(rounds, s.g.replies, Place(s.g.turn, k, 0), Place(s.g.turn, k + 1, 0));
      var ev := events[k];
      if ev.conn < |t.w.conns| && ev.readable.Some? { ReadCame(rounds, t, ev.conn, ev.readable.value, 0); }
      assert EventBooks(cfg, t, ev).g.replies == if ev.conn < |t.w.conns| then ReadEvent(t, ev).g.replies
                                                 else t.g.replies;
      EventsCame(cfg, rounds, EventBooks(cfg, t, ev), k + 1);
    }
  }

  lemma TurnCame(cfg: Config, rounds: seq<Round>, s: Books, drain: Option<int>)
    requires s.g.turn < |rounds| && AllCame(rounds, s.g.replies, Place(s.g.turn, 0, 0))
    ensures AllCame(rounds, WholeTurn(cfg, s, drain, rounds[s.g.turn]).0.g.replies, Place(s.g.turn + 1, 0, 0))
  {
    var t := SweptTurn(cfg, s, rounds[s.g.turn]);
    assert SameReplies(s.g, t.g);
    CameEarlier(rounds, s.g.replies, Place(s.g.turn, 0, 0), Place(s.g.turn + 1, 0, 0));
    EventsCame(cfg, rounds, t, 0);
    EventsCame(cfg, rounds, t.(w := t.w.(ticks := t.w.ticks + 2)), 0);
  }

  lemma {:induction false} RunCameFrom(cfg: Config, s: Books, drain: Option<int>, rounds: seq<Round>, k: nat)
    requires k <= |rounds| && AllCame(rounds, s.g.replies, Place(k, 0, 0))
    ensures var (s', exited, turns) := RunFrom(cfg, s, drain, rounds, k);
            AllCame(rounds, s'.g.replies, Place(turns, 0, 0))
    decreases |rounds| - k
  {
    if k == |rounds| {
    } else {
      var (s', drain', ended) := WholeTurn(cfg, s.AtTurn(k), drain, rounds[k]);
      TurnCame(cfg, rounds, s.AtTurn(k), drain);
      if !ended { RunCameFrom(cfg, s', drain', rounds, k + 1); }
    }
  }

  /** The acknowledgements of a run are those read in its turns, one after the other. */
  lemma RunCame(cfg: Config, nConns: nat, workerId: nat, rounds: seq<Round>)
    ensures var (s, exited, turns) := RunFrom(cfg, Initial(nConns, workerId), None, rounds, 0);
            AllCame(rounds, s.g.replies, Place(turns, 0, 0))
  {
    RunCameFrom(cfg, Initial(nConns, workerId), None, rounds, 0);
  }

  // ---------------------------------------------------------------- accounts

  /** At the end of a run every token has been finished exactly as often as it was popped, and the
      popped rows are those acknowledged, timed out and dropped, and those too many for their batch. */
  lemma SettledAccounts(cfg: Config, s: Books)
    requires Sound(cfg, s) && Settled(s.w)
    ensures forall x: Token :: Weigh(s.g.popped, IsToken(x)) == Weigh(EndedTokens(s.g.finished), IsToken(x))
    ensures Weigh(s.g.popped, Rows) ==
            FateRows(s.g.finished, Acked, cfg.batchRecords) + s.w.timeouts + s.w.dropped
            + UnsentRows(s.g.finished, cfg.batchRecords)
    ensures AllCounted(s.g.replies, cfg.batchRecords) ==>
              Weigh(s.g.popped, Rows) == Counted(s.w) + UnsentRows(s.g.finished, cfg.batchRecords)
  {
    forall x: Token ensures Weigh(s.g.popped, IsToken(x)) == Weigh(EndedTokens(s.g.finished), IsToken(x)) {
      assert Kept(s.g.popped, s.w.local, s.w.conns, s.g.finished, IsToken(x));
      IdleWeighsNothing(s.w.conns, IsToken(x));
    }
    assert Kept(s.g.popped, s.w.local, s.w.conns, s.g.finished, Rows);
    IdleWeighsNothing(s.w.conns, Rows);
    RowsByFate(s.g.finished, cfg.batchRecords);
    if AllCounted(s.g.replies, cfg.batchRecords) { CountedReplies(s.g.finished, s.g.replies, cfg.batchRecords); }
  }

  /** The rows in the worker's counters. */
  function Counted(w: Worker): nat { w.ok + w.err + w.timeouts + w.dropped }

  lemma {:induction false} WeighsIffIn(tokens: seq<Token>, x: Token)
    ensures Weigh(tokens, IsToken(x)) > 0 <==> x in tokens
  {
    if |tokens| == 0 {
    } else {
      WeighsIffIn(tokens[..|tokens| - 1], x);
      assert tokens == tokens[..|tokens| - 1] + [tokens[|tokens| - 1]];
    }
  }

  lemma {:induction false} ConnWeighsLess(conns: seq<Conn>, i: nat, w: Token -> nat)
    requires i < |conns|
    ensures Weigh(conns[i].Line(), w) <= WeighConns(conns, w)
  {
    if i == |conns| - 1 {
    } else {
      ConnWeighsLess(conns[..|conns| - 1], i, w);
    }
  }

  /** What is on a connection was popped. */
  lemma HeldWasPopped(cfg: Config, s: Books, i: nat, x: Token)
    requires Sound(cfg, s) && i < |s.w.conns| && x in s.w.conns[i].Line()
    ensures x in s.g.popped
  {
    assert Kept(s.g.popped, s.w.local, s.w.conns, s.g.finished, IsToken(x));
    WeighsIffIn(s.w.conns[i].Line(), x);
    ConnWeighsLess(s.w.conns, i, IsToken(x));
    WeighsIffIn(s.g.popped, x);
  }

  /** What was finished was popped. */
  lemma EndedWasPopped(cfg: Config, s: Books, k: nat)
    requires Sound(cfg, s) && k < |s.g.finished|
    ensures s.g.finished[k].token in s.g.popped
  {
    var x := s.g.finished[k].token;
    assert Kept(s.g.popped, s.w.local, s.w.conns, s.g.finished, IsToken(x));
    assert EndedTokens(s.g.finished)[k] == x;
    WeighsIffIn(EndedTokens(s.g.finished), x);
    WeighsIffIn(s.g.popped, x);
  }

  /** A recorded token is no larger than a batch. */
  predicate Fits(t: Token, batchRecords: nat) { t.record ==> AtLeastOne(t.rows) <= AtLeastOne(batchRecords) }

  predicate AllFit(tokens: seq<Token>, batchRecords: nat) {
    forall k | 0 <= k < |tokens| :: Fits(tokens[k], batchRecords)
  }

  /** When the tokens fit and acknowledgements report what they answer, the counters balance. */
  lemma FittingAccounts(cfg: Config, s: Books)
    requires Sound(cfg, s) && Settled(s.w) && AllFit(s.g.popped, cfg.batchRecords)
    requires AllCounted(s.g.replies, cfg.batchRecords)
    ensures Weigh(s.g.popped, Rows) == Counted(s.w)
  {
    SettledAccounts(cfg, s);
    forall k | 0 <= k < |s.g.finished| ensures Fits(s.g.finished[k].token, cfg.batchRecords) {
      EndedWasPopped(cfg, s, k);
    }
    UnsentIff(s.g.finished, cfg.batchRecords);
  }

  /** If this run takes these tokens, is told of every acknowledged request its rows, and ends by itself,
      then the counters balance. */
  ghost predicate BalancedRun(cfg: Config, nConns: nat, workerId: nat, rounds: seq<Round>, tokens: seq<Token>) {
    var (s, exited, turns) := RunFrom(cfg, Initial(nConns, workerId), None, rounds, 0);
    exited && AllCounted(s.g.replies, cfg.batchRecords) && PoppedIn(rounds, turns) == tokens ==>
      Weigh(tokens, Rows) == Counted(s.w)
  }

  /** The counters balance in every environment if and only if every recorded token fits its batch. */
  lemma BalancesIff(cap: nat, batchRecords: nat, timeout: nat, nConns: nat, workerId: nat, tokens: seq<Token>)
    requires cap >= 1 && nConns >= 1
    ensures (forall clock: nat -> int, rounds: seq<Round> | Monotone(clock) ::
              BalancedRun(Config(cap, batchRecords, timeout, clock), nConns, workerId, rounds, tokens)) <==>
            AllFit(tokens, batchRecords)
  {
    if AllFit(tokens, batchRecords) {
      forall clock: nat -> int, rounds: seq<Round> | Monotone(clock)
        ensures BalancedRun(Config(cap, batchRecords, timeout, clock), nConns, workerId, rounds, tokens)
      {
        var cfg := Config(cap, batchRecords, timeout, clock);
        RunSound(cfg, nConns, workerId, rounds);
        var (s, exited, turns) := RunFrom(cfg, Initial(nConns, workerId), None, rounds, 0);
        if exited && AllCounted(s.g.replies, cfg.batchRecords) && PoppedIn(rounds, turns) == tokens {
          FittingAccounts(cfg, s);
        }
      }
    } else {
      var cfg, rounds := Config(cap, batchRecords, timeout, SlowClock(timeout)), OneByOne(tokens);
      SlowClockMonotone(timeout);
      RunOneByOne(cfg, Initial(nConns, workerId), tokens, 0);
      OneByOnePops(tokens, |tokens|);
      CarriedIff(tokens, batchRecords);
      assert tokens[0..] == tokens;
      assert !BalancedRun(cfg, nConns, workerId, rounds, tokens);
    }
  }

  // ---------------------------------------------------------------- an environment where every request times out

  /** The rows a request of this token carries. */
  function Carried(batchRecords: nat): Token -> nat {
    (t: Token) => if t.record then SentRows(t.rows, batchRecords) else 0
  }

  lemma {:induction false} CarriedIff(tokens: seq<Token>, batchRecords: nat)
    ensures Weigh(tokens, Carried(batchRecords)) <= Weigh(tokens, Rows)
    ensures Weigh(tokens, Carried(batchRecords)) == Weigh(tokens, Rows) <==> AllFit(tokens, batchRecords)
  {
    if |tokens| == 0 {
    } else {
      var last := |tokens| - 1;
      CarriedIff(tokens[..last], batchRecords);
      forall k | 0 <= k < last ensures tokens[..last][k] == tokens[k] {}
      assert Fits(tokens[last], batchRecords) <==> Carried(batchRecords)(tokens[last]) == Rows(tokens[last]);
    }
  }

  /** A clock on which a timeout passes between readings. */
  function SlowClock(timeout: nat): nat -> int { (k: nat) => k * timeout }

  lemma SlowClockMonotone(timeout: nat)
    ensures Monotone(SlowClock(timeout))
  {
    forall i: nat, j: nat | i <= j ensures SlowClock(timeout)(i) <= SlowClock(timeout)(j) {
      assert (j - i) * timeout >= 0;
    }
  }

  /** Tokens arrive one in a turn; then pacing is over. */
  function OneByOne(tokens: seq<Token>): (r: seq<Round>)
    ensures |r| == |tokens| + 1
  {
    seq(|tokens|, k requires 0 <= k < |tokens| => Round(false, [tokens[k]], [])) + [Round(true, [], [])]
  }

  lemma {:induction false} OneByOnePops(tokens: seq<Token>, n: nat)
    requires n <= |tokens|
    ensures PoppedIn(OneByOne(tokens), n) == tokens[..n]
    ensures PoppedIn(OneByOne(tokens), |tokens| + 1) == PoppedIn(OneByOne(tokens), |tokens|)
  {
    if n == 0 {
    } else {
      OneByOnePops(tokens, n - 1);
      assert tokens[..n] == tokens[..n - 1] + [tokens[n - 1]];
    }
  }

  lemma {:induction false} SweptNone(s: Books, now: int, k: nat)
    requires k <= |s.w.conns| && forall j | k <= j < |s.w.conns| :: !Overdue(s.w.conns[j], now)
    ensures SweptBooks(s, now, k) == s
    decreases |s.w.conns| - k
  {
    if k < |s.w.conns| { SweptNone(s, now, k + 1); }
  }

  lemma {:induction false} SweptAlone(s: Books, now: int, k: nat, i: nat)
    requires k <= i < |s.w.conns| && Overdue(s.w.conns[i], now)
    requires forall j | 0 <= j < |s.w.conns| && j != i :: s.w.conns[j] == IDLE
    ensures SweptBooks(s, now, k) == FailedBooks(s, i)
    decreases |s.w.conns| - k
  {
    if k == i {
      SweptNone(FailedBooks(s, i), now, k + 1);
    } else {
      SweptAlone(s, now, k + 1, i);
    }
  }

  /** The worker while every request so far has timed out. */
  ghost predicate Quiet(cfg: Config, s: Books) {
    && cfg.cap >= 1 && cfg.clock == SlowClock(cfg.timeout)
    && Settled(s.w) && s.w.nextRr < |s.w.conns| && s.g.replies == []
  }

  /** A connection on which only this token is, being written. */
  function WritingAlone(cfg: Config, t: Token, ticks: nat): Conn {
    Conn([], Some(Active(t, SentRows(t.rows, cfg.batchRecords), cfg.Latest(ticks))), [])
  }

  /** A token that arrives alone is written to the connection whose turn it is. */
  lemma AloneAssigned(cfg: Config, s: Books, t: Token)
    requires Quiet(cfg, s)
    ensures var a, i := AssignedTurn(cfg, s, Round(false, [t], [])), s.w.nextRr;
            && a.w == s.w.(conns := s.w.conns[i := WritingAlone(cfg, t, s.w.ticks + 1)],
                           nextRr := (i + 1) % |s.w.conns|, ticks := s.w.ticks + 1)
            && a.g.replies == []
  {
    var i, p := s.w.nextRr, PoppedBooks(s, [t]);
    assert Turn(i, 0, |s.w.conns|) == i;
    assert FirstRoom(p.w.conns, i, cfg.cap, 0) == Some(i);
    var h := HandedWorker(cfg, p.w, i);
    assert AssignedWorker(cfg, p.w) == AssignedWorker(cfg, h) == h;
  }

  lemma AloneFails(s: Books, i: nat, a: Active)
    requires i < |s.w.conns| && s.w.conns[i] == Conn([], Some(a), [])
    ensures FailedBooks(s, i).w.conns == s.w.conns[i := IDLE]
    ensures Counted(FailedBooks(s, i).w) == Counted(s.w) + if a.token.record then a.rows else 0
  {
    assert AbandonOrder(DroppedBooks(s, i).w.conns[i]) == [a];
    assert [a][..0] == [];
    assert ActiveRows([a]) == if a.token.record then a.rows else 0;
  }

  /** In the same turn it times out. */
  lemma AloneTimesOut(cfg: Config, s: Books, t: Token)
    requires Quiet(cfg, s)
    ensures var (s', drain', ended) := WholeTurn(cfg, s, None, Round(false, [t], []));
            && !ended && drain' == None && Quiet(cfg, s')
            && Counted(s'.w) == Counted(s.w) + Carried(cfg.batchRecords)(t)
  {
    var a, i := AssignedTurn(cfg, s, Round(false, [t], [])), s.w.nextRr;
    AloneAssigned(cfg, s, t);
    var b, now := a.(w := a.w.(ticks := a.w.ticks + 1)), cfg.clock(a.w.ticks + 1);
    assert SlowClock(cfg.timeout)(a.w.ticks) + cfg.timeout == now;
    SweptAlone(b, now, 0, i);
    AloneFails(b, i, b.w.conns[i].writing.value);
  }

  lemma WeighFirst(tokens: seq<Token>, k: nat, w: Token -> nat)
    requires k < |tokens|
    ensures Weigh(tokens[k..], w) == w(tokens[k]) + Weigh(tokens[k + 1..], w)
  {
    assert tokens[k..] == [tokens[k]] + tokens[k + 1..];
    WeighJoin([tokens[k]], tokens[k + 1..], w);
    assert [tokens[k]][..0] == [];
  }

  /** Then the loop ends. */
  lemma NothingLeft(cfg: Config, s: Books)
    requires Quiet(cfg, s)
    ensures var (s', drain', ended) := WholeTurn(cfg, s, None, Round(true, [], []));
            ended && s'.g.replies == [] && Counted(s'.w) == Counted(s.w)
  {
    var a := AssignedTurn(cfg, s, Round(true, [], []));
    SweptNone(a.(w := a.w.(ticks := a.w.ticks + 1)), cfg.clock(a.w.ticks + 1), 0);
  }

  lemma {:induction false} RunOneByOne(cfg: Config, s: Books, tokens: seq<Token>, k: nat)
    requires Quiet(cfg, s) && k <= |tokens|
    ensures var (s', exited, turns) := RunFrom(cfg, s, None, OneByOne(tokens), k);
            && exited && turns == |tokens| + 1 && s'.g.replies == []
            && Counted(s'.w) == Counted(s.w) + Weigh(tokens[k..], Carried(cfg.batchRecords))
    decreases |tokens| - k
  {
    if k == |tokens| {
      NothingLeft(cfg, s.AtTurn(k));
    } else {
      var (s', drain', ended) := WholeTurn(cfg, s.AtTurn(k), None, OneByOne(tokens)[k]);
      AloneTimesOut(cfg, s.AtTurn(k), tokens[k]);
      RunOneByOne(cfg, s', tokens, k + 1);
      WeighFirst(tokens, k, Carried(cfg.batchRecords));
    }
  }

  // ---------------------------------------------------------------- tokens of one size

  /** Every request of these tokens that counts carries `n` rows. */
  predicate AllCarry(tokens: seq<Token>, n: nat, batchRecords: nat) {
    forall t | t in tokens && t.record :: SentRows(t.rows, batchRecords) == n
  }

  predicate Report(arrivals: seq<Read>, n: nat) {
    forall k | 0 <= k < |arrivals| && arrivals[k].Ack? && arrivals[k].success :: arrivals[k].okCount == n
  }

  /** Every acknowledged success of the round reports `n` rows. */
  predicate RoundReports(round: Round, n: nat) {
    forall k | 0 <= k < |round.events| && round.events[k].readable.Some? :: Report(round.events[k].readable.value, n)
  }

  lemma {:induction false} AckedEnded(finished: seq<Finish>, k: nat)
    requires k < |AckedTokens(finished)|
    ensures AckedTokens(finished)[k] in EndedTokens(finished)
  {
    var front := finished[..|finished| - 1];
    if k < |AckedTokens(front)| {
      AckedEnded(front, k);
      assert EndedTokens(front) == EndedTokens(finished)[..|front|];
    } else {
      assert AckedTokens(finished)[k] == EndedTokens(finished)[|front|];
    }
  }

  /** When every request carries as many rows as every success reports, every success reports the rows of
      the request it answers. */
  lemma RepliesCount(cfg: Config, s: Books, rounds: seq<Round>, end: Place, n: nat)
    requires Sound(cfg, s) && AllCame(rounds, s.g.replies, end)
    requires AllCarry(s.g.popped, n, cfg.batchRecords)
    requires forall j | 0 <= j < |rounds| :: RoundReports(rounds[j], n)
    ensures AllCounted(s.g.replies, cfg.batchRecords)
  {
    forall k | 0 <= k < |s.g.replies| ensures Counts(s.g.replies[k], cfg.batchRecords) {
      var r := s.g.replies[k];
      assert CameAt(rounds, s.g.replies, end, k);
      assert RoundReports(rounds[r.at.turn], n);
      assert r.token == AckedTokens(s.g.finished)[k];
      AckedEnded(s.g.finished, k);
      var e: nat :| e < |s.g.finished| && EndedTokens(s.g.finished)[e] == r.token;
      EndedWasPopped(cfg, s, e);
    }
  }

  /** Tokens as the pacer issues them fill their batch.  When every acknowledged success reports a whole
      batch, the counters of any run that ends by itself balance. */
  lemma PacedRunBalances(cfg: Config, nConns: nat, workerId: nat, rounds: seq<Round>)
    requires cfg.cap >= 1 && Monotone(cfg.clock)
    requires forall j | 0 <= j < |rounds| :: RoundReports(rounds[j], AtLeastOne(cfg.batchRecords))
    requires forall j, t | 0 <= j < |rounds| && t in rounds[j].arrived :: t.rows == AtLeastOne(cfg.batchRecords)
    ensures var (s, exited, turns) := RunFrom(cfg, Initial(nConns, workerId), None, rounds, 0);
            exited ==> Weigh(PoppedIn(rounds, turns), Rows) == s.w.ok + s.w.err + s.w.timeouts + s.w.dropped
  {
    var (s, exited, turns) := RunFrom(cfg, Initial(nConns, workerId), None, rounds, 0);
    RunSound(cfg, nConns, workerId, rounds);
    RunCame(cfg, nConns, workerId, rounds);
    forall k | 0 <= k < |s.g.popped| ensures s.g.popped[k].rows == AtLeastOne(cfg.batchRecords) {
      PoppedArrived(rounds, turns, k);
    }
    RepliesCount(cfg, s, rounds, Place(turns, 0, 0), AtLeastOne(cfg.batchRecords));
    if exited { FittingAccounts(cfg, s); }
  }

  lemma {:induction false} PoppedArrived(rounds: seq<Round>, n: nat, k: nat)
    requires n <= |rounds| && k < |PoppedIn(rounds, n)|
    ensures exists j: nat :: j < n && PoppedIn(rounds, n)[k] in rounds[j].arrived
  {
    if k < |PoppedIn(rounds, n - 1)| {
      PoppedArrived(rounds, n - 1, k);
      var j: nat :| j < n - 1 && PoppedIn(rounds, n - 1)[k] in rounds[j].arrived;
    } else {
      assert PoppedIn(rounds, n)[k] in rounds[n - 1].arrived;
    }
  }
}
