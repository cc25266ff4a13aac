/** The HTTP/2 throughput worker: requests in flight per connection, and recorded requests gathered in
    batches that are sealed when full and finalised when their last request is answered. */
module H2Accounting {
  import opened Forest
  import opened RoundRobin

  /** Request and batch numbers are 32- and 64-bit words. */
  const M32: nat := 0x1_0000_0000
  const M64: nat := 0x1_0000_0000_0000_0000

  datatype Req = Req(conn: nat, batch: Option<nat>, deadline: int)

  /** One count for each decision. */
  type Five = d: seq<nat> | |d| == 5 witness [0, 0, 0, 0, 0]

  datatype Batch = Batch(
    outstanding: nat, sealed: bool, ok: nat, err: nat, timeout: nat, http2xx: nat, http429: nat, http5xx: nat,
    qsb2: nat, rsk1: nat, usedL2: nat, decisions: Five)

  const NEW_BATCH: Batch := Batch(0, false, 0, 0, 0, 0, 0, 0, 0, 0, 0, [0, 0, 0, 0, 0])

  datatype Response = Response(
    timeout: bool, status: nat, rows: nat, qsb2: nat, rsk1: nat, usedL2: nat, decisions: Five)

  const TIMED_OUT: Response := Response(true, 0, 1, 0, 0, 0, [0, 0, 0, 0, 1])

  datatype Config = Config(cap: nat, batchSize: nat, nConns: nat, firstRequest: nat, firstBatch: nat) {
    predicate Valid() { cap >= 1 && batchSize >= 1 && firstRequest < M32 && firstBatch < M64 }
  }

  /** The variables of the worker loop. */
  datatype Worker = Worker(
    warmup: nat, record: nat, nextRr: nat, nextRequestId: nat, nextBatchId: nat, openBatch: Option<nat>,
    openIssued: nat,
    batches: map<nat, Batch>, inflight: map<nat, Req>, counts: seq<nat>, done: seq<Batch>)

  /** Where a response comes from: it arrived in a turn, as number `i` of the answers read before or after requests
      are issued; or the request timed out in a turn; or it could not be sent. */
  datatype Source = Reply(turn: nat, i: nat, late: bool) | Expired(turn: nat) | Unsent

  /** A response to request `x` counted in a batch. */
  datatype Told = Told(batch: nat, r: Response, x: nat, source: Source)

  /** What has happened.  Requests are told apart by the order in which they were issued, as their numbers may
      repeat: how many recorded tokens were taken, requests issued and batches opened; the number of each
      request, and in which turn, and of its sends as which, it was issued; which request went in flight last under
      each number, and how often one did while another was in flight under the same number; which batch each
      recorded request belongs to, which recorded requests were counted and with which responses, and which batches
      were finalised in which order; and which turn it is, and which of its sends. */
  datatype Log = Log(
    taken: nat, issued: nat, batchCount: nat, numbers: seq<nat>, tries: seq<(nat, nat)>, serial: map<nat, nat>,
    clashes: nat, owner: map<nat, nat>, settled: set<nat>, told: seq<Told>, finals: seq<nat>, turn: nat, attempt: nat)
  {
    /** The request in flight under a number. */
    function SerialOf(id: nat): nat { if id in serial then serial[id] else 0 }

    /** The parts of the log that tell which requests are in flight. */
    predicate FlightsAs(g: Log) {
      numbers == g.numbers && serial == g.serial && clashes == g.clashes && issued == g.issued && tries == g.tries
    }
  }

  /** The worker, and what has happened to it. */
  datatype Books = Books(w: Worker, g: Log) {
    function AtTurn(k: nat): Books { this.(g := g.(turn := k)) }
  }

  /** The counters of a batch. */
  datatype Kind = Good | Bad | Late | Status2xx | Status429 | Status5xx | Qsb2 | Rsk1 | UsedL2 | Decision(k: nat)

  function Field(b: Batch, kind: Kind): nat {
    match kind
    case Good => b.ok
    case Bad => b.err
    case Late => b.timeout
    case Status2xx => b.http2xx
    case Status429 => b.http429
    case Status5xx => b.http5xx
    case Qsb2 => b.qsb2
    case Rsk1 => b.rsk1
    case UsedL2 => b.usedL2
    case Decision(k) => if k < 5 then b.decisions[k] else 0
  }

  /** What a response adds to a counter. */
  function Adds(r: Response, kind: Kind): nat {
    var good := !r.timeout && 200 <= r.status < 300;
    var bad := !r.timeout && !good;
    match kind
    case Good => if good then r.rows else 0
    case Bad => if bad then r.rows else 0
    case Late => if r.timeout then r.rows else 0
    case Status2xx => if good then r.rows else 0
    case Status429 => if bad && r.status == 429 then r.rows else 0
    case Status5xx => if bad && r.status >= 500 then r.rows else 0
    case Qsb2 => r.qsb2
    case Rsk1 => r.rsk1
    case UsedL2 => r.usedL2
    case Decision(k) => if k < 5 then r.decisions[k] else 0
  }

  function AddEach(d: Five, e: Five): Five { seq(5, k requires 0 <= k < 5 => d[k] + e[k]) }

  /** Counting one response in a batch. */
  function Counted(b: Batch, r: Response): Batch {
    var c := b.(outstanding := if b.outstanding == 0 then 0 else b.outstanding - 1, qsb2 := b.qsb2 + r.qsb2,
                rsk1 := b.rsk1 + r.rsk1, usedL2 := b.usedL2 + r.usedL2, decisions := AddEach(b.decisions, r.decisions));
    if r.timeout then c.(timeout := b.timeout + r.rows)
    else if 200 <= r.status < 300 then c.(ok := b.ok + r.rows, http2xx := b.http2xx + r.rows)
    else if r.status == 429 then c.(err := b.err + r.rows, http429 := b.http429 + r.rows)
    else if r.status >= 500 then c.(err := b.err + r.rows, http5xx := b.http5xx + r.rows)
    else c.(err := b.err + r.rows)
  }

  /** Each counter grows by what the response adds to it. */
  lemma CountedAdds(b: Batch, r: Response)
    ensures forall kind: Kind :: Field(Counted(b, r), kind) == Field(b, kind) + Adds(r, kind)
  {}

  // ---------------------------------------------------------------- what each step does

  /** Only batches, their numbers and the finished ones change. */
  ghost predicate OnlyBatches(w: Worker, w': Worker) {
    && w'.record == w.record && w'.warmup == w.warmup && w'.counts == w.counts && w'.inflight == w.inflight
    && w'.nextRr == w.nextRr && w'.nextRequestId == w.nextRequestId
  }

  /** A response to request `x` is counted in its batch, which is finalised if it is sealed and waits for nothing
      more. */
  function CountedBooks(s: Books, x: nat, b: nat, r: Response, source: Source): (s': Books)
    requires b in s.w.batches
    ensures OnlyBatches(s.w, s'.w) && s'.g.FlightsAs(s.g) && s'.g.turn == s.g.turn
    ensures s'.w.openBatch == s.w.openBatch && s'.w.openIssued == s.w.openIssued
    ensures s'.g.owner == s.g.owner && s'.g.taken == s.g.taken
  {
    var c := Counted(s.w.batches[b], r);
    var g := s.g.(settled := s.g.settled + {x}, told := s.g.told + [Told(b, r, x, source)]);
    if c.sealed && c.outstanding == 0 then
      Books(s.w.(batches := s.w.batches - {b}, done := s.w.done + [c]), g.(finals := g.finals + [b]))
    else Books(s.w.(batches := s.w.batches[b := c]), g)
  }

  /** A request out of flight. */
  function Removed(w: Worker, id: nat): Worker
    requires id in w.inflight
  {
    var c := w.inflight[id].conn;
    w.(inflight := w.inflight - {id},
       counts := if c < |w.counts| then w.counts[c := if w.counts[c] == 0 then 0 else w.counts[c] - 1] else w.counts)
  }

  /** A response to a request in flight is counted in its batch, if it has one; others change nothing. */
  function AnsweredBooks(s: Books, id: nat, r: Response, source: Source): (s': Books)
    ensures s'.w.record == s.w.record && s'.w.warmup == s.w.warmup && s'.g.FlightsAs(s.g)
    ensures s'.w.nextRequestId == s.w.nextRequestId && s'.g.turn == s.g.turn && s'.g.owner == s.g.owner
  {
    if id !in s.w.inflight then s
    else
      var t := s.(w := Removed(s.w, id));
      match s.w.inflight[id].batch
      case None => t
      case Some(b) => if b in t.w.batches then CountedBooks(t, s.g.SerialOf(id), b, r, source) else t
  }

  /** The answers from number `k` on, in order; `late` are those read after requests are issued. */
  function RepliedBooks(s: Books, answers: seq<(nat, Response)>, late: bool, k: nat): (s': Books)
    requires k <= |answers|
    ensures s'.w.record == s.w.record && s'.w.warmup == s.w.warmup && s'.g.FlightsAs(s.g) && s'.g.turn == s.g.turn
    decreases |answers| - k
  {
    if k == |answers| then s
    else RepliedBooks(AnsweredBooks(s, answers[k].0, answers[k].1, Reply(s.g.turn, k, late)), answers, late, k + 1)
  }

  /** All of these requests time out; `first` says in which order a hash map gives them. */
  function ExpiredBooks(s: Books, ids: set<nat>, first: set<nat> -> nat): (s': Books)
    ensures s'.w.record == s.w.record && s'.w.warmup == s.w.warmup && s'.g.FlightsAs(s.g) && s'.g.turn == s.g.turn
    decreases |ids|
  {
    if first(ids) in ids
    then ExpiredBooks(AnsweredBooks(s, first(ids), TIMED_OUT, Expired(s.g.turn)), ids - {first(ids)}, first) else s
  }

  ghost predicate Picks(first: set<nat> -> nat) { forall s: set<nat> | s != {} :: first(s) in s }

  function Overdue(w: Worker, now: int): set<nat> { set id | id in w.inflight && now >= w.inflight[id].deadline }

  /** A batch is open; a new one, under the next number, if there was none. */
  function OpenedBooks(s: Books): (s': Books)
    ensures s'.w.openBatch.Some? && OnlyBatches(s.w, s'.w) && s'.g.FlightsAs(s.g)
  {
    if s.w.openBatch.Some? then s
    else
      Books(s.w.(nextBatchId := (s.w.nextBatchId + 1) % M64, openBatch := Some(s.w.nextBatchId), openIssued := 0,
                 batches := s.w.batches[s.w.nextBatchId := NEW_BATCH]),
            s.g.(batchCount := s.g.batchCount + 1))
  }

  /** The open batch with one more request; the request that fills it seals it. */
  function JoinedBooks(cfg: Config, s: Books, x: nat): (s': Books)
    requires s.w.openBatch.Some?
    ensures OnlyBatches(s.w, s'.w) && s'.g.FlightsAs(s.g)
  {
    var w, b, n := s.w, s.w.openBatch.value, s.w.openIssued + 1;
    var full := n >= cfg.batchSize;
    var batches := if b !in w.batches then w.batches else
      w.batches[b := w.batches[b].(outstanding := w.batches[b].outstanding + 1, sealed := w.batches[b].sealed || full)];
    Books(w.(batches := batches, openBatch := if full then None else w.openBatch, openIssued := if full then 0 else n),
          s.g.(owner := s.g.owner[x := b]))
  }

  /** A request number is taken. */
  function NumberedBooks(s: Books): (s': Books)
    ensures s'.w.record == s.w.record && s'.w.warmup == s.w.warmup && s'.w.counts == s.w.counts
  {
    Books(s.w.(nextRequestId := (s.w.nextRequestId + 1) % M32),
          s.g.(issued := s.g.issued + 1, numbers := s.g.numbers + [s.w.nextRequestId],
               tries := s.g.tries + [(s.g.turn, s.g.attempt)]))
  }

  /** A recorded request joins the open batch, or a new one. */
  function RecordedBooks(cfg: Config, s: Books, recorded: bool): (s': Books)
    ensures s'.w.record == s.w.record && s'.w.warmup == s.w.warmup && s'.w.counts == s.w.counts
    ensures s'.w.inflight == s.w.inflight && s'.w.nextRequestId == (s.w.nextRequestId + 1) % M32
    ensures s'.g.FlightsAs(NumberedBooks(s).g)
  {
    if recorded then JoinedBooks(cfg, OpenedBooks(NumberedBooks(s)), s.g.issued) else NumberedBooks(s)
  }

  /** The batch of the request numbered next. */
  function NextBatch(s: Books, recorded: bool): Option<nat> {
    if recorded then OpenedBooks(NumberedBooks(s)).w.openBatch else None
  }

  /** Request `x`, of number `id`, goes in flight, or counts as timed out at once. */
  function SentBooks(s: Books, id: nat, x: nat, conn: nat, batch: Option<nat>, deadline: int, sent: bool): (s': Books)
    requires conn < |s.w.counts|
    ensures s'.w.record == s.w.record && s'.w.warmup == s.w.warmup && |s'.w.counts| == |s.w.counts|
    ensures s'.w.openBatch == s.w.openBatch && s'.w.openIssued == s.w.openIssued
    ensures s'.g.owner == s.g.owner && s'.g.taken == s.g.taken && s'.g.issued == s.g.issued && s'.g.turn == s.g.turn
  {
    if sent then
      Books(s.w.(inflight := s.w.inflight[id := Req(conn, batch, deadline)],
                 counts := s.w.counts[conn := s.w.counts[conn] + 1]),
            s.g.(serial := s.g.serial[id := x], clashes := s.g.clashes + if id in s.w.inflight then 1 else 0))
    else if batch.Some? && batch.value in s.w.batches then CountedBooks(s, x, batch.value, TIMED_OUT, Unsent)
    else s
  }

  /** A token is spent, recorded ones first, and the next connection's turn comes. */
  function SpentWorker(w: Worker, conn: nat): (w': Worker)
    requires conn < |w.counts| && w.record + w.warmup > 0
    ensures w'.record + w'.warmup == w.record + w.warmup - 1 && w'.counts == w.counts
  {
    w.(nextRr := (conn + 1) % |w.counts|, record := if w.record > 0 then w.record - 1 else w.record,
       warmup := if w.record > 0 then w.warmup else w.warmup - 1)
  }

  function SpentBooks(s: Books, conn: nat, n: nat): Books
    requires conn < |s.w.counts| && s.w.record + s.w.warmup > 0
  {
    Books(SpentWorker(s.w, conn), s.g.(attempt := n))
  }

  /** One token becomes one request on a connection, as number `n` of this turn's. */
  function IssuedBooks(cfg: Config, s: Books, conn: nat, n: nat, deadline: int, sent: bool): (s': Books)
    requires conn < |s.w.counts| && s.w.record + s.w.warmup > 0
    ensures s'.w.record + s'.w.warmup == s.w.record + s.w.warmup - 1 && s'.g.issued == s.g.issued + 1
    ensures s'.g.clashes == s.g.clashes + (if sent && s.w.nextRequestId in s.w.inflight then 1 else 0)
    ensures s'.g.turn == s.g.turn
  {
    var t, recorded := SpentBooks(s, conn, n), s.w.record > 0;
    SentBooks(RecordedBooks(cfg, t, recorded), t.w.nextRequestId, t.g.issued, conn, NextBatch(t, recorded), deadline,
              sent)
  }

  /** The first connection, in turn, that is below the cap. */
  function FirstRoom(counts: seq<nat>, nextRr: nat, cap: nat, step: nat): (r: Option<nat>)
    requires step <= |counts|
    ensures r.Some? ==> r.value < |counts| && counts[r.value] < cap
    decreases |counts| - step
  {
    if step == |counts| then None
    else if counts[Turn(nextRr, step, |counts|)] < cap then Some(Turn(nextRr, step, |counts|))
    else FirstRoom(counts, nextRr, cap, step + 1)
  }

  /** When a request is sent, and whether sending succeeds. */
  datatype Attempt = Attempt(at: int, ok: bool)

  /** One token becomes one request on the first connection with room, if there is one. */
  function NextIssue(cfg: Config, s: Books, timeout: nat, n: nat, send: Attempt): (r: Option<Books>)
    ensures r.Some? ==> r.value.w.record + r.value.w.warmup == s.w.record + s.w.warmup - 1
    ensures r.Some? ==> r.value.g.issued == s.g.issued + 1 && r.value.g.clashes >= s.g.clashes
  {
    if s.w.record + s.w.warmup == 0 then None else
      match FirstRoom(s.w.counts, s.w.nextRr, cfg.cap, 0)
      case None => None
      case Some(conn) => Some(IssuedBooks(cfg, s, conn, n, send.at + timeout, send.ok))
  }

  type Issuer = (Books, nat, Attempt) -> Option<Books>

  function Issuing(cfg: Config, timeout: nat): Issuer {
    (s: Books, n: nat, send: Attempt) => NextIssue(cfg, s, timeout, n, send)
  }

  /** Tokens become requests until none is left or every connection is full; `n` is the number of the next
      request of this turn. */
  function IssuedAll(issue: Issuer, s: Books, sends: nat -> Attempt, n: nat): Books
    decreases s.w.record + s.w.warmup
  {
    match issue(s, n, sends(n))
    case None => s
    case Some(next) =>
      if next.w.record + next.w.warmup < s.w.record + s.w.warmup then IssuedAll(issue, next, sends, n + 1) else next
  }

  /** What the environment does in one turn: tokens offered, responses arrived, which sends succeed, what
      the clock says, what the pacer's flag says when it is read and read again, and in which order a hash map
      gives its keys. */
  datatype Round = Round(
    recordQuota: nat, warmupQuota: nat, quotaEmpty: bool, pacerDone: bool, pacerDoneStill: bool,
    now: int, drainNow: int, drainCheck: int,
    answers: seq<(nat, Response)>, sends: nat -> Attempt, first: set<nat> -> nat, late: seq<(nat, Response)>)

  function Offered(rounds: seq<Round>, k: nat): nat
    requires k <= |rounds|
    decreases |rounds| - k
  {
    if k == |rounds| then 0 else rounds[k].recordQuota + rounds[k].warmupQuota + Offered(rounds, k + 1)
  }

  function Least(a: nat, b: nat): nat { if a < b then a else b }

  /** Tokens are taken up to the local cap, recorded ones first. */
  function RefilledBooks(s: Books, pendingCap: nat, round: Round): (s': Books)
    ensures s'.g.FlightsAs(s.g) && s'.w.inflight == s.w.inflight && s'.w.counts == s.w.counts
    ensures s'.g.turn == s.g.turn
    ensures s'.w.record + s'.w.warmup <= s.w.record + s.w.warmup + round.recordQuota + round.warmupQuota
  {
    var w := s.w;
    if w.record + w.warmup >= pendingCap then s else
      var record := Least(round.recordQuota, pendingCap - (w.record + w.warmup));
      var warmup := Least(round.warmupQuota, pendingCap - (w.record + record + w.warmup));
      Books(w.(record := w.record + record, warmup := w.warmup + warmup), s.g.(taken := s.g.taken + record))
  }

  /** A turn of the loop before its exit checks: tokens, answers, requests, timeouts. */
  function TurnBooks(cfg: Config, s: Books, timeout: nat, round: Round): Books {
    var r := RepliedBooks(RefilledBooks(s, PendingCap(cfg), round), round.answers, false, 0);
    var i := IssuedAll(Issuing(cfg, timeout), r, round.sends, 0);
    ExpiredBooks(i, Overdue(i.w, round.now), round.first)
  }

  /** A batch is sealed, and finalised if nothing of it is in flight. */
  function SealedBooks(s: Books, b: nat): (s': Books)
    ensures OnlyBatches(s.w, s'.w) && s'.g.FlightsAs(s.g)
  {
    if b !in s.w.batches then s
    else
      var c := s.w.batches[b].(sealed := true);
      if c.outstanding == 0 then
        Books(s.w.(batches := s.w.batches - {b}, done := s.w.done + [c]), s.g.(finals := s.g.finals + [b]))
      else s.(w := s.w.(batches := s.w.batches[b := c]))
  }

  function SealedAll(s: Books, ids: set<nat>, first: set<nat> -> nat): (s': Books)
    ensures OnlyBatches(s.w, s'.w) && s'.g.FlightsAs(s.g)
    decreases |ids|
  {
    if first(ids) in ids then SealedAll(SealedBooks(s, first(ids)), ids - {first(ids)}, first) else s
  }

  /** After the loop the open batch is sealed, then whatever batches are left. */
  function ClosedBooks(s: Books, first: set<nat> -> nat): (s': Books)
    ensures OnlyBatches(s.w, s'.w) && s'.g.FlightsAs(s.g)
  {
    var o := if s.w.openBatch.None? then s else SealedBooks(s.(w := s.w.(openBatch := None)), s.w.openBatch.value);
    SealedAll(o, o.w.batches.Keys, first)
  }

  const DRAIN_GRACE: nat := 100

  predicate NoTokens(w: Worker, round: Round) { round.quotaEmpty && w.warmup == 0 && w.record == 0 }

  /** A whole turn: the books, when draining started, and whether the loop ends. */
  function WholeTurn(cfg: Config, s: Books, drain: Option<int>, timeout: nat, round: Round): (Books, Option<int>, bool)
  {
    var t := TurnBooks(cfg, s, timeout, round);
    if round.pacerDone && NoTokens(t.w, round) && t.w.inflight == map[] then (ClosedBooks(t, round.first), drain, true)
    else if !(round.pacerDoneStill && NoTokens(t.w, round)) then (RepliedBooks(t, round.late, true, 0), None, false)
    else
      var start := if drain.Some? then drain.value else round.drainNow;
      if round.drainCheck - start >= timeout + DRAIN_GRACE then
        (ClosedBooks(ExpiredBooks(t, t.w.inflight.Keys, round.first), round.first), Some(start), true)
      else (RepliedBooks(t, round.late, true, 0), Some(start), false)
  }

  function PendingCap(cfg: Config): nat {
    if cfg.nConns * cfg.cap * 8 == 0 then 1 else cfg.nConns * cfg.cap * 8
  }

  function Initial(cfg: Config, workerId: nat): Books {
    Books(Worker(0, 0, workerId % (if cfg.nConns == 0 then 1 else cfg.nConns), cfg.firstRequest, cfg.firstBatch,
                 None, 0, map[], map[], seq(cfg.nConns, _ => 0), []),
          Log(0, 0, 0, [], [], map[], 0, map[], {}, [], [], 0, 0))
  }

  type Turner = (Books, Option<int>, Round) -> (Books, Option<int>, bool)

  function Turning(cfg: Config, timeout: nat): Turner {
    (s: Books, drain: Option<int>, round: Round) => WholeTurn(cfg, s, drain, timeout, round)
  }

  /** Where the loop goes from turn `k` on: the books, and whether the loop ended by itself. */
  function RunFrom(turn: Turner, s: Books, drain: Option<int>, rounds: seq<Round>, k: nat): (Books, bool)
    requires k <= |rounds|
    decreases |rounds| - k
  {
    if k == |rounds| then (s, false) else
      var (s', drain', ended) := turn(s.AtTurn(k), drain, rounds[k]);
      if ended then (s', true) else RunFrom(turn, s', drain', rounds, k + 1)
  }

  /** The whole run of a worker. */
  function Run(cfg: Config, workerId: nat, timeout: nat, rounds: seq<Round>): (Books, bool) {
    RunFrom(Turning(cfg, timeout), Initial(cfg, workerId), None, rounds, 0)
  }

  // ---------------------------------------------------------------- the steps, as the worker takes them

  method Start(cfg: Config, workerId: nat) returns (w: Worker, ghost g: Log)
    ensures Books(w, g) == Initial(cfg, workerId)
  {
    w := Worker(0, 0, workerId % (if cfg.nConns == 0 then 1 else cfg.nConns), cfg.firstRequest, cfg.firstBatch, None, 0,
                map[], map[], seq(cfg.nConns, _ => 0), []);
    g := Log(0, 0, 0, [], [], map[], 0, map[], {}, [], [], 0, 0);
  }

  /** Counts a response in its batch, and finalises the batch when it is sealed and waits for nothing more. */
  method Settle(w: Worker, ghost x: nat, b: nat, r: Response, ghost source: Source, ghost g: Log)
    returns (w': Worker, ghost g': Log)
    ensures Books(w', g') == if b in w.batches then CountedBooks(Books(w, g), x, b, r, source) else Books(w, g)
  {
    w', g' := w, g;
    if b in w.batches {
      w' := w.(batches := w.batches[b := Counted(w.batches[b], r)]);
      g' := g.(settled := g.settled + {x}, told := g.told + [Told(b, r, x, source)]);
    }
    if b in w'.batches && b in w.batches && w'.batches[b].sealed && w'.batches[b].outstanding == 0 {
      w' := w'.(done := w'.done + [w'.batches[b]], batches := w'.batches - {b});
      g' := g'.(finals := g'.finals + [b]);
      assert w'.batches == w.batches - {b};
    }
  }

  /** A response, an error or a timeout of a request; unknown numbers are ignored. */
  method Answer(w: Worker, id: nat, r: Response, ghost source: Source, ghost g: Log)
    returns (w': Worker, ghost g': Log)
    ensures Books(w', g') == AnsweredBooks(Books(w, g), id, r, source)
  {
    w', g' := w, g;
    if id in w.inflight {
      var req := w.inflight[id];
      w' := w.(inflight := w.inflight - {id});
      if req.conn < |w.counts| {
        var left := if w.counts[req.conn] == 0 then 0 else w.counts[req.conn] - 1;
        w' := w'.(counts := w.counts[req.conn := left]);
      }
      if req.batch.Some? {
        w', g' := Settle(w', g.SerialOf(id), req.batch.value, r, source, g);
      }
    }
  }

  method AnswerEach(w: Worker, answers: seq<(nat, Response)>, ghost late: bool, ghost g: Log)
    returns (w': Worker, ghost g': Log)
    ensures Books(w', g') == RepliedBooks(Books(w, g), answers, late, 0)
  {
    w', g' := w, g;
    for k := 0 to |answers|
      invariant RepliedBooks(Books(w', g'), answers, late, k) == RepliedBooks(Books(w, g), answers, late, 0)
    {
      w', g' := Answer(w', answers[k].0, answers[k].1, Reply(g'.turn, k, late), g');
    }
  }

  /** Times out a set of requests, in the order the map gives them. */
  method ExpireAll(w: Worker, ids: set<nat>, first: set<nat> -> nat, ghost g: Log) returns (w': Worker, ghost g': Log)
    requires Picks(first)
    ensures Books(w', g') == ExpiredBooks(Books(w, g), ids, first)
  {
    w', g' := w, g;
    var left := ids;
    while left != {}
      invariant ExpiredBooks(Books(w', g'), left, first) == ExpiredBooks(Books(w, g), ids, first)
      decreases |left|
    {
      var id := first(left);
      left := left - {id};
      w', g' := Answer(w', id, TIMED_OUT, Expired(g'.turn), g');
    }
  }

  /** Opens a batch under the next number, unless one is open. */
  method OpenBatch(w: Worker, ghost g: Log) returns (w': Worker, ghost g': Log)
    ensures Books(w', g') == OpenedBooks(Books(w, g))
  {
    w', g' := w, g;
    if w.openBatch.None? {
      w' := w.(nextBatchId := (w.nextBatchId + 1) % M64, openBatch := Some(w.nextBatchId), openIssued := 0,
               batches := w.batches[w.nextBatchId := NEW_BATCH]);
      g' := g.(batchCount := g.batchCount + 1);
    }
  }

  /** A recorded request joins the open batch, or a new one. */
  method JoinBatch(cfg: Config, w: Worker, ghost x: nat, ghost g: Log)
    returns (batch: nat, w': Worker, ghost g': Log)
    ensures Some(batch) == OpenedBooks(Books(w, g)).w.openBatch
    ensures Books(w', g') == JoinedBooks(cfg, OpenedBooks(Books(w, g)), x)
  {
    w', g' := OpenBatch(w, g);
    batch := w'.openBatch.value;
    g' := g'.(owner := g'.owner[x := batch]);
    var issued := w'.openIssued + 1;
    if batch in w'.batches {
      var b := w'.batches[batch];
      w' := w'.(batches := w'.batches[batch := b.(outstanding := b.outstanding + 1)]);
    }
    if issued >= cfg.batchSize {
      if batch in w'.batches {
        w' := w'.(batches := w'.batches[batch := w'.batches[batch].(sealed := true)]);
      }
      w' := w'.(openBatch := None, openIssued := 0);
    } else {
      w' := w'.(openIssued := issued);
    }
  }

  /** A request number and, for a recorded request, its batch: the open one, or a new one. */
  method Number(cfg: Config, w: Worker, recorded: bool, ghost g: Log)
    returns (id: nat, batch: Option<nat>, w': Worker, ghost g': Log)
    ensures id == w.nextRequestId && batch == NextBatch(Books(w, g), recorded)
    ensures Books(w', g') == RecordedBooks(cfg, Books(w, g), recorded)
  {
    id, batch := w.nextRequestId, None;
    w' := w.(nextRequestId := (w.nextRequestId + 1) % M32);
    g' := g.(issued := g.issued + 1, numbers := g.numbers + [id], tries := g.tries + [(g.turn, g.attempt)]);
    if recorded {
      var b;
      b, w', g' := JoinBatch(cfg, w', g.issued, g');
      batch := Some(b);
    }
  }

  /** Sends what was numbered: it goes in flight on the connection, or counts as timed out at once. */
  method Send(w: Worker, id: nat, ghost x: nat, conn: nat, batch: Option<nat>, deadline: int, sent: bool, ghost g: Log)
    returns (w': Worker, ghost g': Log)
    requires conn < |w.counts|
    ensures Books(w', g') == SentBooks(Books(w, g), id, x, conn, batch, deadline, sent)
  {
    w', g' := w, g;
    if sent {
      w' := w.(inflight := w.inflight[id := Req(conn, batch, deadline)],
               counts := w.counts[conn := w.counts[conn] + 1]);
      g' := g.(serial := g.serial[id := x], clashes := g.clashes + if id in w.inflight then 1 else 0);
    } else if batch.Some? {
      w', g' := Settle(w, x, batch.value, TIMED_OUT, Unsent, g);
    }
  }

  method PickConn(counts: seq<nat>, nextRr: nat, cap: nat) returns (r: Option<nat>)
    ensures r == FirstRoom(counts, nextRr, cap, 0)
  {
    for step := 0 to |counts|
      invariant FirstRoom(counts, nextRr, cap, 0) == FirstRoom(counts, nextRr, cap, step)
    {
      var idx := Turn(nextRr, step, |counts|);
      if counts[idx] < cap {
        return Some(idx);
      }
    }
    return None;
  }

  /** Issues one token on a connection: recorded tokens go first. */
  method IssueOne(cfg: Config, w: Worker, conn: nat, ghost n: nat, deadline: int, sent: bool, ghost g: Log)
    returns (w': Worker, ghost g': Log)
    requires conn < |w.counts| && w.record + w.warmup > 0
    ensures Books(w', g') == IssuedBooks(cfg, Books(w, g), conn, n, deadline, sent)
  {
    var recorded := w.record > 0;
    w' := w.(nextRr := (conn + 1) % |w.counts|);
    w' := if recorded then w'.(record := w.record - 1) else w'.(warmup := w.warmup - 1);
    var id, batch;
    id, batch, w', g' := Number(cfg, w', recorded, g.(attempt := n));
    w', g' := Send(w', id, g.issued, conn, batch, deadline, sent, g');
  }

  /** Issues one token if some connection has room. */
  method IssueIfRoom(cfg: Config, w: Worker, timeout: nat, ghost n: nat, send: Attempt, ghost g: Log)
    returns (w': Worker, more: bool, ghost g': Log)
    ensures NextIssue(cfg, Books(w, g), timeout, n, send) == if more then Some(Books(w', g')) else None
    ensures !more ==> w' == w && g' == g
  {
    w', more, g' := w, false, g;
    if w.record + w.warmup > 0 {
      var conn := PickConn(w.counts, w.nextRr, cfg.cap);
      if conn.Some? {
        w', g' := IssueOne(cfg, w, conn.value, n, send.at + timeout, send.ok, g);
        more := true;
      }
    }
  }

  /** Issues tokens until none is left or every connection is full. */
  method IssueAll(cfg: Config, w: Worker, timeout: nat, sends: nat -> Attempt, ghost g: Log)
    returns (w': Worker, ghost g': Log)
    ensures Books(w', g') == IssuedAll(Issuing(cfg, timeout), Books(w, g), sends, 0)
  {
    w', g' := w, g;
    var n: nat := 0;
    var more := true;
    ghost var issue, goal := Issuing(cfg, timeout), IssuedAll(Issuing(cfg, timeout), Books(w, g), sends, 0);
    while more
      invariant goal == if more then IssuedAll(issue, Books(w', g'), sends, n) else Books(w', g')
      decreases more, w'.record + w'.warmup
    {
      ghost var before := Books(w', g');
      w', more, g' := IssueIfRoom(cfg, w', timeout, n, sends(n), g');
      assert issue(before, n, sends(n)) == if more then Some(Books(w', g')) else None;
      n := n + 1;
    }
  }

  /** Takes tokens up to the local cap, recorded ones first. */
  method Refill(w: Worker, pendingCap: nat, round: Round, ghost g: Log) returns (w': Worker, ghost g': Log)
    ensures Books(w', g') == RefilledBooks(Books(w, g), pendingCap, round)
  {
    w' := w;
    if w.record + w.warmup < pendingCap {
      var room := pendingCap - (w.record + w.warmup);
      w' := w.(record := w.record + if round.recordQuota < room then round.recordQuota else room);
      if w'.record + w'.warmup < pendingCap {
        room := pendingCap - (w'.record + w'.warmup);
        w' := w'.(warmup := w'.warmup + if round.warmupQuota < room then round.warmupQuota else room);
      }
    }
    g' := g.(taken := g.taken + (w'.record - w.record));
  }

  /** A turn of the loop up to its exit checks. */
  method TakeTurn(cfg: Config, w: Worker, timeout: nat, round: Round, ghost g: Log) returns (w': Worker, ghost g': Log)
    requires Picks(round.first)
    ensures Books(w', g') == TurnBooks(cfg, Books(w, g), timeout, round)
  {
    w', g' := Refill(w, PendingCap(cfg), round, g);
    w', g' := AnswerEach(w', round.answers, false, g');
    w', g' := IssueAll(cfg, w', timeout, round.sends, g');
    w', g' := ExpireAll(w', Overdue(w', round.now), round.first, g');
  }

  method Seal(w: Worker, b: nat, ghost g: Log) returns (w': Worker, ghost g': Log)
    ensures Books(w', g') == SealedBooks(Books(w, g), b)
  {
    w', g' := w, g;
    if b in w.batches {
      w' := w.(batches := w.batches[b := w.batches[b].(sealed := true)]);
      if w'.batches[b].outstanding == 0 {
        w' := w'.(done := w'.done + [w'.batches[b]], batches := w'.batches - {b});
        assert w'.batches == w.batches - {b};
        g' := g.(finals := g.finals + [b]);
      }
    }
  }

  /** Seals the open batch after the loop, then every batch left. */
  method Close(w: Worker, first: set<nat> -> nat, ghost g: Log) returns (w': Worker, ghost g': Log)
    requires Picks(first)
    ensures Books(w', g') == ClosedBooks(Books(w, g), first)
  {
    w', g' := w, g;
    if w.openBatch.Some? {
      w', g' := Seal(w.(openBatch := None), w.openBatch.value, g);
    }
    var left := w'.batches.Keys;
    while left != {}
      invariant SealedAll(Books(w', g'), left, first) == ClosedBooks(Books(w, g), first)
      decreases |left|
    {
      var b := first(left);
      left := left - {b};
      w', g' := Seal(w', b, g');
    }
  }

  /** A turn of the loop, with its two ways out. */
  method OneTurn(cfg: Config, w: Worker, drain: Option<int>, timeout: nat, round: Round, ghost g: Log)
    returns (w': Worker, drain': Option<int>, ended: bool, ghost g': Log)
    requires Picks(round.first)
    ensures (Books(w', g'), drain', ended) == WholeTurn(cfg, Books(w, g), drain, timeout, round)
  {
    drain', ended := None, false;
    w', g' := TakeTurn(cfg, w, timeout, round, g);
    if round.pacerDone && NoTokens(w', round) && w'.inflight == map[] {
      w', g' := Close(w', round.first, g');
      return w', drain, true, g';
    }
    if round.pacerDoneStill && NoTokens(w', round) {
      drain' := if drain.Some? then drain else Some(round.drainNow);
      if round.drainCheck - drain'.value >= timeout + DRAIN_GRACE {
        w', g' := ExpireAll(w', w'.inflight.Keys, round.first, g');
        w', g' := Close(w', round.first, g');
        return w', drain', true, g';
      }
    }
    w', g' := AnswerEach(w', round.late, true, g');
  }

  // ---------------------------------------------------------------- numbers that wrap

  function Wrapped(first: nat, k: nat, m: nat): nat
    requires m > 0
  {
    (first + k) % m
  }

  /** These numbers are among the first `n` handed out. */
  ghost predicate HandedOut(used: set<nat>, first: nat, n: nat, m: nat)
    requires m > 0
  {
    forall id | id in used :: exists k: nat :: k < n && id == Wrapped(first, k, m)
  }

  /** Until as many numbers as words have been handed out, the next one is new. */
  lemma NextIsNew(used: set<nat>, first: nat, n: nat, m: nat)
    requires first < m && n < m && HandedOut(used, first, n, m)
    ensures Wrapped(first, n, m) !in used
  {
    if Wrapped(first, n, m) in used {
      var k: nat :| k < n && Wrapped(first, n, m) == Wrapped(first, k, m);
      SmallWrap(first, n, m);
      SmallWrap(first, k, m);
    }
  }

  lemma SmallWrap(first: nat, k: nat, m: nat)
    requires first < m && k <= m
    ensures Wrapped(first, k, m) == if first + k < m then first + k else first + k - m
  {}

  lemma WrapNext(first: nat, k: nat, m: nat)
    requires first < m && k < m
    ensures (Wrapped(first, k, m) + 1) % m == Wrapped(first, k + 1, m)
  {
    SmallWrap(first, k, m);
    SmallWrap(first, k + 1, m);
    SmallWrap(Wrapped(first, k, m), 1, m);
    assert (Wrapped(first, k, m) + 1) % m == Wrapped(Wrapped(first, k, m), 1, m);
  }

  lemma NextNumber(first: nat, k: nat)
    ensures (Wrapped(first, k, M32) + 1) % M32 == Wrapped(first, k + 1, M32) < M32
  {}

  lemma HandOut(used: set<nat>, first: nat, n: nat, m: nat)
    requires m > 0 && HandedOut(used, first, n, m)
    ensures HandedOut(used + {Wrapped(first, n, m)}, first, n + 1, m)
  {
    forall id | id in used + {Wrapped(first, n, m)} ensures exists k: nat :: k < n + 1 && id == Wrapped(first, k, m) {
      if id in used {
        var k: nat :| k < n && id == Wrapped(first, k, m);
        assert k < n + 1;
      }
    }
  }

  // ---------------------------------------------------------------- what was told

  /** What responses told of a batch add to a counter. */
  function RowsTold(told: seq<Told>, b: nat, kind: Kind): nat {
    if |told| == 0 then 0
    else
      var last := told[|told| - 1];
      RowsTold(told[..|told| - 1], b, kind) + OwnRows(last, b, kind)
  }

  /** How many responses were counted in a batch. */
  function CountTold(told: seq<Told>, b: nat): nat {
    if |told| == 0 then 0
    else CountTold(told[..|told| - 1], b) + if told[|told| - 1].batch == b then 1 else 0
  }

  lemma OneMoreTold(told: seq<Told>, t: Told, b: nat)
    ensures CountTold(told + [t], b) == CountTold(told, b) + if t.batch == b then 1 else 0
    ensures forall kind: Kind ::
              RowsTold(told + [t], b, kind) == RowsTold(told, b, kind) + OwnRows(t, b, kind)
  {
    assert (told + [t])[..|told|] == told;
  }

  function OwnRows(t: Told, b: nat, kind: Kind): nat { if t.batch == b then Adds(t.r, kind) else 0 }

  lemma {:induction false} NothingTold(told: seq<Told>, b: nat)
    requires forall k | 0 <= k < |told| :: told[k].batch != b
    ensures CountTold(told, b) == 0 && forall kind: Kind :: RowsTold(told, b, kind) == 0
  {
    if |told| > 0 { NothingTold(told[..|told| - 1], b); }
  }

  // ---------------------------------------------------------------- the invariant

  ghost function OnConn(inflight: map<nat, Req>, c: nat): set<nat> { set id | id in inflight && inflight[id].conn == c }

  ghost function Members(owner: map<nat, nat>, b: nat): set<nat> { set x | x in owner && owner[x] == b }

  ghost function Unsettled(owner: map<nat, nat>, settled: set<nat>, b: nat): set<nat> {
    set x | x in owner && owner[x] == b && x !in settled
  }

  /** The count of a connection is the number of its requests in flight, and within the cap. */
  ghost predicate CountAt(inflight: map<nat, Req>, counts: seq<nat>, cap: nat, c: nat) {
    c < |counts| ==> counts[c] == |OnConn(inflight, c)| <= cap
  }

  ghost predicate CountsOk(cfg: Config, w: Worker) {
    && |w.counts| == cfg.nConns && (cfg.nConns > 0 ==> w.nextRr < cfg.nConns)
    && (forall id | id in w.inflight :: w.inflight[id].conn < cfg.nConns)
    && (forall c: nat :: CountAt(w.inflight, w.counts, cfg.cap, c))
  }

  /** The recorded request `x` is in flight. */
  predicate Flying(w: Worker, g: Log, x: nat) {
    && x < |g.numbers| && g.numbers[x] in w.inflight && g.SerialOf(g.numbers[x]) == x
    && w.inflight[g.numbers[x]].batch.Some?
  }

  /** A recorded request is not counted yet exactly while it is in flight, for its batch, or being sent. */
  ghost predicate RequestAt(w: Worker, g: Log, sending: Option<nat>, x: nat) {
    && ((x in g.owner && x !in g.settled) <==> Flying(w, g, x) || sending == Some(x))
    && (Flying(w, g, x) ==> w.inflight[g.numbers[x]].batch.value == g.owner[x])
    && (sending == Some(x) ==> !Flying(w, g, x)) && (x in g.settled ==> x in g.owner)
  }

  /** The counters of a batch are what was told of it. */
  ghost predicate SaysTold(b: Batch, told: seq<Told>, id: nat) {
    forall kind: Kind :: Field(b, kind) == RowsTold(told, id, kind)
  }

  /** An unfinished batch waits for exactly its requests not counted yet; a sealed one is full and waits
      for some; only the open batch is not sealed. */
  ghost predicate BatchAt(cfg: Config, w: Worker, g: Log, b: nat) {
    b in w.batches ==>
      && w.batches[b].outstanding == |Unsettled(g.owner, g.settled, b)| && b !in g.finals
      && SaysTold(w.batches[b], g.told, b)
      && CountTold(g.told, b) + w.batches[b].outstanding == |Members(g.owner, b)|
      && if w.batches[b].sealed then w.batches[b].outstanding > 0 && |Members(g.owner, b)| == cfg.batchSize
         else w.openBatch == Some(b) && w.openIssued == |Members(g.owner, b)| < cfg.batchSize
  }

  /** A finalised batch was full, and each of its requests was counted. */
  ghost predicate FinalAt(cfg: Config, w: Worker, g: Log, k: nat) {
    k < |g.finals| && k < |w.done| ==>
      && |Members(g.owner, g.finals[k])| == cfg.batchSize && Unsettled(g.owner, g.settled, g.finals[k]) == {}
      && SaysTold(w.done[k], g.told, g.finals[k]) && CountTold(g.told, g.finals[k]) == cfg.batchSize
  }

  /** Every recorded request belongs to a batch that is waiting or finalised. */
  ghost predicate OwnerAt(w: Worker, g: Log, x: nat) {
    x in g.owner ==> x < |g.numbers| && (g.owner[x] in w.batches || g.owner[x] in g.finals)
  }

  /** Requests are numbered round and round, and each number in flight is that of the request logged for it. */
  ghost predicate NumbersKnown(cfg: Config, w: Worker, g: Log) {
    && |g.numbers| == g.issued && w.nextRequestId == Wrapped(cfg.firstRequest, g.issued, M32)
    && (forall x | 0 <= x < |g.numbers| :: g.numbers[x] == Wrapped(cfg.firstRequest, x, M32))
    && (forall id | id in w.inflight :: FlownAt(g, id))
  }

  ghost predicate FlownAt(g: Log, id: nat) {
    id in g.serial && g.serial[id] < |g.numbers| && g.numbers[g.serial[id]] == id
  }

  ghost predicate NumbersOk(cfg: Config, w: Worker, g: Log) {
    && NumbersKnown(cfg, w, g)
    && w.nextBatchId == Wrapped(cfg.firstBatch, g.batchCount, M64)
    && HandedOut(w.batches.Keys + Elements(g.finals), cfg.firstBatch, g.batchCount, M64)
    && g.batchCount <= g.issued
  }

  ghost function Elements(s: seq<nat>): set<nat> { set x | x in s }

  ghost predicate BatchesOk(cfg: Config, w: Worker, g: Log, sending: Option<nat>) {
    && (forall x: nat :: RequestAt(w, g, sending, x)) && (forall x: nat :: OwnerAt(w, g, x))
    && (forall b: nat :: BatchAt(cfg, w, g, b))
    && (w.openBatch.Some? ==> w.openBatch.value in w.batches && !w.batches[w.openBatch.value].sealed)
    && |w.done| == |g.finals| && (forall k: nat :: FinalAt(cfg, w, g, k))
    && (forall j, k | 0 <= j < k < |g.finals| :: g.finals[j] != g.finals[k])
  }

  /** Each counted request was told of once, in a batch there is or was. */
  ghost predicate ToldOk(w: Worker, g: Log) {
    && |g.told| == |g.settled|
    && forall k | 0 <= k < |g.told| :: g.told[k].batch in w.batches || g.told[k].batch in g.finals
  }

  /** The invariant within a step; `sending` is the recorded request issued but not in flight yet. */
  ghost predicate Coherent(cfg: Config, s: Books, sending: Option<nat>) {
    && cfg.Valid() && NumbersOk(cfg, s.w, s.g) && CountsOk(cfg, s.w)
    && BatchesOk(cfg, s.w, s.g, sending) && ToldOk(s.w, s.g)
  }

  /** The invariant: besides, an open batch has a request, and every recorded token taken is still to be
      issued or has become a request. */
  ghost predicate Sound(cfg: Config, s: Books) {
    Coherent(cfg, s, None) && Balanced(s)
  }

  ghost predicate Balanced(s: Books) {
    (s.w.openBatch.Some? ==> s.w.openIssued > 0) && |s.g.owner| + s.w.record == s.g.taken
  }

  // ---------------------------------------------------------------- leaving flight

  lemma OnConnWithout(inflight: map<nat, Req>, id: nat, c: nat)
    requires id in inflight
    ensures OnConn(inflight - {id}, c) == OnConn(inflight, c) - {id}
    ensures |OnConn(inflight - {id}, c)| == |OnConn(inflight, c)| - if inflight[id].conn == c then 1 else 0
  {
    if inflight[id].conn == c {
      assert id in OnConn(inflight, c);
    } else {
      assert OnConn(inflight, c) - {id} == OnConn(inflight, c);
    }
  }

  lemma RemovedCounts(cfg: Config, w: Worker, id: nat)
    requires CountsOk(cfg, w) && id in w.inflight
    ensures CountsOk(cfg, Removed(w, id))
  {
    var w' := Removed(w, id);
    assert CountAt(w.inflight, w.counts, cfg.cap, w.inflight[id].conn);
    assert id in OnConn(w.inflight, w.inflight[id].conn);
    forall d: nat ensures CountAt(w'.inflight, w'.counts, cfg.cap, d) {
      assert CountAt(w.inflight, w.counts, cfg.cap, d);
      OnConnWithout(w.inflight, id, d);
    }
  }

  /** The recorded request that leaves flight with this number, if it is recorded. */
  function Leaving(w: Worker, g: Log, id: nat): Option<nat>
    requires id in w.inflight
  {
    if w.inflight[id].batch.Some? then Some(g.SerialOf(id)) else None
  }

  lemma RemovedOk(cfg: Config, w: Worker, id: nat, g: Log)
    requires BatchesOk(cfg, w, g, None) && id in w.inflight && FlownAt(g, id)
    ensures BatchesOk(cfg, Removed(w, id), g, Leaving(w, g, id))
  {
    var w', sending := Removed(w, id), Leaving(w, g, id);
    assert RequestAt(w, g, None, g.SerialOf(id));
    forall x: nat ensures RequestAt(w', g, sending, x) { assert RequestAt(w, g, None, x); }
    forall x: nat ensures OwnerAt(w', g, x) { assert OwnerAt(w, g, x); }
    forall b: nat ensures BatchAt(cfg, w', g, b) { assert BatchAt(cfg, w, g, b); }
    forall k: nat ensures FinalAt(cfg, w', g, k) { assert FinalAt(cfg, w, g, k); }
  }

  /** A request taken out of flight has its connection's count lowered; if recorded, it is still to be counted. */
  lemma RemovedCoherent(cfg: Config, s: Books, id: nat)
    requires Coherent(cfg, s, None) && id in s.w.inflight
    ensures Coherent(cfg, s.(w := Removed(s.w, id)), Leaving(s.w, s.g, id))
  {
    assert FlownAt(s.g, id);
    RemovedCounts(cfg, s.w, id);
    RemovedOk(cfg, s.w, id, s.g);
  }

  // ---------------------------------------------------------------- counting

  lemma UnsettledWithout(owner: map<nat, nat>, settled: set<nat>, x: nat, b: nat)
    requires x in owner && x !in settled
    ensures Unsettled(owner, settled + {x}, b) == Unsettled(owner, settled, b) - {x}
    ensures |Unsettled(owner, settled + {x}, b)| == |Unsettled(owner, settled, b)| - if owner[x] == b then 1 else 0
  {
    if owner[x] == b {
      assert x in Unsettled(owner, settled, b);
    } else {
      assert Unsettled(owner, settled, b) - {x} == Unsettled(owner, settled, b);
    }
  }

  /** The batch of a request still to be counted has not been finalised. */
  lemma StillWaiting(cfg: Config, w: Worker, g: Log, sending: Option<nat>, x: nat)
    requires BatchesOk(cfg, w, g, sending) && x in g.owner && x !in g.settled
    ensures g.owner[x] in w.batches
  {
    assert OwnerAt(w, g, x);
    assert x in Unsettled(g.owner, g.settled, g.owner[x]);
    forall k: nat ensures k < |g.finals| ==> g.finals[k] != g.owner[x] { assert FinalAt(cfg, w, g, k); }
  }

  /** Request `x`, of batch `b`, is about to be counted. */
  ghost predicate Due(cfg: Config, s: Books, x: nat, b: nat) {
    && BatchesOk(cfg, s.w, s.g, Some(x)) && x in s.g.owner && x !in s.g.settled
    && s.g.owner[x] == b && b in s.w.batches
  }

  lemma CountedRequests(cfg: Config, s: Books, x: nat, b: nat, r: Response, source: Source)
    requires Due(cfg, s, x, b)
    ensures var s' := CountedBooks(s, x, b, r, source);
            forall y: nat :: RequestAt(s'.w, s'.g, None, y) && OwnerAt(s'.w, s'.g, y)
  {
    var s' := CountedBooks(s, x, b, r, source);
    forall y: nat ensures RequestAt(s'.w, s'.g, None, y) && OwnerAt(s'.w, s'.g, y) {
      assert RequestAt(s.w, s.g, Some(x), y) && OwnerAt(s.w, s.g, y);
      StillFinal(s.g.finals, s'.g.finals, b, if y in s.g.owner then s.g.owner[y] else b);
    }
  }

  lemma StillFinal(finals: seq<nat>, finals': seq<nat>, b: nat, d: nat)
    requires finals' == finals || finals' == finals + [b]
    ensures d in finals ==> d in finals'
    ensures finals' == finals + [b] ==> b in finals'
  {}

  lemma CountedBatch(cfg: Config, s: Books, x: nat, b: nat, r: Response, source: Source)
    requires Due(cfg, s, x, b)
    ensures BatchAt(cfg, CountedBooks(s, x, b, r, source).w, CountedBooks(s, x, b, r, source).g, b)
  {
    assert BatchAt(cfg, s.w, s.g, b);
    UnsettledWithout(s.g.owner, s.g.settled, x, b);
    OneMoreTold(s.g.told, Told(b, r, x, source), b);
    CountedAdds(s.w.batches[b], r);
  }

  lemma OtherBatch(cfg: Config, s: Books, x: nat, b: nat, r: Response, source: Source, d: nat)
    requires Due(cfg, s, x, b) && d != b
    ensures BatchAt(cfg, CountedBooks(s, x, b, r, source).w, CountedBooks(s, x, b, r, source).g, d)
  {
    assert BatchAt(cfg, s.w, s.g, b) && BatchAt(cfg, s.w, s.g, d);
    UnsettledWithout(s.g.owner, s.g.settled, x, d);
    OneMoreTold(s.g.told, Told(b, r, x, source), d);
  }

  lemma CountedFinal(cfg: Config, s: Books, x: nat, b: nat, r: Response, source: Source, k: nat)
    requires Due(cfg, s, x, b) && k < |s.g.finals|
    ensures FinalAt(cfg, CountedBooks(s, x, b, r, source).w, CountedBooks(s, x, b, r, source).g, k)
  {
    assert BatchAt(cfg, s.w, s.g, b) && FinalAt(cfg, s.w, s.g, k);
    var f := s.g.finals[k];
    assert Unsettled(s.g.owner, s.g.settled + {x}, f) <= Unsettled(s.g.owner, s.g.settled, f);
    OneMoreTold(s.g.told, Told(b, r, x, source), f);
  }

  lemma FinalisedNow(cfg: Config, s: Books, x: nat, b: nat, r: Response, source: Source)
    requires Due(cfg, s, x, b)
    ensures FinalAt(cfg, CountedBooks(s, x, b, r, source).w, CountedBooks(s, x, b, r, source).g, |s.g.finals|)
  {
    assert BatchAt(cfg, s.w, s.g, b);
    UnsettledWithout(s.g.owner, s.g.settled, x, b);
    OneMoreTold(s.g.told, Told(b, r, x, source), b);
    CountedAdds(s.w.batches[b], r);
  }

  lemma CountedNumbers(cfg: Config, s: Books, x: nat, b: nat, r: Response, source: Source)
    requires NumbersOk(cfg, s.w, s.g) && b in s.w.batches && cfg.Valid()
    ensures NumbersOk(cfg, CountedBooks(s, x, b, r, source).w, CountedBooks(s, x, b, r, source).g)
  {
    var s' := CountedBooks(s, x, b, r, source);
    assert s'.w.batches.Keys + Elements(s'.g.finals) == s.w.batches.Keys + Elements(s.g.finals) by {
      assert Elements(s.g.finals + [b]) == Elements(s.g.finals) + {b};
    }
  }

  lemma CountedTold(s: Books, x: nat, b: nat, r: Response, source: Source)
    requires ToldOk(s.w, s.g) && b in s.w.batches && x !in s.g.settled
    ensures ToldOk(CountedBooks(s, x, b, r, source).w, CountedBooks(s, x, b, r, source).g)
  {
    var s' := CountedBooks(s, x, b, r, source);
    forall k | 0 <= k < |s'.g.told| ensures s'.g.told[k].batch in s'.w.batches || s'.g.told[k].batch in s'.g.finals {
      StillFinal(s.g.finals, s'.g.finals, b, s'.g.told[k].batch);
    }
  }

  /** A response is counted in the batch of its request, which is finalised exactly when it is sealed and
      waits for nothing more. */
  lemma CountedCoherent(cfg: Config, s: Books, x: nat, b: nat, r: Response, source: Source)
    requires Coherent(cfg, s, Some(x)) && x in s.g.owner && s.g.owner[x] == b
    ensures b in s.w.batches && Coherent(cfg, CountedBooks(s, x, b, r, source), None)
  {
    assert RequestAt(s.w, s.g, Some(x), x);
    StillWaiting(cfg, s.w, s.g, Some(x), x);
    var s' := CountedBooks(s, x, b, r, source);
    assert BatchAt(cfg, s.w, s.g, b);
    CountedRequests(cfg, s, x, b, r, source);
    forall d: nat ensures BatchAt(cfg, s'.w, s'.g, d) {
      if d == b { CountedBatch(cfg, s, x, b, r, source); } else { OtherBatch(cfg, s, x, b, r, source, d); }
    }
    forall k: nat ensures FinalAt(cfg, s'.w, s'.g, k) {
      if k < |s.g.finals| { CountedFinal(cfg, s, x, b, r, source, k); } else { FinalisedNow(cfg, s, x, b, r, source); }
    }
    CountedNumbers(cfg, s, x, b, r, source);
    CountedTold(s, x, b, r, source);
  }

  /** A response, error or timeout of a request in flight counts once; others change nothing. */
  lemma AnsweredSound(cfg: Config, s: Books, id: nat, r: Response, source: Source)
    requires Sound(cfg, s)
    ensures Sound(cfg, AnsweredBooks(s, id, r, source))
    ensures AnsweredBooks(s, id, r, source).w.inflight == s.w.inflight - {id}
    ensures AnsweredBooks(s, id, r, source).g.taken == s.g.taken
  {
    if id in s.w.inflight {
      var t, x := s.(w := Removed(s.w, id)), s.g.SerialOf(id);
      assert FlownAt(s.g, id) && RequestAt(s.w, s.g, None, x);
      RemovedCoherent(cfg, s, id);
      if s.w.inflight[id].batch.Some? { CountedCoherent(cfg, t, x, s.g.owner[x], r, source); }
    } else {
      assert s.w.inflight - {id} == s.w.inflight;
    }
  }

  lemma {:induction false} RepliedSound(cfg: Config, s: Books, answers: seq<(nat, Response)>, late: bool, k: nat)
    requires Sound(cfg, s) && k <= |answers|
    ensures Sound(cfg, RepliedBooks(s, answers, late, k)) && RepliedBooks(s, answers, late, k).g.taken == s.g.taken
    decreases |answers| - k
  {
    if k == |answers| {
    } else {
      AnsweredSound(cfg, s, answers[k].0, answers[k].1, Reply(s.g.turn, k, late));
      RepliedSound(cfg, AnsweredBooks(s, answers[k].0, answers[k].1, Reply(s.g.turn, k, late)), answers, late, k + 1);
    }
  }

  /** Exactly these requests are out of flight afterwards, in whatever order the map gives them. */
  lemma {:induction false} ExpiredSound(cfg: Config, s: Books, ids: set<nat>, first: set<nat> -> nat)
    requires Sound(cfg, s) && Picks(first)
    ensures Sound(cfg, ExpiredBooks(s, ids, first)) && ExpiredBooks(s, ids, first).g.taken == s.g.taken
    ensures ExpiredBooks(s, ids, first).w.inflight == s.w.inflight - ids
    decreases |ids|
  {
    if ids == {} {
      assert s.w.inflight - ids == s.w.inflight;
    } else {
      var id := first(ids);
      AnsweredSound(cfg, s, id, TIMED_OUT, Expired(s.g.turn));
      ExpiredSound(cfg, AnsweredBooks(s, id, TIMED_OUT, Expired(s.g.turn)), ids - {id}, first);
      assert s.w.inflight - {id} - (ids - {id}) == s.w.inflight - ids;
    }
  }

  // ---------------------------------------------------------------- issuing

  lemma NumberTaken(cfg: Config, s: Books)
    requires BatchesOk(cfg, s.w, s.g, None) && NumbersKnown(cfg, s.w, s.g)
    ensures BatchesOk(cfg, NumberedBooks(s).w, NumberedBooks(s).g, None)
  {
    var w, g, w', g' := s.w, s.g, NumberedBooks(s).w, NumberedBooks(s).g;
    forall x: nat ensures RequestAt(w', g', None, x) {
      assert RequestAt(w, g, None, x) && OwnerAt(w, g, x);
      if x == g.issued && g'.numbers[x] in w.inflight { assert FlownAt(g, g'.numbers[x]); }
    }
    forall x: nat ensures OwnerAt(w', g', x) { assert OwnerAt(w, g, x); }
    forall b: nat ensures BatchAt(cfg, w', g', b) { assert BatchAt(cfg, w, g, b); }
    forall k: nat ensures FinalAt(cfg, w', g', k) { assert FinalAt(cfg, w, g, k); }
  }

  lemma NumberKnown(cfg: Config, s: Books)
    requires NumbersKnown(cfg, s.w, s.g)
    ensures NumbersKnown(cfg, NumberedBooks(s).w, NumberedBooks(s).g)
  {
    NextNumber(cfg.firstRequest, s.g.issued);
    forall id | id in s.w.inflight ensures FlownAt(NumberedBooks(s).g, id) { assert FlownAt(s.g, id); }
  }

  /** A request is numbered; as yet it is in flight nowhere. */
  lemma NumberedCoherent(cfg: Config, s: Books)
    requires Coherent(cfg, s, None)
    ensures Coherent(cfg, NumberedBooks(s), None) && NumberedBooks(s).g.batchCount < NumberedBooks(s).g.issued
    ensures s.g.issued !in s.g.owner && !Flying(NumberedBooks(s).w, NumberedBooks(s).g, s.g.issued)
  {
    assert OwnerAt(s.w, s.g, s.g.issued);
    NumberKnown(cfg, s);
    NumberTaken(cfg, s);
    assert RequestAt(NumberedBooks(s).w, NumberedBooks(s).g, None, s.g.issued);
  }

  lemma OpenedNumbers(cfg: Config, s: Books)
    requires cfg.Valid() && NumbersOk(cfg, s.w, s.g) && s.g.batchCount < s.g.issued <= M64
    ensures NumbersOk(cfg, OpenedBooks(s).w, OpenedBooks(s).g)
  {
    var w', g', b := OpenedBooks(s).w, OpenedBooks(s).g, s.w.nextBatchId;
    if s.w.openBatch.None? {
      WrapNext(cfg.firstBatch, s.g.batchCount, M64);
      HandOut(s.w.batches.Keys + Elements(s.g.finals), cfg.firstBatch, s.g.batchCount, M64);
      assert w'.batches.Keys + Elements(g'.finals) == s.w.batches.Keys + Elements(s.g.finals) + {b};
    }
  }

  lemma OpenedOk(cfg: Config, s: Books, b: nat)
    requires cfg.Valid() && BatchesOk(cfg, s.w, s.g, None) && ToldOk(s.w, s.g)
    requires s.w.openBatch.None? && b == s.w.nextBatchId && b !in s.w.batches && b !in s.g.finals
    ensures BatchesOk(cfg, OpenedBooks(s).w, OpenedBooks(s).g, None)
  {
    var w, g, w', g' := s.w, s.g, OpenedBooks(s).w, OpenedBooks(s).g;
    forall x: nat ensures RequestAt(w', g', None, x) { assert RequestAt(w, g, None, x); }
    forall x: nat ensures OwnerAt(w', g', x) { assert OwnerAt(w, g, x); }
    forall x | x in g.owner ensures g.owner[x] != b { assert OwnerAt(w, g, x); }
    assert Members(g.owner, b) == {} && Unsettled(g.owner, g.settled, b) == {};
    NothingTold(g.told, b);
    forall d: nat ensures BatchAt(cfg, w', g', d) { assert BatchAt(cfg, w, g, d); }
    forall k: nat ensures FinalAt(cfg, w', g', k) { assert FinalAt(cfg, w, g, k); }
  }

  /** A batch opens under a number that no batch waiting or finalised has. */
  lemma OpenedCoherent(cfg: Config, s: Books)
    requires Coherent(cfg, s, None) && s.g.batchCount < s.g.issued <= M64
    ensures Coherent(cfg, OpenedBooks(s), None)
    ensures s.w.openBatch.None? ==> s.w.nextBatchId !in s.w.batches && s.w.nextBatchId !in s.g.finals
  {
    OpenedNumbers(cfg, s);
    if s.w.openBatch.None? {
      NextIsNew(s.w.batches.Keys + Elements(s.g.finals), cfg.firstBatch, s.g.batchCount, M64);
      OpenedOk(cfg, s, s.w.nextBatchId);
    }
  }

  lemma MemberJoins(owner: map<nat, nat>, x: nat, b: nat)
    requires x !in owner
    ensures |Members(owner[x := b], b)| == |Members(owner, b)| + 1
  {
    var before, after := Members(owner, b), Members(owner[x := b], b);
    forall y: nat ensures y in after <==> y in before + {x} {}
    assert after == before + {x} && x !in before;
  }

  lemma UnsettledJoins(owner: map<nat, nat>, settled: set<nat>, x: nat, b: nat)
    requires x !in owner && x !in settled
    ensures |Unsettled(owner[x := b], settled, b)| == |Unsettled(owner, settled, b)| + 1
  {
    var before, after := Unsettled(owner, settled, b), Unsettled(owner[x := b], settled, b);
    forall y: nat ensures y in after <==> y in before + {x} {}
    assert after == before + {x} && x !in before;
  }

  lemma MembersWith(owner: map<nat, nat>, settled: set<nat>, x: nat, b: nat, d: nat)
    requires x !in owner && x !in settled
    ensures |Members(owner[x := b], d)| == |Members(owner, d)| + if d == b then 1 else 0
    ensures |Unsettled(owner[x := b], settled, d)| == |Unsettled(owner, settled, d)| + if d == b then 1 else 0
    ensures d != b ==> Unsettled(owner[x := b], settled, d) == Unsettled(owner, settled, d)
  {
    if d == b {
      MemberJoins(owner, x, b);
      UnsettledJoins(owner, settled, x, b);
    } else {
      assert Members(owner[x := b], d) == Members(owner, d);
      assert Unsettled(owner[x := b], settled, d) == Unsettled(owner, settled, d);
    }
  }

  lemma JoinedOk(cfg: Config, s: Books, x: nat)
    requires cfg.Valid() && BatchesOk(cfg, s.w, s.g, None) && s.w.openBatch.Some?
    requires x < |s.g.numbers| && x !in s.g.owner && !Flying(s.w, s.g, x)
    ensures BatchesOk(cfg, JoinedBooks(cfg, s, x).w, JoinedBooks(cfg, s, x).g, Some(x))
  {
    var w, g, w', g', b := s.w, s.g, JoinedBooks(cfg, s, x).w, JoinedBooks(cfg, s, x).g, s.w.openBatch.value;
    assert BatchAt(cfg, w, g, b) && RequestAt(w, g, None, x);
    forall y: nat ensures RequestAt(w', g', Some(x), y) { assert RequestAt(w, g, None, y); }
    forall y: nat ensures OwnerAt(w', g', y) { assert OwnerAt(w, g, y); }
    forall d: nat ensures BatchAt(cfg, w', g', d) {
      assert BatchAt(cfg, w, g, d);
      MembersWith(g.owner, g.settled, x, b, d);
    }
    forall k: nat ensures FinalAt(cfg, w', g', k) {
      assert FinalAt(cfg, w, g, k);
      if k < |g.finals| { MembersWith(g.owner, g.settled, x, b, g.finals[k]); }
    }
  }

  /** The request joins the open batch, which then waits for it; the one that fills it seals it. */
  lemma JoinedCoherent(cfg: Config, s: Books, x: nat)
    requires Coherent(cfg, s, None) && s.w.openBatch.Some?
    requires x < |s.g.numbers| && x !in s.g.owner && !Flying(s.w, s.g, x)
    ensures Coherent(cfg, JoinedBooks(cfg, s, x), Some(x))
    ensures |JoinedBooks(cfg, s, x).g.owner| == |s.g.owner| + 1
  {
    JoinedOk(cfg, s, x);
    JoinedNumbers(cfg, s, x);
    OneMoreOwned(s.g.owner, x, s.w.openBatch.value);
  }

  lemma JoinedNumbers(cfg: Config, s: Books, x: nat)
    requires NumbersOk(cfg, s.w, s.g) && CountsOk(cfg, s.w) && ToldOk(s.w, s.g) && s.w.openBatch.Some?
    ensures var s' := JoinedBooks(cfg, s, x); NumbersOk(cfg, s'.w, s'.g) && CountsOk(cfg, s'.w) && ToldOk(s'.w, s'.g)
  {
    var s' := JoinedBooks(cfg, s, x);
    assert s'.w.batches.Keys == s.w.batches.Keys;
    forall id | id in s'.w.inflight ensures FlownAt(s'.g, id) { assert FlownAt(s.g, id); }
    forall c: nat ensures CountAt(s'.w.inflight, s'.w.counts, cfg.cap, c) {
      assert CountAt(s.w.inflight, s.w.counts, cfg.cap, c);
    }
  }

  lemma OneMoreOwned(owner: map<nat, nat>, x: nat, b: nat)
    requires x !in owner
    ensures |owner[x := b]| == |owner| + 1
  {
    assert owner[x := b].Keys == owner.Keys + {x};
  }

  /** A request gets its number and, if recorded, its batch. */
  lemma RecordedCoherent(cfg: Config, s: Books, recorded: bool)
    requires Coherent(cfg, s, None) && s.g.issued < M64 && (s.w.openBatch.Some? ==> s.w.openIssued > 0)
    ensures var s', x, batch := RecordedBooks(cfg, s, recorded), s.g.issued, NextBatch(s, recorded);
            && Coherent(cfg, s', if recorded then Some(x) else None) && (s'.w.openBatch.Some? ==> s'.w.openIssued > 0)
            && x < |s'.g.numbers| && s'.g.numbers[x] == s.w.nextRequestId && s'.g.taken == s.g.taken
            && |s'.g.owner| == |s.g.owner| + (if recorded then 1 else 0)
            && (recorded <==> batch.Some?)
            && (if recorded then x in s'.g.owner && s'.g.owner[x] == batch.value else x !in s'.g.owner)
  {
    NumberedCoherent(cfg, s);
    if recorded {
      OpenedCoherent(cfg, NumberedBooks(s));
      JoinedCoherent(cfg, OpenedBooks(NumberedBooks(s)), s.g.issued);
    }
  }

  lemma OnConnWith(inflight: map<nat, Req>, id: nat, req: Req, c: nat)
    requires id !in inflight
    ensures |OnConn(inflight[id := req], c)| == |OnConn(inflight, c)| + if req.conn == c then 1 else 0
  {
    if req.conn == c {
      assert OnConn(inflight[id := req], c) == OnConn(inflight, c) + {id};
    } else {
      assert OnConn(inflight[id := req], c) == OnConn(inflight, c);
    }
  }

  lemma InsertedOk(cfg: Config, w: Worker, w': Worker, g: Log, g': Log, x: nat, req: Req)
    requires BatchesOk(cfg, w, g, if req.batch.Some? then Some(x) else None)
    requires x < |g.numbers| && g.numbers[x] !in w.inflight
    requires req.batch.Some? ==> x in g.owner && g.owner[x] == req.batch.value
    requires req.batch.None? ==> x !in g.owner
    requires w' == w.(inflight := w.inflight[g.numbers[x] := req], counts := w'.counts)
    requires g' == g.(serial := g.serial[g.numbers[x] := x], clashes := g'.clashes)
    ensures BatchesOk(cfg, w', g', None)
  {
    var sending := if req.batch.Some? then Some(x) else None;
    forall y: nat ensures RequestAt(w', g', None, y) { assert RequestAt(w, g, sending, y) && OwnerAt(w, g, y); }
    forall y: nat ensures OwnerAt(w', g', y) { assert OwnerAt(w, g, y); }
    forall b: nat ensures BatchAt(cfg, w', g', b) { assert BatchAt(cfg, w, g, b); }
    forall k: nat ensures FinalAt(cfg, w', g', k) { assert FinalAt(cfg, w, g, k); }
  }

  lemma InsertedKnown(cfg: Config, s: Books, x: nat, conn: nat, batch: Option<nat>, deadline: int)
    requires NumbersKnown(cfg, s.w, s.g) && x < |s.g.numbers| && conn < |s.w.counts|
    ensures var s' := SentBooks(s, s.g.numbers[x], x, conn, batch, deadline, true); NumbersKnown(cfg, s'.w, s'.g)
  {
    var s' := SentBooks(s, s.g.numbers[x], x, conn, batch, deadline, true);
    forall id | id in s'.w.inflight ensures FlownAt(s'.g, id) {
      if id in s.w.inflight { assert FlownAt(s.g, id); }
    }
  }

  /** What was numbered goes in flight, unless its number is in flight, or is counted as timed out at once. */
  lemma SentCoherent(cfg: Config, s: Books, x: nat, conn: nat, batch: Option<nat>, deadline: int, sent: bool)
    requires Coherent(cfg, s, if batch.Some? then Some(x) else None) && x < |s.g.numbers|
    requires sent ==> s.g.numbers[x] !in s.w.inflight
    requires batch.Some? ==> x in s.g.owner && s.g.owner[x] == batch.value
    requires batch.None? ==> x !in s.g.owner
    requires conn < |s.w.counts| && s.w.counts[conn] < cfg.cap
    ensures Coherent(cfg, SentBooks(s, s.g.numbers[x], x, conn, batch, deadline, sent), None)
  {
    var w, s' := s.w, SentBooks(s, s.g.numbers[x], x, conn, batch, deadline, sent);
    if sent {
      forall c: nat ensures CountAt(s'.w.inflight, s'.w.counts, cfg.cap, c) {
        assert CountAt(w.inflight, w.counts, cfg.cap, c);
        OnConnWith(w.inflight, s.g.numbers[x], Req(conn, batch, deadline), c);
      }
      InsertedKnown(cfg, s, x, conn, batch, deadline);
      InsertedOk(cfg, w, s'.w, s.g, s'.g, x, Req(conn, batch, deadline));
    } else if batch.Some? {
      CountedCoherent(cfg, s, x, batch.value, TIMED_OUT, Unsent);
    }
  }

  /** Sending keeps the counts right if and only if the request's number is not in flight already. */
  lemma CountsKeptIff(cfg: Config, s: Books, id: nat, x: nat, conn: nat, batch: Option<nat>, deadline: int)
    requires CountsOk(cfg, s.w) && conn < |s.w.counts| && s.w.counts[conn] < cfg.cap
    ensures CountsOk(cfg, SentBooks(s, id, x, conn, batch, deadline, true).w) <==> id !in s.w.inflight
  {
    var w, w', req := s.w, SentBooks(s, id, x, conn, batch, deadline, true).w, Req(conn, batch, deadline);
    assert CountAt(w.inflight, w.counts, cfg.cap, conn);
    if id in w.inflight {
      var was, others := w.inflight[id], w.inflight - {id};
      assert w'.inflight == others[id := req];
      OnConnWithout(w.inflight, id, conn);
      OnConnWith(others, id, req, conn);
      OnConnWithout(w.inflight, id, was.conn);
      OnConnWith(others, id, req, was.conn);
      assert CountAt(w.inflight, w.counts, cfg.cap, was.conn);
      assert CountsOk(cfg, w') ==>
             CountAt(w'.inflight, w'.counts, cfg.cap, conn) && CountAt(w'.inflight, w'.counts, cfg.cap, was.conn);
    } else {
      forall c: nat ensures CountAt(w'.inflight, w'.counts, cfg.cap, c) {
        assert CountAt(w.inflight, w.counts, cfg.cap, c);
        OnConnWith(w.inflight, id, req, c);
      }
    }
  }

  lemma OnlyTokensChanged(cfg: Config, s: Books, w': Worker, g': Log)
    requires Coherent(cfg, s, None) && (cfg.nConns > 0 ==> w'.nextRr < cfg.nConns)
    requires g' == s.g.(taken := g'.taken, turn := g'.turn, attempt := g'.attempt)
    requires w' == s.w.(record := w'.record, warmup := w'.warmup, nextRr := w'.nextRr)
    ensures Coherent(cfg, Books(w', g'), None)
  {
    forall x: nat ensures RequestAt(w', g', None, x) { assert RequestAt(s.w, s.g, None, x); }
    forall x: nat ensures OwnerAt(w', g', x) { assert OwnerAt(s.w, s.g, x); }
    forall b: nat ensures BatchAt(cfg, w', g', b) { assert BatchAt(cfg, s.w, s.g, b); }
    forall k: nat ensures FinalAt(cfg, w', g', k) { assert FinalAt(cfg, s.w, s.g, k); }
  }

  lemma SentBalanced(cfg: Config, s: Books, id: nat, x: nat, conn: nat, batch: Option<nat>, deadline: int, sent: bool)
    requires conn < |s.w.counts| && Balanced(s) && Coherent(cfg, SentBooks(s, id, x, conn, batch, deadline, sent), None)
    ensures Sound(cfg, SentBooks(s, id, x, conn, batch, deadline, sent))
  {}

  /** A spent token is numbered; if it was recorded so is its request. */
  lemma SpentThenRecorded(cfg: Config, s: Books, conn: nat, n: nat)
    requires Sound(cfg, s) && s.w.record + s.w.warmup > 0 && s.g.issued < M64 && conn < |s.w.counts|
    ensures var t, recorded := SpentBooks(s, conn, n), s.w.record > 0;
            && Coherent(cfg, t, None) && Balanced(RecordedBooks(cfg, t, recorded))
            && RecordedBooks(cfg, t, recorded).g.taken == s.g.taken
  {
    var t, recorded := SpentBooks(s, conn, n), s.w.record > 0;
    OnlyTokensChanged(cfg, s, t.w, t.g);
    RecordedCoherent(cfg, t, recorded);
  }

  /** There is a token, room on the connection, and a number that is not in flight if the request is sent. */
  predicate Issuable(cfg: Config, s: Books, conn: nat, sent: bool) {
    && s.w.record + s.w.warmup > 0 && s.g.issued < M64 && conn < |s.w.counts| && s.w.counts[conn] < cfg.cap
    && (sent ==> s.w.nextRequestId !in s.w.inflight)
  }

  /** One token becomes one request; a recorded token becomes a recorded request. */
  lemma IssuedSound(cfg: Config, s: Books, conn: nat, n: nat, deadline: int, sent: bool)
    requires Sound(cfg, s) && Issuable(cfg, s, conn, sent)
    ensures Sound(cfg, IssuedBooks(cfg, s, conn, n, deadline, sent))
    ensures IssuedBooks(cfg, s, conn, n, deadline, sent).g.taken == s.g.taken
  {
    var t, recorded := SpentBooks(s, conn, n), s.w.record > 0;
    var r, x, batch := RecordedBooks(cfg, t, recorded), t.g.issued, NextBatch(t, recorded);
    SpentThenRecorded(cfg, s, conn, n);
    RecordedCoherent(cfg, t, recorded);
    SentCoherent(cfg, r, x, conn, batch, deadline, sent);
    SentBalanced(cfg, r, t.w.nextRequestId, x, conn, batch, deadline, sent);
  }

  /** A recorded token is spent before any other; its request, and no other, is recorded; and the next connection's turn
      comes. */
  lemma RecordedFirst(cfg: Config, s: Books, conn: nat, n: nat, deadline: int, sent: bool)
    requires s.w.record + s.w.warmup > 0 && conn < |s.w.counts| && s.g.issued !in s.g.owner
    ensures var i := IssuedBooks(cfg, s, conn, n, deadline, sent);
            && (s.w.record > 0 ==> i.w.record == s.w.record - 1 && i.w.warmup == s.w.warmup)
            && (s.w.record == 0 ==> i.w.record == 0 && i.w.warmup == s.w.warmup - 1)
            && (s.g.issued in i.g.owner <==> s.w.record > 0)
            && i.w.nextRr == if conn + 1 == |s.w.counts| then 0 else conn + 1
  {}

  // ---------------------------------------------------------------- turns

  /** The connection found is the first below the cap, asking from the next in turn, round and round. */
  lemma {:induction false} FirstRoomIsFirst(counts: seq<nat>, nextRr: nat, cap: nat, step: nat) returns (k: nat)
    requires step <= |counts| && FirstRoom(counts, nextRr, cap, step).Some?
    ensures step <= k < |counts| && FirstRoom(counts, nextRr, cap, step) == Some((nextRr + k) % |counts|)
    ensures counts[(nextRr + k) % |counts|] < cap
    ensures forall j | step <= j < k :: counts[Turn(nextRr, j, |counts|)] >= cap
    decreases |counts| - step
  {
    if counts[Turn(nextRr, step, |counts|)] < cap {
      k := step;
    } else {
      k := FirstRoomIsFirst(counts, nextRr, cap, step + 1);
    }
  }

  /** Tokens are taken as long as there is room for them, and others only when all recorded ones have been. */
  lemma RefilledRight(s: Books, pendingCap: nat, round: Round)
    ensures var w, t := s.w, RefilledBooks(s, pendingCap, round);
            && w.record <= t.w.record <= w.record + round.recordQuota
            && w.warmup <= t.w.warmup <= w.warmup + round.warmupQuota
            && (t.w == w || t.w.record + t.w.warmup <= pendingCap)
            && (t.w.record < w.record + round.recordQuota ==>
                  t.w.record + t.w.warmup >= pendingCap && t.w.warmup == w.warmup)
            && (t.w.warmup < w.warmup + round.warmupQuota ==> t.w.record + t.w.warmup >= pendingCap)
            && t.g.taken - s.g.taken == t.w.record - w.record
  {}

  lemma {:induction false} NoRoomAt(counts: seq<nat>, nextRr: nat, cap: nat, step: nat, k: nat)
    requires step <= k < |counts| && FirstRoom(counts, nextRr, cap, step) == None
    ensures counts[Turn(nextRr, k, |counts|)] >= cap
    decreases |counts| - step
  {
    if step < k { NoRoomAt(counts, nextRr, cap, step + 1, k); }
  }

  ghost predicate Full(cfg: Config, w: Worker) { forall c: nat | c < |w.counts| :: w.counts[c] == cfg.cap }

  /** When no connection is found, every one is at its cap. */
  lemma NoRoomLeft(cfg: Config, s: Books)
    requires Sound(cfg, s) && FirstRoom(s.w.counts, s.w.nextRr, cfg.cap, 0) == None
    ensures Full(cfg, s.w)
  {
    forall c: nat | c < |s.w.counts| ensures s.w.counts[c] == cfg.cap {
      var k := EveryTurnComes(s.w.nextRr, c, cfg.nConns);
      NoRoomAt(s.w.counts, s.w.nextRr, cfg.cap, 0, k);
      assert CountAt(s.w.inflight, s.w.counts, cfg.cap, c);
    }
  }

  /** What every single issue keeps. */
  ghost predicate IssuesKeep(issue: Issuer, inv: Books -> bool) {
    forall s: Books, n: nat, send: Attempt {:trigger issue(s, n, send)} | inv(s) && issue(s, n, send).Some? ::
        inv(issue(s, n, send).value)
  }

  /** What the issues of a turn, from one to the next, keep. */
  ghost predicate SendsKeep(issue: Issuer, sends: nat -> Attempt, inv: (Books, nat) -> bool) {
    forall s: Books, n: nat {:trigger issue(s, n, sends(n))} | inv(s, n) && issue(s, n, sends(n)).Some? ::
        inv(issue(s, n, sends(n)).value, n + 1)
  }

  /** Every issue spends a token. */
  ghost predicate Spends(issue: Issuer) {
    forall s: Books, n: nat, send: Attempt {:trigger issue(s, n, send)} | issue(s, n, send).Some? ::
      issue(s, n, send).value.w.record + issue(s, n, send).value.w.warmup < s.w.record + s.w.warmup
  }

  /** What every issue keeps, issuing until nothing can be issued keeps. */
  lemma {:induction false} IssuedAllRuns(issue: Issuer, s: Books, sends: nat -> Attempt, n: nat,
                                         inv: (Books, nat) -> bool)
    returns (m: nat)
    requires inv(s, n) && SendsKeep(issue, sends, inv) && Spends(issue)
    ensures inv(IssuedAll(issue, s, sends, n), m) && issue(IssuedAll(issue, s, sends, n), m, sends(m)).None?
    decreases s.w.record + s.w.warmup
  {
    var next := issue(s, n, sends(n));
    if next.Some? {
      m := IssuedAllRuns(issue, next.value, sends, n + 1, inv);
    } else {
      m := n;
    }
  }

  lemma IssuedAllKeeps(issue: Issuer, s: Books, sends: nat -> Attempt, n: nat, inv: Books -> bool)
    requires inv(s) && IssuesKeep(issue, inv) && Spends(issue)
    ensures inv(IssuedAll(issue, s, sends, n))
    ensures exists m: nat, send: Attempt :: issue(IssuedAll(issue, s, sends, n), m, send).None?
  {
    var m := IssuedAllRuns(issue, s, sends, n, (t: Books, k: nat) => inv(t));
  }

  lemma IssuesSpend(cfg: Config, timeout: nat)
    ensures Spends(Issuing(cfg, timeout))
  {
    var issue := Issuing(cfg, timeout);
    forall s: Books, n: nat, send: Attempt {:trigger issue(s, n, send)} | issue(s, n, send).Some?
      ensures issue(s, n, send).value.w.record + issue(s, n, send).value.w.warmup < s.w.record + s.w.warmup
    {
      assert issue(s, n, send) == NextIssue(cfg, s, timeout, n, send);
    }
  }

  /** The invariant, with this many recorded tokens taken. */
  ghost function SoundWith(cfg: Config, taken: nat): Books -> bool { (s: Books) => Sound(cfg, s) && s.g.taken == taken }

  /** What a request put on a connection with room, under a number not in flight, keeps. */
  ghost predicate RequestsKeep(cfg: Config, inv: Books -> bool) {
    forall s: Books, conn: nat, n: nat, deadline: int, sent: bool | inv(s) && Issuable(cfg, s, conn, sent) ::
      inv(IssuedBooks(cfg, s, conn, n, deadline, sent))
  }

  lemma NextIssueKeeps(cfg: Config, s: Books, timeout: nat, n: nat, send: Attempt, inv: Books -> bool)
    requires inv(s) && RequestsKeep(cfg, inv) && s.g.issued < M64
    ensures var next := NextIssue(cfg, s, timeout, n, send);
            next.Some? && next.value.g.clashes == s.g.clashes ==> inv(next.value)
  {
    var next := NextIssue(cfg, s, timeout, n, send);
    if next.Some? && next.value.g.clashes == s.g.clashes {
      assert Issuable(cfg, s, FirstRoom(s.w.counts, s.w.nextRr, cfg.cap, 0).value, send.ok);
    }
  }

  lemma SoundIsKept(cfg: Config, taken: nat)
    ensures RequestsKeep(cfg, SoundWith(cfg, taken))
  {
    var inv := SoundWith(cfg, taken);
    forall s: Books, conn: nat, n: nat, deadline: int, sent: bool | inv(s) && Issuable(cfg, s, conn, sent)
      ensures inv(IssuedBooks(cfg, s, conn, n, deadline, sent))
    {
      IssuedStands(cfg, s, conn, n, deadline, sent);
    }
  }

  lemma IssuedStands(cfg: Config, s: Books, conn: nat, n: nat, deadline: int, sent: bool)
    requires Sound(cfg, s) && Issuable(cfg, s, conn, sent)
    ensures SoundWith(cfg, s.g.taken)(IssuedBooks(cfg, s, conn, n, deadline, sent))
  {
    IssuedSound(cfg, s, conn, n, deadline, sent);
  }

  /** No request went in flight under a number in flight, and batch numbers have not run out. */
  predicate Apart(g: Log) { g.clashes == 0 && g.issued <= M64 }

  /** While numbers keep apart, tokens become requests until none is left or every connection is full. */
  lemma IssuedAllSound(cfg: Config, s: Books, timeout: nat, sends: nat -> Attempt)
    requires Sound(cfg, s) && Apart(IssuedAll(Issuing(cfg, timeout), s, sends, 0).g)
    ensures var s' := IssuedAll(Issuing(cfg, timeout), s, sends, 0);
            Sound(cfg, s') && s'.g.taken == s.g.taken && (s'.w.record + s'.w.warmup == 0 || Full(cfg, s'.w))
  {
    var issue, sound := Issuing(cfg, timeout), SoundWith(cfg, s.g.taken);
    SoundIsKept(cfg, s.g.taken);
    var inv := (t: Books) => Apart(t.g) ==> sound(t);
    forall t: Books, n: nat, send: Attempt {:trigger issue(t, n, send)} | inv(t) && issue(t, n, send).Some?
      ensures inv(issue(t, n, send).value)
    {
      if Apart(issue(t, n, send).value.g) { NextIssueKeeps(cfg, t, timeout, n, send, sound); }
    }
    IssuedAllKeeps(issue, s, sends, 0, inv);
    var s' := IssuedAll(issue, s, sends, 0);
    var n: nat, send: Attempt :| issue(s', n, send).None?;
    if s'.w.record + s'.w.warmup > 0 { NoRoomLeft(cfg, s'); }
  }

  /** Issuing turns tokens into requests, one by one. */
  lemma IssuedAllCounts(cfg: Config, s: Books, timeout: nat, sends: nat -> Attempt)
    ensures var s' := IssuedAll(Issuing(cfg, timeout), s, sends, 0);
            s'.g.issued >= s.g.issued && s'.g.clashes >= s.g.clashes && Ahead(s') == Ahead(s)
  {
    var issue := Issuing(cfg, timeout);
    var inv := (t: Books) => t.g.issued >= s.g.issued && t.g.clashes >= s.g.clashes && Ahead(t) == Ahead(s);
    forall t: Books, n: nat, send: Attempt {:trigger issue(t, n, send)} | inv(t) && issue(t, n, send).Some?
      ensures inv(issue(t, n, send).value)
    {
      assert issue(t, n, send) == NextIssue(cfg, t, timeout, n, send);
    }
    IssuedAllKeeps(issue, s, sends, 0, inv);
  }

  /** Requests issued, and tokens to be issued. */
  function Ahead(s: Books): nat { s.g.issued + s.w.record + s.w.warmup }

  lemma WholeTurnCounts(cfg: Config, s: Books, drain: Option<int>, timeout: nat, round: Round)
    ensures var t := TurnBooks(cfg, s, timeout, round);
            && t.g.issued >= s.g.issued && t.g.clashes >= s.g.clashes
            && Ahead(t) <= Ahead(s) + round.recordQuota + round.warmupQuota
    ensures var t, s' := TurnBooks(cfg, s, timeout, round), WholeTurn(cfg, s, drain, timeout, round).0;
            s'.g.FlightsAs(t.g) && Ahead(s') == Ahead(t)
  {
    IssuedAllCounts(cfg, RepliedBooks(RefilledBooks(s, PendingCap(cfg), round), round.answers, false, 0), timeout,
        round.sends);
  }

  /** No more requests are issued than tokens were offered. */
  lemma {:induction false} RunCounts(cfg: Config, s: Books, drain: Option<int>, timeout: nat, rounds: seq<Round>,
                                     k: nat)
    requires k <= |rounds|
    ensures Ahead(RunFrom(Turning(cfg, timeout), s, drain, rounds, k).0) <= Ahead(s) + Offered(rounds, k)
    decreases |rounds| - k
  {
    if k == |rounds| {
    } else {
      var (s', drain', ended) := Turning(cfg, timeout)(s.AtTurn(k), drain, rounds[k]);
      WholeTurnCounts(cfg, s.AtTurn(k), drain, timeout, rounds[k]);
      if !ended { RunCounts(cfg, s', drain', timeout, rounds, k + 1); }
    }
  }

  /** Locally wait at most eight tokens for each request the connections may hold, and always at least one. */
  lemma PendingCapIs(cfg: Config)
    ensures PendingCap(cfg) >= 1 && PendingCap(cfg) >= 8 * (cfg.nConns * cfg.cap)
    ensures PendingCap(cfg) == 1 || PendingCap(cfg) == 8 * (cfg.nConns * cfg.cap)
  {}

  lemma RefilledSound(cfg: Config, s: Books, round: Round)
    requires Sound(cfg, s)
    ensures Sound(cfg, RefilledBooks(s, PendingCap(cfg), round))
  {
    var s' := RefilledBooks(s, PendingCap(cfg), round);
    OnlyTokensChanged(cfg, s, s'.w, s'.g);
  }

  /** A turn keeps the invariant, and leaves nothing overdue. */
  lemma TurnSound(cfg: Config, s: Books, timeout: nat, round: Round)
    requires Sound(cfg, s) && Picks(round.first) && Apart(TurnBooks(cfg, s, timeout, round).g)
    ensures var s' := TurnBooks(cfg, s, timeout, round);
            Sound(cfg, s') && forall id | id in s'.w.inflight :: round.now < s'.w.inflight[id].deadline
  {
    var f := RefilledBooks(s, PendingCap(cfg), round);
    var r := RepliedBooks(f, round.answers, false, 0);
    var i := IssuedAll(Issuing(cfg, timeout), r, round.sends, 0);
    RefilledSound(cfg, s, round);
    RepliedSound(cfg, f, round.answers, false, 0);
    IssuedAllSound(cfg, r, timeout, round.sends);
    ExpiredSound(cfg, i, Overdue(i.w, round.now), round.first);
  }

  // ---------------------------------------------------------------- the end

  /** Nothing is left: every recorded token taken became a request that was counted, once, in the one batch
      it belongs to; each batch was finalised once, and all but the last were full. */
  ghost predicate Closed(cfg: Config, s: Books) {
    var w, g := s.w, s.g;
    && cfg.Valid() && w.inflight == map[] && w.batches == map[] && |g.owner| + w.record == g.taken
    && g.settled == g.owner.Keys && |g.told| == |g.owner|
    && (forall x | x in g.owner :: g.owner[x] in g.finals)
    && (forall k | 0 <= k < |g.told| :: g.told[k].batch in g.finals)
    && |w.done| == |g.finals| && (forall j, k | 0 <= j < k < |g.finals| :: g.finals[j] != g.finals[k])
    && (forall k: nat :: ClosedAt(cfg, w, g, k))
  }

  ghost predicate ClosedAt(cfg: Config, w: Worker, g: Log, k: nat) {
    k < |w.done| && k < |g.finals| ==>
      && SaysTold(w.done[k], g.told, g.finals[k])
      && CountTold(g.told, g.finals[k]) == |Members(g.owner, g.finals[k])|
      && 0 < |Members(g.owner, g.finals[k])| <= cfg.batchSize
      && (k + 1 < |g.finals| ==> |Members(g.owner, g.finals[k])| == cfg.batchSize)
  }

  lemma NothingUnsettled(cfg: Config, w: Worker, g: Log)
    requires BatchesOk(cfg, w, g, None) && w.inflight == map[]
    ensures g.settled == g.owner.Keys
    ensures forall b: nat :: Unsettled(g.owner, g.settled, b) == {}
    ensures w.batches.Keys == if w.openBatch.Some? then {w.openBatch.value} else {}
  {
    forall x: nat ensures x in g.settled <==> x in g.owner { assert RequestAt(w, g, None, x); }
    forall b: nat ensures Unsettled(g.owner, g.settled, b) == {} {}
    forall b | b in w.batches ensures w.openBatch == Some(b) { assert BatchAt(cfg, w, g, b); }
  }

  lemma ClosedOk(cfg: Config, s: Books, s': Books)
    requires Sound(cfg, s) && s.w.inflight == map[] == s'.w.inflight && s'.w.batches == map[]
             && s'.w.record == s.w.record
    requires if s.w.openBatch.None? then s'.g == s.g && s'.w.done == s.w.done
             else
               var b := s.w.openBatch.value;
               s'.g == s.g.(finals := s.g.finals + [b]) && s'.w.done == s.w.done + [s.w.batches[b].(sealed := true)]
    ensures Closed(cfg, s')
  {
    NothingUnsettled(cfg, s.w, s.g);
    if s.w.openBatch.Some? { assert BatchAt(cfg, s.w, s.g, s.w.openBatch.value); }
    var b := if s.w.openBatch.Some? then s.w.openBatch.value else 0;
    forall x | x in s.g.owner ensures s.g.owner[x] in s'.g.finals {
      assert OwnerAt(s.w, s.g, x);
      StillFinal(s.g.finals, s'.g.finals, b, s.g.owner[x]);
    }
    forall k | 0 <= k < |s.g.told| ensures s.g.told[k].batch in s'.g.finals {
      StillFinal(s.g.finals, s'.g.finals, b, s.g.told[k].batch);
    }
    forall k: nat ensures ClosedAt(cfg, s'.w, s'.g, k) { assert FinalAt(cfg, s.w, s.g, k); }
  }

  /** With nothing in flight, closing finalises the open batch and leaves no batch. */
  lemma ClosedSound(cfg: Config, s: Books, first: set<nat> -> nat)
    requires Sound(cfg, s) && s.w.inflight == map[]
    ensures Closed(cfg, ClosedBooks(s, first))
  {
    NothingUnsettled(cfg, s.w, s.g);
    if s.w.openBatch.Some? {
      var b := s.w.openBatch.value;
      assert BatchAt(cfg, s.w, s.g, b);
      var o := SealedBooks(s.(w := s.w.(openBatch := None)), b);
      assert o.w.batches == map[];
    }
    ClosedOk(cfg, s, ClosedBooks(s, first));
  }

  /** What holds of the books while the loop runs, and after it ended. */
  ghost function Stands(cfg: Config): (Books, bool) -> bool {
    (s: Books, ended: bool) => if ended then Closed(cfg, s) && s.w.record == 0 else Sound(cfg, s)
  }

  lemma EndedStands(cfg: Config, t: Books, round: Round)
    requires Sound(cfg, t) && Picks(round.first) && t.w.record == 0
    ensures t.w.inflight == map[] ==> Stands(cfg)(ClosedBooks(t, round.first), true)
    ensures Stands(cfg)(ClosedBooks(ExpiredBooks(t, t.w.inflight.Keys, round.first), round.first), true)
  {
    if t.w.inflight == map[] { ClosedSound(cfg, t, round.first); }
    ExpiredSound(cfg, t, t.w.inflight.Keys, round.first);
    ClosedSound(cfg, ExpiredBooks(t, t.w.inflight.Keys, round.first), round.first);
  }

  /** A turn ends the loop exactly when no token is left to come or to issue and either nothing is in flight or draining
      has lasted the timeout and a tenth of a second. */
  lemma LoopEndsIff(cfg: Config, s: Books, drain: Option<int>, timeout: nat, round: Round)
    ensures var t := TurnBooks(cfg, s, timeout, round);
            var out := round.quotaEmpty && t.w.record == 0 && t.w.warmup == 0;
            var start := if drain.Some? then drain.value else round.drainNow;
            var (s', drain', ended) := WholeTurn(cfg, s, drain, timeout, round);
            && (ended <==> out && ((round.pacerDone && t.w.inflight == map[]) ||
                                   (round.pacerDoneStill && round.drainCheck >= start + timeout + 100)))
            && (!ended ==> drain' == if out && round.pacerDoneStill then Some(start) else None)
  {}

  /** A turn keeps the invariant; when it ends the loop nothing is left. */
  lemma WholeTurnSound(cfg: Config, s: Books, drain: Option<int>, timeout: nat, round: Round)
    requires Sound(cfg, s) && Picks(round.first) && Apart(WholeTurn(cfg, s, drain, timeout, round).0.g)
    ensures var (s', drain', ended) := WholeTurn(cfg, s, drain, timeout, round); Stands(cfg)(s', ended)
  {
    var t := TurnBooks(cfg, s, timeout, round);
    WholeTurnCounts(cfg, s, drain, timeout, round);
    TurnSound(cfg, s, timeout, round);
    RepliedSound(cfg, t, round.late, true, 0);
    assert Stands(cfg)(RepliedBooks(t, round.late, true, 0), false);
    if NoTokens(t.w, round) { EndedStands(cfg, t, round); }
  }

  lemma AtTurnSound(cfg: Config, s: Books, k: nat)
    requires Sound(cfg, s)
    ensures Sound(cfg, s.AtTurn(k))
  {
    OnlyTokensChanged(cfg, s, s.w, s.AtTurn(k).g);
  }

  /** What every turn keeps. */
  ghost predicate TurnsKeep(turn: Turner, rounds: seq<Round>, inv: (Books, bool) -> bool) {
    forall s: Books, drain: Option<int>, k: nat {:trigger turn(s.AtTurn(k), drain, rounds[k])}
      | k < |rounds| && inv(s, false) ::
      inv(turn(s.AtTurn(k), drain, rounds[k]).0, turn(s.AtTurn(k), drain, rounds[k]).2)
  }

  /** What every turn keeps, a run keeps. */
  lemma {:induction false} RunKeeps(turn: Turner, s: Books, drain: Option<int>, rounds: seq<Round>, k: nat,
                                    inv: (Books, bool) -> bool)
    requires inv(s, false) && TurnsKeep(turn, rounds, inv) && k <= |rounds|
    ensures inv(RunFrom(turn, s, drain, rounds, k).0, RunFrom(turn, s, drain, rounds, k).1)
    decreases |rounds| - k
  {
    if k == |rounds| {
    } else {
      var (s', drain', ended) := turn(s.AtTurn(k), drain, rounds[k]);
      if !ended { RunKeeps(turn, s', drain', rounds, k + 1, inv); }
    }
  }

  /** The orders in which hash maps give their keys are orders. */
  ghost predicate AllPick(rounds: seq<Round>) { forall k | 0 <= k < |rounds| :: Picks(rounds[k].first) }

  /** Over any environment, while numbers keep apart, the invariant holds of the worker and of what has
      happened to it, and when the loop ends by itself nothing is left. */
  lemma RunSound(cfg: Config, workerId: nat, timeout: nat, rounds: seq<Round>)
    requires cfg.Valid() && AllPick(rounds) && Apart(Run(cfg, workerId, timeout, rounds).0.g)
    ensures var (s, exited) := Run(cfg, workerId, timeout, rounds);
            if exited then Closed(cfg, s) && s.w.record == 0 else Sound(cfg, s)
  {
    var turn := Turning(cfg, timeout);
    var stands := Stands(cfg);
    var inv := (s: Books, ended: bool) => Apart(s.g) ==> stands(s, ended);
    forall s: Books, drain: Option<int>, k: nat {:trigger turn(s.AtTurn(k), drain, rounds[k])}
      | k < |rounds| && inv(s, false)
      ensures inv(turn(s.AtTurn(k), drain, rounds[k]).0, turn(s.AtTurn(k), drain, rounds[k]).2)
    {
      WholeTurnCounts(cfg, s.AtTurn(k), drain, timeout, rounds[k]);
      if Apart(WholeTurn(cfg, s.AtTurn(k), drain, timeout, rounds[k]).0.g) {
        assert Apart(s.g) && Sound(cfg, s);
        AtTurnSound(cfg, s, k);
        WholeTurnSound(cfg, s.AtTurn(k), drain, timeout, rounds[k]);
      }
    }
    InitialSound(cfg, workerId);
    RunKeeps(turn, Initial(cfg, workerId), None, rounds, 0, inv);
  }

  lemma RunStands(cfg: Config, workerId: nat, timeout: nat, rounds: seq<Round>)
    requires AllPick(rounds)
    ensures var (s, exited) := Run(cfg, workerId, timeout, rounds);
            cfg.Valid() && Apart(s.g) ==> Stands(cfg)(s, exited)
  {
    if cfg.Valid() && Apart(Run(cfg, workerId, timeout, rounds).0.g) {
      RunSound(cfg, workerId, timeout, rounds);
    }
  }

  lemma InitialSound(cfg: Config, workerId: nat)
    requires cfg.Valid()
    ensures Sound(cfg, Initial(cfg, workerId))
  {
    var w := Initial(cfg, workerId).w;
    forall c: nat ensures CountAt(w.inflight, w.counts, cfg.cap, c) { assert OnConn(w.inflight, c) == {}; }
  }

  // ---------------------------------------------------------------- accounts of a whole run

  /** The recorded requests of the first `n` finalised batches. */
  ghost function InFirst(owner: map<nat, nat>, finals: seq<nat>, n: nat): set<nat>
    requires n <= |finals|
  {
    set x | x in owner && owner[x] in finals[..n]
  }

  ghost predicate Distinct(finals: seq<nat>) { forall j, k | 0 <= j < k < |finals| :: finals[j] != finals[k] }

  lemma OneMoreFinal(owner: map<nat, nat>, finals: seq<nat>, n: nat)
    requires n < |finals| && Distinct(finals)
    ensures |InFirst(owner, finals, n + 1)| == |InFirst(owner, finals, n)| + |Members(owner, finals[n])|
  {
    var before, own := InFirst(owner, finals, n), Members(owner, finals[n]);
    assert finals[..n + 1] == finals[..n] + [finals[n]];
    assert InFirst(owner, finals, n + 1) == before + own;
    assert before !! own;
  }

  /** While batches are full, so many requests are in the first of them. */
  lemma {:induction false} FullSizes(owner: map<nat, nat>, finals: seq<nat>, size: nat, n: nat)
    requires n <= |finals| && Distinct(finals) && forall k | 0 <= k < n :: |Members(owner, finals[k])| == size
    ensures |InFirst(owner, finals, n)| == n * size
  {
    if n == 0 {
      assert InFirst(owner, finals, 0) == {};
    } else {
      FullSizes(owner, finals, size, n - 1);
      OneMoreFinal(owner, finals, n - 1);
    }
  }

  /** How many of `total` requests are left for batch `k` when those before it are full. */
  function Share(total: nat, size: nat, k: nat): nat { if total < k * size then 0 else Least(size, total - k * size) }

  lemma ShareOf(total: nat, size: nat, m: nat, last: nat, k: nat)
    requires m > k && total == (m - 1) * size + last && 0 < last <= size
    ensures Share(total, size, k) == if k + 1 < m then size else last
    ensures total <= m * size
  {
    var left: nat := m - 1 - k;
    Distribute(k, left, size);
    Distribute(m - 1, 1, size);
    if k + 1 < m { Distribute(1, left - 1, size); }
  }

  lemma Distribute(a: nat, b: nat, c: nat)
    ensures (a + b) * c == a * c + b * c
  {}

  /** The sizes of the finalised batches follow from the number of requests. */
  lemma ClosedSizes(cfg: Config, s: Books)
    requires Closed(cfg, s)
    ensures |s.g.owner| <= |s.w.done| * cfg.batchSize
    ensures forall k: nat | k < |s.w.done| ::
              |Members(s.g.owner, s.g.finals[k])| == Share(|s.g.owner|, cfg.batchSize, k) > 0
  {
    var owner, finals, m := s.g.owner, s.g.finals, |s.g.finals|;
    assert InFirst(owner, finals, m) == owner.Keys by { assert finals[..m] == finals; }
    if m == 0 {
      assert owner.Keys == {};
    } else {
      forall k: nat ensures ClosedAt(cfg, s.w, s.g, k) {}
      forall k | 0 <= k < m - 1 ensures |Members(owner, finals[k])| == cfg.batchSize {
        assert ClosedAt(cfg, s.w, s.g, k);
      }
      assert ClosedAt(cfg, s.w, s.g, m - 1);
      FullSizes(owner, finals, cfg.batchSize, m - 1);
      OneMoreFinal(owner, finals, m - 1);
      ShareEach(owner, finals, cfg.batchSize);
    }
  }

  lemma ShareEach(owner: map<nat, nat>, finals: seq<nat>, size: nat)
    requires |finals| > 0 && |owner| == (|finals| - 1) * size + |Members(owner, finals[|finals| - 1])|
    requires 0 < |Members(owner, finals[|finals| - 1])| <= size
    requires forall k | 0 <= k < |finals| - 1 :: |Members(owner, finals[k])| == size
    ensures |owner| <= |finals| * size
    ensures forall k: nat | k < |finals| :: |Members(owner, finals[k])| == Share(|owner|, size, k) > 0
  {
    var m, last := |finals|, |Members(owner, finals[|finals| - 1])|;
    ShareOf(|owner|, size, m, last, 0);
    forall k: nat | k < m ensures |Members(owner, finals[k])| == Share(|owner|, size, k) > 0 {
      ShareOf(|owner|, size, m, last, k);
    }
  }

  /** What all responses counted add to a counter. */
  function AllRows(told: seq<Told>, kind: Kind): nat {
    if |told| == 0 then 0
    else AllRows(told[..|told| - 1], kind) + Adds(told[|told| - 1].r, kind)
  }

  /** What the counters of the first `n` finalised batches add up to. */
  function SumFields(done: seq<Batch>, kind: Kind, n: nat): nat
    requires n <= |done|
  {
    if n == 0 then 0 else SumFields(done, kind, n - 1) + Field(done[n - 1], kind)
  }

  function SumTold(told: seq<Told>, finals: seq<nat>, kind: Kind, n: nat): nat
    requires n <= |finals|
  {
    if n == 0 then 0 else SumTold(told, finals, kind, n - 1) + RowsTold(told, finals[n - 1], kind)
  }

  lemma {:induction false} SumToldNothing(finals: seq<nat>, kind: Kind, n: nat)
    requires n <= |finals|
    ensures SumTold([], finals, kind, n) == 0
  {
    if n > 0 { SumToldNothing(finals, kind, n - 1); }
  }

  /** A response is counted in at most one of the batches. */
  lemma {:induction false} SumToldMore(told: seq<Told>, t: Told, finals: seq<nat>, kind: Kind, n: nat)
    requires n <= |finals| && Distinct(finals)
    ensures SumTold(told + [t], finals, kind, n) ==
            SumTold(told, finals, kind, n) + if t.batch in finals[..n] then Adds(t.r, kind) else 0
  {
    if n == 0 {
    } else {
      SumToldMore(told, t, finals, kind, n - 1);
      OneMoreTold(told, t, finals[n - 1]);
      assert finals[..n] == finals[..n - 1] + [finals[n - 1]];
    }
  }

  lemma {:induction false} SumToldAll(told: seq<Told>, finals: seq<nat>, kind: Kind)
    requires Distinct(finals) && forall k | 0 <= k < |told| :: told[k].batch in finals
    ensures SumTold(told, finals, kind, |finals|) == AllRows(told, kind)
  {
    if |told| == 0 {
      SumToldNothing(finals, kind, |finals|);
    } else {
      var front, t := told[..|told| - 1], told[|told| - 1];
      SumToldAll(front, finals, kind);
      SumToldMore(front, t, finals, kind, |finals|);
      assert told == front + [t] && finals[..|finals|] == finals;
    }
  }

  lemma {:induction false} FieldsTold(cfg: Config, s: Books, kind: Kind, n: nat)
    requires Closed(cfg, s) && n <= |s.w.done|
    ensures SumFields(s.w.done, kind, n) == SumTold(s.g.told, s.g.finals, kind, n)
  {
    if n == 0 {
    } else {
      FieldsTold(cfg, s, kind, n - 1);
      assert ClosedAt(cfg, s.w, s.g, n - 1);
    }
  }

  /** Every response counted is in exactly one finalised batch: the counters add up to the rows told. */
  lemma ClosedRows(cfg: Config, s: Books, kind: Kind)
    requires Closed(cfg, s)
    ensures SumFields(s.w.done, kind, |s.w.done|) == AllRows(s.g.told, kind)
  {
    FieldsTold(cfg, s, kind, |s.w.done|);
    SumToldAll(s.g.told, s.g.finals, kind);
  }

  /** Request numbers last while fewer tokens are offered than there are numbers. */
  lemma NumbersLast(cfg: Config, workerId: nat, timeout: nat, rounds: seq<Round>)
    ensures Run(cfg, workerId, timeout, rounds).0.g.issued <= Offered(rounds, 0)
  {
    RunCounts(cfg, Initial(cfg, workerId), None, timeout, rounds, 0);
  }
}
