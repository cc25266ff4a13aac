/** Request numbers are 32-bit words: over any run the HTTP/2 worker's connection counts are right if and only
    if no request went in flight under a number in flight, and there are runs in which one does. */
module H2Numbers {
  import opened Forest
  import opened H2Accounting

  // ---------------------------------------------------------------- sums over connections

  function SumTo(counts: seq<nat>, n: nat): nat
    requires n <= |counts|
  {
    if n == 0 then 0 else SumTo(counts, n - 1) + counts[n - 1]
  }

  lemma {:induction false} SumChanged(counts: seq<nat>, c: nat, v: nat, n: nat)
    requires c < |counts| && n <= |counts|
    ensures SumTo(counts[c := v], n) + (if c < n then counts[c] else 0) == SumTo(counts, n) + if c < n then v else 0
  {
    if n == 0 {
    } else {
      SumChanged(counts, c, v, n - 1);
    }
  }

  /** The requests in flight on the first `n` connections. */
  ghost function OnFirst(inflight: map<nat, Req>, n: nat): set<nat> { set id | id in inflight && inflight[id].conn < n }

  ghost function SumOn(inflight: map<nat, Req>, n: nat): nat {
    if n == 0 then 0 else SumOn(inflight, n - 1) + |OnConn(inflight, n - 1)|
  }

  lemma {:induction false} SumOnIs(inflight: map<nat, Req>, n: nat)
    ensures SumOn(inflight, n) == |OnFirst(inflight, n)|
  {
    if n == 0 {
      assert OnFirst(inflight, 0) == {};
    } else {
      SumOnIs(inflight, n - 1);
      var before, own := OnFirst(inflight, n - 1), OnConn(inflight, n - 1);
      assert OnFirst(inflight, n) == before + own && before !! own;
    }
  }

  lemma AllOnConns(inflight: map<nat, Req>, n: nat)
    requires forall id | id in inflight :: inflight[id].conn < n
    ensures SumOn(inflight, n) == |inflight|
  {
    SumOnIs(inflight, n);
    assert OnFirst(inflight, n) == inflight.Keys;
  }

  /** No count is below the number of requests in flight on its connection. */
  ghost predicate AtLeastOn(inflight: map<nat, Req>, counts: seq<nat>) {
    forall c | 0 <= c < |counts| :: |OnConn(inflight, c)| <= counts[c]
  }

  /** Then all counts are right if and only if their sum is. */
  lemma {:induction false} SumsTell(inflight: map<nat, Req>, counts: seq<nat>, n: nat)
    requires n <= |counts| && AtLeastOn(inflight, counts)
    ensures SumOn(inflight, n) <= SumTo(counts, n)
    ensures SumOn(inflight, n) == SumTo(counts, n) <==> forall c | 0 <= c < n :: counts[c] == |OnConn(inflight, c)|
  {
    if n == 0 {
    } else {
      SumsTell(inflight, counts, n - 1);
      assert |OnConn(inflight, n - 1)| <= counts[n - 1];
    }
  }

  // ---------------------------------------------------------------- what every step keeps

  ghost predicate CountsRight(w: Worker) { forall c | 0 <= c < |w.counts| :: w.counts[c] == |OnConn(w.inflight, c)| }

  /** The counts add up to the requests in flight and the clashes. */
  ghost predicate Weighed(cfg: Config, s: Books) {
    && |s.w.counts| == cfg.nConns && (forall id | id in s.w.inflight :: s.w.inflight[id].conn < cfg.nConns)
    && AtLeastOn(s.w.inflight, s.w.counts) && SumTo(s.w.counts, cfg.nConns) == |s.w.inflight| + s.g.clashes
  }

  /** Besides, numbers are known, and there is no clash until they repeat. */
  ghost predicate Tracked(cfg: Config, s: Books) {
    NumbersKnown(cfg, s.w, s.g) && Weighed(cfg, s) && (s.g.issued <= M32 ==> s.g.clashes == 0)
  }

  lemma TrackedTells(cfg: Config, s: Books)
    requires Tracked(cfg, s)
    ensures CountsRight(s.w) <==> s.g.clashes == 0
  {
    AllOnConns(s.w.inflight, cfg.nConns);
    SumsTell(s.w.inflight, s.w.counts, cfg.nConns);
  }

  /** Only what is in flight and how it is counted matters. */
  lemma SameTracked(cfg: Config, s: Books, s': Books)
    requires Tracked(cfg, s) && s'.g.FlightsAs(s.g) && s'.w.nextRequestId == s.w.nextRequestId
    requires s'.w.inflight == s.w.inflight && s'.w.counts == s.w.counts
    ensures Tracked(cfg, s')
  {
    forall id | id in s'.w.inflight ensures FlownAt(s'.g, id) { assert FlownAt(s.g, id); }
  }

  lemma InitialTracked(cfg: Config, workerId: nat)
    requires cfg.Valid()
    ensures Tracked(cfg, Initial(cfg, workerId))
  {
    var w := Initial(cfg, workerId).w;
    forall c | 0 <= c < |w.counts| ensures |OnConn(w.inflight, c)| <= w.counts[c] {
      assert OnConn(w.inflight, c) == {};
    }
    ZeroSum(w.counts, cfg.nConns);
    assert Wrapped(cfg.firstRequest, 0, M32) == cfg.firstRequest;
  }

  lemma {:induction false} ZeroSum(counts: seq<nat>, n: nat)
    requires n <= |counts| && forall c | 0 <= c < n :: counts[c] == 0
    ensures SumTo(counts, n) == 0
  {
    if n == 0 {
    } else {
      ZeroSum(counts, n - 1);
    }
  }

  lemma GoneAtLeast(inflight: map<nat, Req>, counts: seq<nat>, id: nat)
    requires AtLeastOn(inflight, counts) && id in inflight && inflight[id].conn < |counts|
    ensures var c := inflight[id].conn;
            counts[c] > 0 && AtLeastOn(inflight - {id}, counts[c := counts[c] - 1])
  {
    var conn := inflight[id].conn;
    assert id in OnConn(inflight, conn);
    forall c | 0 <= c < |counts|
      ensures |OnConn(inflight - {id}, c)| <= counts[conn := counts[conn] - 1][c]
    {
      OnConnWithout(inflight, id, c);
    }
  }

  lemma RemovedWeighed(cfg: Config, s: Books, id: nat)
    requires Weighed(cfg, s) && id in s.w.inflight
    ensures Weighed(cfg, s.(w := Removed(s.w, id)))
  {
    var conn := s.w.inflight[id].conn;
    GoneAtLeast(s.w.inflight, s.w.counts, id);
    SumChanged(s.w.counts, conn, s.w.counts[conn] - 1, cfg.nConns);
    assert (s.w.inflight - {id}).Keys == s.w.inflight.Keys - {id};
  }

  lemma RemovedTracked(cfg: Config, s: Books, id: nat)
    requires Tracked(cfg, s) && id in s.w.inflight
    ensures Tracked(cfg, s.(w := Removed(s.w, id)))
  {
    RemovedWeighed(cfg, s, id);
    forall x | x in Removed(s.w, id).inflight ensures FlownAt(s.g, x) { assert x in s.w.inflight; }
  }

  lemma AnsweredTracked(cfg: Config, s: Books, id: nat, r: Response, source: Source)
    requires Tracked(cfg, s)
    ensures Tracked(cfg, AnsweredBooks(s, id, r, source))
  {
    if id in s.w.inflight {
      var t := s.(w := Removed(s.w, id));
      RemovedTracked(cfg, s, id);
      SameTracked(cfg, t, AnsweredBooks(s, id, r, source));
    }
  }

  lemma {:induction false} RepliedTracked(cfg: Config, s: Books, answers: seq<(nat, Response)>, late: bool, k: nat)
    requires Tracked(cfg, s) && k <= |answers|
    ensures Tracked(cfg, RepliedBooks(s, answers, late, k))
    decreases |answers| - k
  {
    if k == |answers| {
    } else {
      AnsweredTracked(cfg, s, answers[k].0, answers[k].1, Reply(s.g.turn, k, late));
      RepliedTracked(cfg, AnsweredBooks(s, answers[k].0, answers[k].1, Reply(s.g.turn, k, late)), answers, late, k + 1);
    }
  }

  lemma {:induction false} ExpiredTracked(cfg: Config, s: Books, ids: set<nat>, first: set<nat> -> nat)
    requires Tracked(cfg, s)
    ensures Tracked(cfg, ExpiredBooks(s, ids, first))
    decreases |ids|
  {
    if first(ids) !in ids {
    } else {
      AnsweredTracked(cfg, s, first(ids), TIMED_OUT, Expired(s.g.turn));
      ExpiredTracked(cfg, AnsweredBooks(s, first(ids), TIMED_OUT, Expired(s.g.turn)), ids - {first(ids)}, first);
    }
  }

  /** Until as many requests as words have been numbered, the next number is not in flight. */
  lemma NextIsFree(cfg: Config, w: Worker, g: Log)
    requires cfg.Valid() && NumbersKnown(cfg, w, g) && g.issued < M32
    ensures w.nextRequestId !in w.inflight
  {
    if w.nextRequestId in w.inflight {
      assert FlownAt(g, w.nextRequestId);
      SmallWrap(cfg.firstRequest, g.issued, M32);
      SmallWrap(cfg.firstRequest, g.serial[w.nextRequestId], M32);
    }
  }

  lemma NumberedTracked(cfg: Config, s: Books, recorded: bool)
    requires Tracked(cfg, s)
    ensures var s' := RecordedBooks(cfg, s, recorded);
            && NumbersKnown(cfg, s'.w, s'.g) && s'.w.counts == s.w.counts && s'.w.inflight == s.w.inflight
            && s'.g.clashes == s.g.clashes && s'.g.issued == s.g.issued + 1
            && s'.g.numbers[s.g.issued] == s.w.nextRequestId
  {
    NumberKnown(cfg, s);
    var n, s' := NumberedBooks(s), RecordedBooks(cfg, s, recorded);
    forall id | id in s'.w.inflight ensures FlownAt(s'.g, id) { assert FlownAt(n.g, id); }
  }

  lemma PutOnConn(inflight: map<nat, Req>, id: nat, req: Req, c: nat)
    ensures |OnConn(inflight[id := req], c)| <= |OnConn(inflight, c)| + if req.conn == c then 1 else 0
  {
    if id in inflight {
      OnConnWithout(inflight, id, c);
      OnConnWith(inflight - {id}, id, req, c);
      assert (inflight - {id})[id := req] == inflight[id := req];
    } else {
      OnConnWith(inflight, id, req, c);
    }
  }

  lemma PutSize(inflight: map<nat, Req>, id: nat, req: Req)
    ensures |inflight[id := req]| == |inflight| + if id in inflight then 0 else 1
  {
    assert inflight[id := req].Keys == inflight.Keys + {id};
  }

  lemma PutAtLeast(inflight: map<nat, Req>, counts: seq<nat>, id: nat, req: Req)
    requires AtLeastOn(inflight, counts) && req.conn < |counts|
    ensures AtLeastOn(inflight[id := req], counts[req.conn := counts[req.conn] + 1])
  {
    var counts' := counts[req.conn := counts[req.conn] + 1];
    forall c | 0 <= c < |counts'| ensures |OnConn(inflight[id := req], c)| <= counts'[c] {
      PutOnConn(inflight, id, req, c);
    }
  }

  lemma PutWeighed(cfg: Config, s: Books, id: nat, x: nat, conn: nat, batch: Option<nat>, deadline: int)
    requires Weighed(cfg, s) && conn < cfg.nConns
    ensures Weighed(cfg, SentBooks(s, id, x, conn, batch, deadline, true))
  {
    PutSize(s.w.inflight, id, Req(conn, batch, deadline));
    PutAtLeast(s.w.inflight, s.w.counts, id, Req(conn, batch, deadline));
    SumChanged(s.w.counts, conn, s.w.counts[conn] + 1, cfg.nConns);
  }

  lemma SentTracked(cfg: Config, s: Books, x: nat, conn: nat, batch: Option<nat>, deadline: int, sent: bool)
    requires NumbersKnown(cfg, s.w, s.g) && Weighed(cfg, s) && x < |s.g.numbers| && conn < cfg.nConns
    requires s.g.issued <= M32 ==> s.g.clashes == 0 && s.g.numbers[x] !in s.w.inflight
    ensures Tracked(cfg, SentBooks(s, s.g.numbers[x], x, conn, batch, deadline, sent))
  {
    if sent {
      InsertedKnown(cfg, s, x, conn, batch, deadline);
      PutWeighed(cfg, s, s.g.numbers[x], x, conn, batch, deadline);
    } else {
      SameTracked(cfg, s, SentBooks(s, s.g.numbers[x], x, conn, batch, deadline, sent));
    }
  }

  lemma IssuedTracked(cfg: Config, s: Books, conn: nat, n: nat, deadline: int, sent: bool)
    requires cfg.Valid() && Tracked(cfg, s) && conn < |s.w.counts| && s.w.record + s.w.warmup > 0
    ensures Tracked(cfg, IssuedBooks(cfg, s, conn, n, deadline, sent))
  {
    var t, recorded := SpentBooks(s, conn, n), s.w.record > 0;
    SameTracked(cfg, s, t);
    NumberedTracked(cfg, t, recorded);
    if s.g.issued < M32 { NextIsFree(cfg, s.w, s.g); }
    SentTracked(cfg, RecordedBooks(cfg, t, recorded), t.g.issued, conn, NextBatch(t, recorded), deadline, sent);
  }

  ghost function TrackedFor(cfg: Config): Books -> bool { (s: Books) => Tracked(cfg, s) }

  lemma IssuedTrackedFor(cfg: Config, s: Books, conn: nat, n: nat, deadline: int, sent: bool)
    requires cfg.Valid() && Tracked(cfg, s) && conn < |s.w.counts| && s.w.record + s.w.warmup > 0
    ensures TrackedFor(cfg)(IssuedBooks(cfg, s, conn, n, deadline, sent))
  {
    IssuedTracked(cfg, s, conn, n, deadline, sent);
  }

  /** What a request on any connection keeps. */
  ghost predicate RequestsKeepAnyway(cfg: Config, inv: Books -> bool) {
    forall s: Books, conn: nat, n: nat, deadline: int, sent: bool
      | inv(s) && s.w.record + s.w.warmup > 0 && conn < |s.w.counts| ::
      inv(IssuedBooks(cfg, s, conn, n, deadline, sent))
  }

  lemma RequestsTracked(cfg: Config)
    requires cfg.Valid()
    ensures RequestsKeepAnyway(cfg, TrackedFor(cfg))
  {
    var inv := TrackedFor(cfg);
    forall s: Books, conn: nat, n: nat, deadline: int, sent: bool
      | inv(s) && s.w.record + s.w.warmup > 0 && conn < |s.w.counts|
      ensures inv(IssuedBooks(cfg, s, conn, n, deadline, sent))
    {
      IssuedTrackedFor(cfg, s, conn, n, deadline, sent);
    }
  }

  lemma NextKeeps(cfg: Config, s: Books, timeout: nat, n: nat, send: Attempt, inv: Books -> bool)
    requires inv(s) && RequestsKeepAnyway(cfg, inv)
    ensures var next := NextIssue(cfg, s, timeout, n, send); next.Some? ==> inv(next.value)
  {}

  lemma IssuesTracked(cfg: Config, timeout: nat)
    requires cfg.Valid()
    ensures IssuesKeep(Issuing(cfg, timeout), TrackedFor(cfg))
  {
    var issue, inv := Issuing(cfg, timeout), TrackedFor(cfg);
    RequestsTracked(cfg);
    forall t: Books, n: nat, send: Attempt {:trigger issue(t, n, send)} | inv(t) && issue(t, n, send).Some?
      ensures inv(issue(t, n, send).value)
    {
      NextKeeps(cfg, t, timeout, n, send, inv);
    }
  }

  lemma IssuedAllTracked(cfg: Config, s: Books, timeout: nat, sends: nat -> Attempt)
    requires cfg.Valid() && Tracked(cfg, s)
    ensures Tracked(cfg, IssuedAll(Issuing(cfg, timeout), s, sends, 0))
  {
    IssuesTracked(cfg, timeout);
    IssuesSpend(cfg, timeout);
    IssuedAllKeeps(Issuing(cfg, timeout), s, sends, 0, TrackedFor(cfg));
  }

  lemma TurnTracked(cfg: Config, s: Books, timeout: nat, round: Round)
    requires cfg.Valid() && Tracked(cfg, s)
    ensures Tracked(cfg, TurnBooks(cfg, s, timeout, round))
  {
    var f := RefilledBooks(s, PendingCap(cfg), round);
    var r := RepliedBooks(f, round.answers, false, 0);
    var i := IssuedAll(Issuing(cfg, timeout), r, round.sends, 0);
    SameTracked(cfg, s, f);
    RepliedTracked(cfg, f, round.answers, false, 0);
    IssuedAllTracked(cfg, r, timeout, round.sends);
    ExpiredTracked(cfg, i, Overdue(i.w, round.now), round.first);
  }

  lemma WholeTurnTracked(cfg: Config, s: Books, drain: Option<int>, timeout: nat, round: Round)
    requires cfg.Valid() && Tracked(cfg, s)
    ensures Tracked(cfg, WholeTurn(cfg, s, drain, timeout, round).0)
  {
    var t := TurnBooks(cfg, s, timeout, round);
    var e := ExpiredBooks(t, t.w.inflight.Keys, round.first);
    TurnTracked(cfg, s, timeout, round);
    RepliedTracked(cfg, t, round.late, true, 0);
    ExpiredTracked(cfg, t, t.w.inflight.Keys, round.first);
    SameTracked(cfg, t, ClosedBooks(t, round.first));
    SameTracked(cfg, e, ClosedBooks(e, round.first));
  }

  lemma RunTracked(cfg: Config, workerId: nat, timeout: nat, rounds: seq<Round>)
    requires cfg.Valid()
    ensures Tracked(cfg, Run(cfg, workerId, timeout, rounds).0)
  {
    var turn := Turning(cfg, timeout);
    var inv := (s: Books, ended: bool) => Tracked(cfg, s);
    forall s: Books, drain: Option<int>, k: nat {:trigger turn(s.AtTurn(k), drain, rounds[k])}
      | k < |rounds| && inv(s, false)
      ensures inv(turn(s.AtTurn(k), drain, rounds[k]).0, turn(s.AtTurn(k), drain, rounds[k]).2)
    {
      SameTracked(cfg, s, s.AtTurn(k));
      WholeTurnTracked(cfg, s.AtTurn(k), drain, timeout, rounds[k]);
    }
    InitialTracked(cfg, workerId);
    RunKeeps(turn, Initial(cfg, workerId), None, rounds, 0, inv);
  }

  // ---------------------------------------------------------------- whole runs

  /** At the end of any run, however long, every connection's count is the number of its requests in flight if
      and only if no request ever went in flight under a number in flight. */
  lemma RunCountsIff(cfg: Config, workerId: nat, timeout: nat, rounds: seq<Round>)
    requires cfg.Valid()
    ensures var s := Run(cfg, workerId, timeout, rounds).0; CountsRight(s.w) <==> s.g.clashes == 0
  {
    RunTracked(cfg, workerId, timeout, rounds);
    TrackedTells(cfg, Run(cfg, workerId, timeout, rounds).0);
  }

  /** When no more tokens are offered than there are numbers, numbers keep apart. */
  lemma FewTokensKeepApart(cfg: Config, workerId: nat, timeout: nat, rounds: seq<Round>)
    requires cfg.Valid() && Offered(rounds, 0) <= M32
    ensures Apart(Run(cfg, workerId, timeout, rounds).0.g)
  {
    NumbersLast(cfg, workerId, timeout, rounds);
    RunTracked(cfg, workerId, timeout, rounds);
  }

  // ---------------------------------------------------------------- a run in which a number repeats

  /** Some order of the keys of a hash map. */
  ghost function AnyOrder(): set<nat> -> nat {
    (keys: set<nat>) => if keys == {} then 0 else var key :| key in keys; key
  }

  const GOOD_ANSWER: Response := Response(false, 200, 1, 0, 0, 0, [1, 0, 0, 0, 0])

  /** Each turn offers one token, nothing is recorded, no time passes, and every request but the first is answered
      in the turn after it. */
  ghost function QuietRound(cfg: Config, k: nat): Round {
    Round(0, 1, false, false, false, 0, 0, 0,
          if k < 2 then [] else [(Wrapped(cfg.firstRequest, k - 1, M32), GOOD_ANSWER)],
          (n: nat) => Attempt(1, true), AnyOrder(), [])
  }

  ghost function QuietRounds(cfg: Config, n: nat): seq<Round> { seq(n, k requires 0 <= k < n => QuietRound(cfg, k)) }

  /** After `k` such turns only the first request and the last one can be in flight. */
  ghost predicate Lone(cfg: Config, s: Books, k: nat) {
    && s.w.record == 0 == s.w.warmup && s.g.issued == k
    && (k > 0 ==> cfg.firstRequest in s.w.inflight)
    && (forall id | id in s.w.inflight :: s.w.inflight[id].batch.None? && s.w.inflight[id].deadline > 0)
    && s.w.inflight.Keys <= if k == 0 then {} else {cfg.firstRequest, Wrapped(cfg.firstRequest, k - 1, M32)}
  }

  /** Where a turn has answered the last request, and has the next token. */
  ghost predicate Ready(cfg: Config, s: Books, k: nat) {
    && s.w.record == 0 && s.w.warmup == 1 && s.g.issued == k
    && (k > 0 ==> cfg.firstRequest in s.w.inflight)
    && (forall id | id in s.w.inflight :: s.w.inflight[id].batch.None? && s.w.inflight[id].deadline > 0)
    && s.w.inflight.Keys <= if k == 0 then {} else {cfg.firstRequest}
  }

  /** One answer, to a request that is not recorded. */
  lemma Lands(f: Books, id: nat, r: Response)
    requires forall x | x in f.w.inflight :: f.w.inflight[x].batch.None?
    ensures var a := RepliedBooks(f, [(id, r)], false, 0);
            && a.w.record == f.w.record && a.w.warmup == f.w.warmup && a.g.issued == f.g.issued
            && a.w.inflight == f.w.inflight - {id}
  {
    var a := AnsweredBooks(f, id, r, Reply(f.g.turn, 0, false));
    assert RepliedBooks(f, [(id, r)], false, 0) == RepliedBooks(a, [(id, r)], false, 1) == a;
    assert id !in f.w.inflight ==> f.w.inflight - {id} == f.w.inflight;
  }

  lemma GetsReady(cfg: Config, s: Books, k: nat)
    requires cfg.Valid() && Lone(cfg, s, k) && k <= M32
    ensures var f := RefilledBooks(s, PendingCap(cfg), QuietRound(cfg, k));
            Ready(cfg, RepliedBooks(f, QuietRound(cfg, k).answers, false, 0), k)
  {
    var f := RefilledBooks(s, PendingCap(cfg), QuietRound(cfg, k));
    if k >= 2 {
      SmallWrap(cfg.firstRequest, k - 1, M32);
      Lands(f, Wrapped(cfg.firstRequest, k - 1, M32), GOOD_ANSWER);
    } else {
      assert RepliedBooks(f, [], false, 0) == f;
      SmallWrap(cfg.firstRequest, 0, M32);
    }
  }

  lemma ReadyTracked(cfg: Config, s: Books, k: nat)
    requires Tracked(cfg, s)
    ensures var f := RefilledBooks(s, PendingCap(cfg), QuietRound(cfg, k));
            Tracked(cfg, RepliedBooks(f, QuietRound(cfg, k).answers, false, 0))
  {
    var f := RefilledBooks(s, PendingCap(cfg), QuietRound(cfg, k));
    SameTracked(cfg, s, f);
    RepliedTracked(cfg, f, QuietRound(cfg, k).answers, false, 0);
  }

  lemma {:induction false} RoomIsFound(counts: seq<nat>, nextRr: nat, cap: nat, step: nat)
    requires step < |counts| && forall c | 0 <= c < |counts| :: counts[c] < cap
    ensures FirstRoom(counts, nextRr, cap, step).Some?
  {}

  lemma {:induction false} SumBounds(counts: seq<nat>, n: nat, c: nat)
    requires c < n <= |counts|
    ensures counts[c] <= SumTo(counts, n)
  {
    if c == n - 1 {
    } else {
      SumBounds(counts, n - 1, c);
    }
  }

  lemma HasRoom(cfg: Config, s: Books, k: nat)
    requires cfg.cap >= 2 && cfg.nConns >= 1 && Tracked(cfg, s) && Ready(cfg, s, k) && k <= M32
    ensures FirstRoom(s.w.counts, s.w.nextRr, cfg.cap, 0).Some?
  {
    FewFlying(s.w.inflight, cfg.firstRequest);
    forall c | 0 <= c < |s.w.counts| ensures s.w.counts[c] < cfg.cap { SumBounds(s.w.counts, cfg.nConns, c); }
    RoomIsFound(s.w.counts, s.w.nextRr, cfg.cap, 0);
  }

  /** The last token is issued, and no more. */
  lemma LastIssue(cfg: Config, s: Books, timeout: nat, sends: nat -> Attempt)
    requires s.w.record == 0 && s.w.warmup == 1 && FirstRoom(s.w.counts, s.w.nextRr, cfg.cap, 0).Some?
    ensures var conn := FirstRoom(s.w.counts, s.w.nextRr, cfg.cap, 0).value;
            IssuedAll(Issuing(cfg, timeout), s, sends, 0) ==
            IssuedBooks(cfg, s, conn, 0, sends(0).at + timeout, sends(0).ok)
  {
    var issue := Issuing(cfg, timeout);
    var next := issue(s, 0, sends(0)).value;
    assert issue(next, 1, sends(1)).None?;
    assert IssuedAll(issue, next, sends, 1) == next;
  }

  /** These have one request more in flight, under this number, and one token less. */
  ghost predicate OneUp(s: Books, i: Books, id: nat) {
    && i.w.record == 0 == i.w.warmup && i.g.issued == s.g.issued + 1
    && i.w.inflight.Keys == s.w.inflight.Keys + {id}
    && (forall x | x in i.w.inflight :: i.w.inflight[x].batch.None? && i.w.inflight[x].deadline > 0)
    && i.g.clashes == if id in s.w.inflight then 1 else 0
  }

  /** The token becomes a request under the next number, which stays in flight. */
  lemma TakesOff(cfg: Config, s: Books, timeout: nat, k: nat)
    requires cfg.Valid() && cfg.cap >= 2 && cfg.nConns >= 1 && Tracked(cfg, s) && Ready(cfg, s, k) && k <= M32
    ensures OneUp(s, IssuedAll(Issuing(cfg, timeout), s, QuietRound(cfg, k).sends, 0), s.w.nextRequestId)
  {
    HasRoom(cfg, s, k);
    LastIssue(cfg, s, timeout, QuietRound(cfg, k).sends);
    var conn := FirstRoom(s.w.counts, s.w.nextRr, cfg.cap, 0).value;
    var i := IssuedBooks(cfg, s, conn, 0, 1 + timeout, true);
    assert i.w.inflight == s.w.inflight[s.w.nextRequestId := Req(conn, None, 1 + timeout)];
  }

  lemma FewFlying(inflight: map<nat, Req>, first: nat)
    requires inflight.Keys <= {first}
    ensures |inflight| <= 1
  {
    if first in inflight {
      assert inflight.Keys == {first};
    } else {
      assert inflight.Keys == {};
    }
  }

  /** Nothing else happens in the turn. */
  lemma QuietEnd(cfg: Config, s: Books, r: Books, i: Books, timeout: nat, k: nat)
    requires r == RepliedBooks(RefilledBooks(s, PendingCap(cfg), QuietRound(cfg, k)), QuietRound(cfg, k).answers, false,
                               0)
    requires i == IssuedAll(Issuing(cfg, timeout), r, QuietRound(cfg, k).sends, 0)
    requires forall id | id in i.w.inflight :: i.w.inflight[id].deadline > 0
    ensures WholeTurn(cfg, s, None, timeout, QuietRound(cfg, k)) == (i, None, false)
  {
    assert Overdue(i.w, 0) == {};
    assert ExpiredBooks(i, {}, AnyOrder()) == i;
    assert RepliedBooks(i, [], true, 0) == i;
  }

  lemma StaysLone(cfg: Config, r: Books, i: Books, k: nat)
    requires cfg.Valid() && Ready(cfg, r, k) && OneUp(r, i, r.w.nextRequestId) && k <= M32
    requires r.w.nextRequestId == Wrapped(cfg.firstRequest, k, M32)
    ensures if k < M32 then Lone(cfg, i, k + 1) else i.g.clashes == 1
  {
    SmallWrap(cfg.firstRequest, k, M32);
  }

  lemma QuietTurn(cfg: Config, s: Books, timeout: nat, k: nat)
    requires cfg.Valid() && cfg.cap >= 2 && cfg.nConns >= 1 && Tracked(cfg, s) && Lone(cfg, s, k) && k <= M32
    ensures var (s', drain, ended) := WholeTurn(cfg, s, None, timeout, QuietRound(cfg, k));
            drain == None && !ended && if k < M32 then Lone(cfg, s', k + 1) else s'.g.clashes == 1
  {
    var round := QuietRound(cfg, k);
    var r := RepliedBooks(RefilledBooks(s, PendingCap(cfg), round), round.answers, false, 0);
    var i := IssuedAll(Issuing(cfg, timeout), r, round.sends, 0);
    GetsReady(cfg, s, k);
    ReadyTracked(cfg, s, k);
    TakesOff(cfg, r, timeout, k);
    QuietEnd(cfg, s, r, i, timeout, k);
    StaysLone(cfg, r, i, k);
  }

  lemma QuietStep(cfg: Config, s: Books, timeout: nat, k: nat) returns (s': Books)
    requires cfg.Valid() && cfg.cap >= 2 && cfg.nConns >= 1 && Tracked(cfg, s) && Lone(cfg, s, k) && k <= M32
    ensures Tracked(cfg, s') && if k < M32 then Lone(cfg, s', k + 1) else s'.g.clashes == 1
    ensures Turning(cfg, timeout)(s.AtTurn(k), None, QuietRounds(cfg, M32 + 1)[k]) == (s', None, false)
  {
    var t := s.AtTurn(k);
    SameTracked(cfg, s, t);
    QuietTurn(cfg, t, timeout, k);
    WholeTurnTracked(cfg, t, None, timeout, QuietRound(cfg, k));
    s' := WholeTurn(cfg, t, None, timeout, QuietRound(cfg, k)).0;
  }

  lemma RunGoesOn(turn: Turner, s: Books, rounds: seq<Round>, k: nat, s': Books)
    requires k < |rounds| && turn(s.AtTurn(k), None, rounds[k]) == (s', None, false)
    ensures RunFrom(turn, s, None, rounds, k) == RunFrom(turn, s', None, rounds, k + 1)
    ensures k + 1 == |rounds| ==> RunFrom(turn, s, None, rounds, k).0 == s'
  {}

  lemma {:induction false} QuietRun(cfg: Config, s: Books, timeout: nat, k: nat)
    requires cfg.Valid() && cfg.cap >= 2 && cfg.nConns >= 1 && Tracked(cfg, s) && Lone(cfg, s, k) && k <= M32
    ensures RunFrom(Turning(cfg, timeout), s, None, QuietRounds(cfg, M32 + 1), k).0.g.clashes == 1
    decreases M32 - k
  {
    var s' := QuietStep(cfg, s, timeout, k);
    RunGoesOn(Turning(cfg, timeout), s, QuietRounds(cfg, M32 + 1), k, s');
    if k < M32 { QuietRun(cfg, s', timeout, k + 1); }
  }

  /** With more than one request to a connection, some run goes wrong: its first request stays in flight while all
      other numbers are used, and the next request is counted beside it but replaces it. */
  lemma RepeatedNumberMisleads(cfg: Config, workerId: nat, timeout: nat)
    requires cfg.Valid() && cfg.cap >= 2 && cfg.nConns >= 1
    ensures AllPick(QuietRounds(cfg, M32 + 1))
    ensures !CountsRight(Run(cfg, workerId, timeout, QuietRounds(cfg, M32 + 1)).0.w)
  {
    InitialTracked(cfg, workerId);
    QuietRun(cfg, Initial(cfg, workerId), timeout, 0);
    RunCountsIff(cfg, workerId, timeout, QuietRounds(cfg, M32 + 1));
  }
}
