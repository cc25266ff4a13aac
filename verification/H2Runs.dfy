/** Whole runs of the HTTP/2 worker: each recorded request is told the response its environment gave it, or that it
    timed out, and the counters of the finalised batches are what these responses add. */
module H2Runs {
  import opened Forest
  import opened H2Accounting

  // ---------------------------------------------------------------- what the environment says of a request

  /** A place among the answers of a run: those of a turn read before requests are issued, then the late ones. */
  datatype Spot = Spot(turn: nat, late: bool, i: nat) {
    predicate Before(o: Spot) {
      turn < o.turn || (turn == o.turn && ((!late && o.late) || (late == o.late && i < o.i)))
    }

    /** It comes after the requests issued in a turn. */
    predicate Follows(issued: nat) { issued < turn || (issued == turn && late) }
  }

  function AnswersAt(rounds: seq<Round>, turn: nat, late: bool): seq<(nat, Response)>
    requires turn < |rounds|
  {
    if late then rounds[turn].late else rounds[turn].answers
  }

  /** A request sent in a turn is not answered before this place. */
  ghost predicate Silent(rounds: seq<Round>, id: nat, issued: nat, spot: Spot) {
    forall turn: nat, late: bool, i: nat
      | turn < |rounds| && i < |AnswersAt(rounds, turn, late)| && Spot(turn, late, i).Follows(issued)
        && Spot(turn, late, i).Before(spot) ::
      AnswersAt(rounds, turn, late)[i].0 != id
  }

  /** Its deadline had not passed in any turn before this one. */
  ghost predicate InTime(rounds: seq<Round>, deadline: int, issued: nat, until: nat) {
    forall t: nat | issued <= t < until && t < |rounds| :: rounds[t].now < deadline
  }

  function Deadline(rounds: seq<Round>, timeout: nat, try: (nat, nat)): int
    requires try.0 < |rounds|
  {
    rounds[try.0].sends(try.1).at + timeout
  }

  /** The request of this number, issued as this send of this turn, was sent, and nothing ended its flight before this
      place: no answer, and no deadline passed in a turn before `until`. */
  ghost predicate Waits(rounds: seq<Round>, timeout: nat, id: nat, try: (nat, nat), spot: Spot, until: nat) {
    && try.0 < |rounds| && rounds[try.0].sends(try.1).ok && spot.Follows(try.0)
    && Silent(rounds, id, try.0, spot) && InTime(rounds, Deadline(rounds, timeout, try), try.0, until)
  }

  /** Pacing is over since a turn from whose reading of the clock the drain has lasted its time. */
  ghost predicate DrainOver(rounds: seq<Round>, timeout: nat, k: nat) {
    k < |rounds| && exists j: nat :: j <= k && Idle(rounds, j, k)
                      && rounds[k].drainCheck - rounds[j].drainNow >= timeout + DRAIN_GRACE
  }

  ghost predicate Idle(rounds: seq<Round>, j: nat, k: nat)
    requires k < |rounds|
  {
    forall i: nat | j <= i <= k :: rounds[i].pacerDoneStill && rounds[i].quotaEmpty
  }

  /** This is what becomes of the request of this number, issued as this send of this turn: the first answer under its
      number while it waits, read there; or a timeout in the turn in which its deadline has passed or the drain is over;
      or a timeout because sending failed. */
  ghost predicate Outcome(rounds: seq<Round>, timeout: nat, id: nat, try: (nat, nat), source: Source, r: Response) {
    match source
    case Reply(turn, i, late) =>
      && turn < |rounds| && i < |AnswersAt(rounds, turn, late)| && AnswersAt(rounds, turn, late)[i] == (id, r)
      && Waits(rounds, timeout, id, try, Spot(turn, late, i), if late then turn + 1 else turn)
    case Expired(turn) =>
      && r == TIMED_OUT && turn < |rounds| && Waits(rounds, timeout, id, try, Spot(turn, true, 0), turn)
      && (Deadline(rounds, timeout, try) <= rounds[turn].now || DrainOver(rounds, timeout, turn))
    case Unsent => r == TIMED_OUT && try.0 < |rounds| && !rounds[try.0].sends(try.1).ok
  }

  // ---------------------------------------------------------------- what the log says

  ghost predicate ToldRight(rounds: seq<Round>, timeout: nat, g: Log, t: Told) {
    && t.x < |g.numbers| && t.x < |g.tries| && t.x in g.owner && g.owner[t.x] == t.batch
    && Outcome(rounds, timeout, g.numbers[t.x], g.tries[t.x], t.source, t.r)
  }

  ghost predicate ToldAt(rounds: seq<Round>, timeout: nat, g: Log, k: nat) {
    k < |g.told| ==>
      && ToldRight(rounds, timeout, g, g.told[k]) && g.told[k].x in g.settled
      && forall j: nat | j < k :: g.told[j].x != g.told[k].x
  }

  /** Requests were issued before this send of this turn ... */
  ghost predicate TriesBefore(tries: seq<(nat, nat)>, turn: nat, n: nat) {
    forall x: nat :: TriedBefore(tries, x, turn, n)
  }

  predicate TriedBefore(tries: seq<(nat, nat)>, x: nat, turn: nat, n: nat) {
    x < |tries| ==> Precedes(tries[x], (turn, n))
  }

  /** ... and as one send after the other. */
  ghost predicate TryAt(tries: seq<(nat, nat)>, y: nat) {
    y < |tries| ==> forall x: nat | x < y :: Precedes(tries[x], tries[y])
  }

  predicate Precedes(a: (nat, nat), b: (nat, nat)) { a.0 < b.0 || (a.0 == b.0 && a.1 < b.1) }

  /** No request was told twice, and what each was told is what the environment says of it. */
  ghost predicate AllTold(rounds: seq<Round>, timeout: nat, g: Log) {
    && |g.tries| == |g.numbers| && (forall k: nat :: ToldAt(rounds, timeout, g, k))
    && (forall y: nat :: TryAt(g.tries, y))
  }

  /** What is in flight under a number still waits at this place. */
  ghost predicate WaitsAt(rounds: seq<Round>, timeout: nat, s: Books, spot: Spot, until: nat, id: nat) {
    id in s.w.inflight ==>
      && id in s.g.serial && s.g.serial[id] < |s.g.tries|
      && Waits(rounds, timeout, id, s.g.tries[s.g.serial[id]], spot, until)
      && s.w.inflight[id].deadline == Deadline(rounds, timeout, s.g.tries[s.g.serial[id]])
  }

  ghost predicate AllWait(rounds: seq<Round>, timeout: nat, s: Books, spot: Spot, until: nat) {
    forall id: nat :: WaitsAt(rounds, timeout, s, spot, until, id)
  }

  ghost predicate Tells(rounds: seq<Round>, timeout: nat, s: Books, spot: Spot, until: nat) {
    AllTold(rounds, timeout, s.g) && AllWait(rounds, timeout, s, spot, until)
  }

  // ---------------------------------------------------------------- a response is told

  /** Only what is told and counted, and what is left in flight, matters. */
  lemma SameTells(rounds: seq<Round>, timeout: nat, s: Books, s': Books, spot: Spot, until: nat)
    requires Tells(rounds, timeout, s, spot, until) && s'.g.FlightsAs(s.g)
    requires s'.g.told == s.g.told && s'.g.settled == s.g.settled && s'.g.owner == s.g.owner
    requires forall id | id in s'.w.inflight :: id in s.w.inflight && s'.w.inflight[id] == s.w.inflight[id]
    ensures Tells(rounds, timeout, s', spot, until)
  {
    forall k: nat ensures ToldAt(rounds, timeout, s'.g, k) { assert ToldAt(rounds, timeout, s.g, k); }
    forall id: nat ensures WaitsAt(rounds, timeout, s', spot, until, id) {
      assert WaitsAt(rounds, timeout, s, spot, until, id);
    }
  }

  lemma CountedTells(rounds: seq<Round>, timeout: nat, s: Books, x: nat, b: nat, r: Response, source: Source,
                     spot: Spot, until: nat)
    requires Tells(rounds, timeout, s, spot, until) && b in s.w.batches && x !in s.g.settled
    requires ToldRight(rounds, timeout, s.g, Told(b, r, x, source))
    ensures Tells(rounds, timeout, CountedBooks(s, x, b, r, source), spot, until)
  {
    var s' := CountedBooks(s, x, b, r, source);
    forall k: nat ensures ToldAt(rounds, timeout, s'.g, k) {
      assert ToldAt(rounds, timeout, s.g, k);
      forall j: nat | j < k < |s'.g.told| ensures s'.g.told[j].x != s'.g.told[k].x {
        assert ToldAt(rounds, timeout, s.g, j);
      }
    }
    forall id: nat ensures WaitsAt(rounds, timeout, s', spot, until, id) {
      assert WaitsAt(rounds, timeout, s, spot, until, id);
    }
  }

  /** The environment says this of whatever is in flight under the number. */
  ghost predicate Says(rounds: seq<Round>, timeout: nat, s: Books, id: nat, r: Response, source: Source) {
    id in s.w.inflight && id in s.g.serial && s.g.serial[id] < |s.g.tries| ==>
      Outcome(rounds, timeout, id, s.g.tries[s.g.serial[id]], source, r)
  }

  lemma AnsweredTells(cfg: Config, rounds: seq<Round>, timeout: nat, s: Books, id: nat, r: Response, source: Source,
                      spot: Spot, until: nat)
    requires Sound(cfg, s) && Tells(rounds, timeout, s, spot, until) && Says(rounds, timeout, s, id, r, source)
    ensures Tells(rounds, timeout, AnsweredBooks(s, id, r, source), spot, until)
  {
    if id in s.w.inflight {
      var t, x := s.(w := Removed(s.w, id)), s.g.SerialOf(id);
      assert FlownAt(s.g, id) && RequestAt(s.w, s.g, None, x);
      assert WaitsAt(rounds, timeout, s, spot, until, id);
      SameTells(rounds, timeout, s, t, spot, until);
      if s.w.inflight[id].batch.Some? {
        RemovedCoherent(cfg, s, id);
        StillWaiting(cfg, t.w, t.g, Some(x), x);
        CountedTells(rounds, timeout, t, x, s.g.owner[x], r, source, spot, until);
      }
    }
  }

  ghost function TellsAt(rounds: seq<Round>, timeout: nat, spot: Spot, until: nat): Books -> bool {
    (s: Books) => Tells(rounds, timeout, s, spot, until)
  }

  ghost function Sounds(cfg: Config): Books -> bool { (s: Books) => Sound(cfg, s) }

  /** The invariant and what is told, at a place of a run. */
  ghost predicate Telling(cfg: Config, rounds: seq<Round>, timeout: nat, spot: Spot, until: nat, s: Books) {
    Sounds(cfg)(s) && TellsAt(rounds, timeout, spot, until)(s)
  }

  lemma Answering(cfg: Config, rounds: seq<Round>, timeout: nat, s: Books, id: nat, r: Response, source: Source,
                  spot: Spot, until: nat)
    requires Telling(cfg, rounds, timeout, spot, until, s) && Says(rounds, timeout, s, id, r, source)
    ensures Telling(cfg, rounds, timeout, spot, until, AnsweredBooks(s, id, r, source))
    ensures AnsweredBooks(s, id, r, source).w.inflight == s.w.inflight - {id}
  {
    AnsweredTells(cfg, rounds, timeout, s, id, r, source, spot, until);
    AnsweredSound(cfg, s, id, r, source);
  }

  lemma WaitingAt(cfg: Config, rounds: seq<Round>, timeout: nat, s: Books, spot: Spot, until: nat, id: nat)
    requires Telling(cfg, rounds, timeout, spot, until, s)
    ensures WaitsAt(rounds, timeout, s, spot, until, id)
  {}

  // ---------------------------------------------------------------- answers

  /** What waits at an answer and is not answered by it waits at the next place. */
  lemma SilentNext(rounds: seq<Round>, id: nat, issued: nat, turn: nat, late: bool, i: nat)
    requires turn < |rounds| && i < |AnswersAt(rounds, turn, late)| && AnswersAt(rounds, turn, late)[i].0 != id
    requires Silent(rounds, id, issued, Spot(turn, late, i))
    ensures Silent(rounds, id, issued, Spot(turn, late, i + 1))
  {}

  lemma WaitNext(cfg: Config, rounds: seq<Round>, timeout: nat, s: Books, turn: nat, late: bool, i: nat, until: nat)
    requires Telling(cfg, rounds, timeout, Spot(turn, late, i), until, s)
    requires turn < |rounds| && i < |AnswersAt(rounds, turn, late)|
    requires AnswersAt(rounds, turn, late)[i].0 !in s.w.inflight
    ensures Telling(cfg, rounds, timeout, Spot(turn, late, i + 1), until, s)
  {
    var next := Spot(turn, late, i + 1);
    forall id: nat ensures WaitsAt(rounds, timeout, s, next, until, id) {
      WaitingAt(cfg, rounds, timeout, s, Spot(turn, late, i), until, id);
      if id in s.w.inflight { SilentNext(rounds, id, s.g.tries[s.g.serial[id]].0, turn, late, i); }
    }
  }

  /** Where the next answers come. */
  function NextSpot(turn: nat, late: bool): Spot { if late then Spot(turn + 1, false, 0) else Spot(turn, true, 0) }

  /** Up to which turn deadlines have been checked when answers are read. */
  function CheckedTo(turn: nat, late: bool): nat { if late then turn + 1 else turn }

  lemma {:induction false} RepliedTells(cfg: Config, rounds: seq<Round>, timeout: nat, s: Books,
                                        answers: seq<(nat, Response)>, late: bool, k: nat)
    requires s.g.turn < |rounds| && answers == AnswersAt(rounds, s.g.turn, late) && k <= |answers|
    requires Telling(cfg, rounds, timeout, Spot(s.g.turn, late, k), CheckedTo(s.g.turn, late), s)
    ensures Telling(cfg, rounds, timeout, NextSpot(s.g.turn, late), CheckedTo(s.g.turn, late),
              RepliedBooks(s, answers, late, k))
    decreases |answers| - k
  {
    if k == |answers| {
      WaitOn(cfg, rounds, timeout, s, s.g.turn, late, CheckedTo(s.g.turn, late));
    } else {
      var id, r, source, until := answers[k].0, answers[k].1, Reply(s.g.turn, k, late), CheckedTo(s.g.turn, late);
      WaitingAt(cfg, rounds, timeout, s, Spot(s.g.turn, late, k), until, id);
      Answering(cfg, rounds, timeout, s, id, r, source, Spot(s.g.turn, late, k), until);
      WaitNext(cfg, rounds, timeout, AnsweredBooks(s, id, r, source), s.g.turn, late, k, until);
      RepliedTells(cfg, rounds, timeout, AnsweredBooks(s, id, r, source), answers, late, k + 1);
    }
  }

  /** Between the last answer of one list and the first of the next there is none. */
  lemma WaitOn(cfg: Config, rounds: seq<Round>, timeout: nat, s: Books, turn: nat, late: bool, until: nat)
    requires turn < |rounds|
    requires Telling(cfg, rounds, timeout, Spot(turn, late, |AnswersAt(rounds, turn, late)|), until, s)
    ensures Telling(cfg, rounds, timeout, NextSpot(turn, late), until, s)
  {
    var spot, next := Spot(turn, late, |AnswersAt(rounds, turn, late)|), NextSpot(turn, late);
    forall id: nat ensures WaitsAt(rounds, timeout, s, next, until, id) {
      WaitingAt(cfg, rounds, timeout, s, spot, until, id);
    }
  }

  // ---------------------------------------------------------------- issuing

  lemma RecordedKeeps(cfg: Config, s: Books, recorded: bool)
    ensures var r := RecordedBooks(cfg, s, recorded);
            && r.w.inflight == s.w.inflight && r.g.serial == s.g.serial && r.g.told == s.g.told
            && r.g.settled == s.g.settled && r.g.numbers == s.g.numbers + [s.w.nextRequestId]
            && r.g.tries == s.g.tries + [(s.g.turn, s.g.attempt)] && r.g.turn == s.g.turn
            && (forall x | x in s.g.owner && x != s.g.issued :: x in r.g.owner && r.g.owner[x] == s.g.owner[x])
  {}

  lemma OneMoreTry(tries: seq<(nat, nat)>, turn: nat, n: nat)
    requires TriesBefore(tries, turn, n) && forall y: nat :: TryAt(tries, y)
    ensures TriesBefore(tries + [(turn, n)], turn, n + 1) && forall y: nat :: TryAt(tries + [(turn, n)], y)
  {
    var all, m := tries + [(turn, n)], n + 1;
    forall x: nat ensures TriedBefore(all, x, turn, m) { assert TriedBefore(tries, x, turn, n); }
    forall y: nat ensures TryAt(all, y) {
      assert TryAt(tries, y);
      forall x: nat | x < y < |all| ensures Precedes(all[x], all[y]) { assert TriedBefore(tries, x, turn, n); }
    }
  }

  /** What was issued before a send was issued before any later one. */
  lemma TriedEarlier(tries: seq<(nat, nat)>, turn: nat, n: nat, turn': nat, n': nat)
    requires TriesBefore(tries, turn, n) && ((turn, n) == (turn', n') || Precedes((turn, n), (turn', n')))
    ensures TriesBefore(tries, turn', n')
  {
    forall x: nat ensures TriedBefore(tries, x, turn', n') { assert TriedBefore(tries, x, turn, n); }
  }

  lemma RecordedTells(cfg: Config, rounds: seq<Round>, timeout: nat, s: Books, recorded: bool, spot: Spot, until: nat)
    requires Tells(rounds, timeout, s, spot, until) && TriesBefore(s.g.tries, s.g.turn, s.g.attempt)
    requires s.g.issued == |s.g.numbers|
    ensures Tells(rounds, timeout, RecordedBooks(cfg, s, recorded), spot, until)
    ensures TriesBefore(RecordedBooks(cfg, s, recorded).g.tries, s.g.turn, s.g.attempt + 1)
  {
    var r := RecordedBooks(cfg, s, recorded);
    RecordedKeeps(cfg, s, recorded);
    OneMoreTry(s.g.tries, s.g.turn, s.g.attempt);
    forall k: nat ensures ToldAt(rounds, timeout, r.g, k) { assert ToldAt(rounds, timeout, s.g, k); }
    forall id: nat ensures WaitsAt(rounds, timeout, r, spot, until, id) {
      assert WaitsAt(rounds, timeout, s, spot, until, id);
    }
  }

  /** What is sent waits from then on. */
  lemma JustSent(rounds: seq<Round>, timeout: nat, id: nat, try: (nat, nat))
    requires try.0 < |rounds| && rounds[try.0].sends(try.1).ok
    ensures Waits(rounds, timeout, id, try, Spot(try.0, true, 0), try.0)
  {}

  lemma SentTells(rounds: seq<Round>, timeout: nat, s: Books, x: nat, conn: nat, batch: Option<nat>)
    requires s.g.turn < |rounds| && x < |s.g.numbers| && x < |s.g.tries| && conn < |s.w.counts| && x !in s.g.settled
    requires s.g.tries[x] == (s.g.turn, s.g.attempt)
    requires Tells(rounds, timeout, s, Spot(s.g.turn, true, 0), s.g.turn)
    requires batch.Some? ==> x in s.g.owner && s.g.owner[x] == batch.value
    ensures var send := rounds[s.g.turn].sends(s.g.attempt);
            Tells(rounds, timeout, SentBooks(s, s.g.numbers[x], x, conn, batch, send.at + timeout, send.ok),
              Spot(s.g.turn, true, 0), s.g.turn)
  {
    var send, spot := rounds[s.g.turn].sends(s.g.attempt), Spot(s.g.turn, true, 0);
    var s' := SentBooks(s, s.g.numbers[x], x, conn, batch, send.at + timeout, send.ok);
    if send.ok {
      forall k: nat ensures ToldAt(rounds, timeout, s'.g, k) { assert ToldAt(rounds, timeout, s.g, k); }
      forall id: nat ensures WaitsAt(rounds, timeout, s', spot, s.g.turn, id) {
        assert WaitsAt(rounds, timeout, s, spot, s.g.turn, id);
        if id == s.g.numbers[x] { JustSent(rounds, timeout, id, s.g.tries[x]); }
      }
    } else if batch.Some? && batch.value in s.w.batches {
      CountedTells(rounds, timeout, s, x, batch.value, TIMED_OUT, Unsent, spot, s.g.turn);
    }
  }

  /** A token is spent and its request numbered. */
  lemma NumberedTells(cfg: Config, rounds: seq<Round>, timeout: nat, s: Books, conn: nat, n: nat)
    requires Tells(rounds, timeout, s, Spot(s.g.turn, true, 0), s.g.turn) && TriesBefore(s.g.tries, s.g.turn, n)
    requires s.g.issued == |s.g.numbers| && s.w.record + s.w.warmup > 0 && conn < |s.w.counts|
    ensures var r := RecordedBooks(cfg, SpentBooks(s, conn, n), s.w.record > 0);
            && Tells(rounds, timeout, r, Spot(s.g.turn, true, 0), s.g.turn)
            && TriesBefore(r.g.tries, s.g.turn, n + 1)
  {
    var t, spot := SpentBooks(s, conn, n), Spot(s.g.turn, true, 0);
    SameTells(rounds, timeout, s, t, spot, s.g.turn);
    RecordedTells(cfg, rounds, timeout, t, s.w.record > 0, spot, s.g.turn);
  }

  /** The request has not been counted, is logged as this send, and if recorded belongs to its batch. */
  ghost predicate IsNumbered(s: Books, r: Books, batch: Option<nat>, n: nat) {
    var x := s.g.issued;
    && x < |r.g.numbers| && r.g.numbers[x] == s.w.nextRequestId && x !in r.g.settled
    && x < |r.g.tries| && r.g.tries[x] == (s.g.turn, n) == (r.g.turn, r.g.attempt)
    && (batch.Some? ==> x in r.g.owner && r.g.owner[x] == batch.value) && r.w.counts == s.w.counts
  }

  lemma NumberedIs(cfg: Config, s: Books, conn: nat, n: nat)
    requires Sound(cfg, s) && s.w.record + s.w.warmup > 0 && s.g.issued < M64 && conn < |s.w.counts|
    requires |s.g.tries| == |s.g.numbers|
    ensures var t, recorded := SpentBooks(s, conn, n), s.w.record > 0;
            s.g.issued == |s.g.numbers| && IsNumbered(s, RecordedBooks(cfg, t, recorded), NextBatch(t, recorded), n)
  {
    var t, recorded := SpentBooks(s, conn, n), s.w.record > 0;
    SpentThenRecorded(cfg, s, conn, n);
    RecordedCoherent(cfg, t, recorded);
    RecordedKeeps(cfg, t, recorded);
    assert RequestAt(s.w, s.g, None, s.g.issued) && OwnerAt(s.w, s.g, s.g.issued);
  }

  lemma IssuedTells(cfg: Config, rounds: seq<Round>, timeout: nat, s: Books, conn: nat, n: nat)
    requires s.g.turn < |rounds| && s.w.record + s.w.warmup > 0 && conn < |s.w.counts| && s.g.issued == |s.g.numbers|
    requires Tells(rounds, timeout, s, Spot(s.g.turn, true, 0), s.g.turn) && TriesBefore(s.g.tries, s.g.turn, n)
    requires var t, recorded := SpentBooks(s, conn, n), s.w.record > 0;
             IsNumbered(s, RecordedBooks(cfg, t, recorded), NextBatch(t, recorded), n)
    ensures var send := rounds[s.g.turn].sends(n);
            var i := IssuedBooks(cfg, s, conn, n, send.at + timeout, send.ok);
            && Tells(rounds, timeout, i, Spot(s.g.turn, true, 0), s.g.turn) && TriesBefore(i.g.tries, s.g.turn, n + 1)
  {
    var t, recorded := SpentBooks(s, conn, n), s.w.record > 0;
    NumberedTells(cfg, rounds, timeout, s, conn, n);
    SentTells(rounds, timeout, RecordedBooks(cfg, t, recorded), s.g.issued, conn, NextBatch(t, recorded));
  }

  lemma IssueTells(cfg: Config, rounds: seq<Round>, timeout: nat, s: Books, conn: nat, n: nat)
    requires s.g.turn < |rounds| && Telling(cfg, rounds, timeout, Spot(s.g.turn, true, 0), s.g.turn, s)
    requires s.w.record + s.w.warmup > 0 && s.g.issued < M64 && conn < |s.w.counts|
    requires TriesBefore(s.g.tries, s.g.turn, n)
    ensures var send := rounds[s.g.turn].sends(n);
            var i := IssuedBooks(cfg, s, conn, n, send.at + timeout, send.ok);
            TellsAt(rounds, timeout, Spot(s.g.turn, true, 0), s.g.turn)(i) && TriesBefore(i.g.tries, s.g.turn, n + 1)
  {
    NumberedIs(cfg, s, conn, n);
    IssuedTells(cfg, rounds, timeout, s, conn, n);
  }

  lemma IssueSounds(cfg: Config, s: Books, conn: nat, n: nat, deadline: int, sent: bool)
    requires Sounds(cfg)(s) && Issuable(cfg, s, conn, sent)
    ensures Sounds(cfg)(IssuedBooks(cfg, s, conn, n, deadline, sent))
  {
    IssuedSound(cfg, s, conn, n, deadline, sent);
  }

  /** What a request that is sent under a number not in flight keeps from one send to the next. */
  ghost predicate SendsFollow(cfg: Config, timeout: nat, sends: nat -> Attempt, inv: (Books, nat) -> bool) {
    SendsFollowGiven(cfg, timeout, sends, inv, inv)
  }

  /** The same of what is kept given something else. */
  ghost predicate SendsFollowGiven(cfg: Config, timeout: nat, sends: nat -> Attempt, given: (Books, nat) -> bool,
                                   inv: (Books, nat) -> bool)
  {
    forall s: Books, conn: nat, n: nat :: Follow(cfg, timeout, sends, given, inv)(s, conn, n)
  }

  ghost function Follow(cfg: Config, timeout: nat, sends: nat -> Attempt, given: (Books, nat) -> bool,
                        inv: (Books, nat) -> bool): (Books, nat, nat) -> bool
  {
    (s: Books, conn: nat, n: nat) => given(s, n) && inv(s, n) && Issuable(cfg, s, conn, sends(n).ok) ==>
      inv(IssuedBooks(cfg, s, conn, n, sends(n).at + timeout, sends(n).ok), n + 1)
  }

  /** It is kept while numbers keep apart. */
  lemma SendKeeps(cfg: Config, timeout: nat, sends: nat -> Attempt, inv: (Books, nat) -> bool, s: Books, n: nat)
    requires SendsFollow(cfg, timeout, sends, inv) && (Apart(s.g) ==> inv(s, n))
    ensures var next := NextIssue(cfg, s, timeout, n, sends(n));
            next.Some? && Apart(next.value.g) ==> inv(next.value, n + 1)
  {
    var next := NextIssue(cfg, s, timeout, n, sends(n));
    if next.Some? && Apart(next.value.g) {
      var conn := FirstRoom(s.w.counts, s.w.nextRr, cfg.cap, 0).value;
      assert Follow(cfg, timeout, sends, inv, inv)(s, conn, n);
    }
  }

  lemma IssuingKeeps(cfg: Config, timeout: nat, sends: nat -> Attempt, inv: (Books, nat) -> bool, s: Books)
    returns (m: nat)
    requires SendsFollow(cfg, timeout, sends, inv) && inv(s, 0)
    requires Apart(IssuedAll(Issuing(cfg, timeout), s, sends, 0).g)
    ensures inv(IssuedAll(Issuing(cfg, timeout), s, sends, 0), m)
  {
    var issue, kept := Issuing(cfg, timeout), (t: Books, n: nat) => Apart(t.g) ==> inv(t, n);
    forall t: Books, n: nat {:trigger issue(t, n, sends(n))} | kept(t, n) && issue(t, n, sends(n)).Some?
      ensures kept(issue(t, n, sends(n)).value, n + 1)
    {
      SendKeeps(cfg, timeout, sends, inv, t, n);
    }
    IssuesSpend(cfg, timeout);
    m := IssuedAllRuns(issue, s, sends, 0, kept);
  }

  ghost function Jointly(a: (Books, nat) -> bool, b: (Books, nat) -> bool): (Books, nat) -> bool {
    (s: Books, n: nat) => a(s, n) && b(s, n)
  }

  lemma JointlyFollow(cfg: Config, timeout: nat, sends: nat -> Attempt, given: (Books, nat) -> bool,
                      inv: (Books, nat) -> bool)
    requires SendsFollow(cfg, timeout, sends, given) && SendsFollowGiven(cfg, timeout, sends, given, inv)
    ensures SendsFollow(cfg, timeout, sends, Jointly(given, inv))
  {
    var both := Jointly(given, inv);
    forall s: Books, conn: nat, n: nat ensures Follow(cfg, timeout, sends, both, both)(s, conn, n) {
      assert Follow(cfg, timeout, sends, given, given)(s, conn, n);
      assert Follow(cfg, timeout, sends, given, inv)(s, conn, n);
    }
  }

  /** Before each send the invariant holds ... */
  ghost function SoundIn(cfg: Config): (Books, nat) -> bool { Throughout(Sounds(cfg)) }

  ghost function Throughout(keep: Books -> bool): (Books, nat) -> bool { (s: Books, n: nat) => keep(s) }

  /** ... and what is told. */
  ghost function TellsIn(rounds: seq<Round>, timeout: nat, turn: nat): (Books, nat) -> bool {
    (s: Books, n: nat) => s.g.turn == turn && TellsAt(rounds, timeout, Spot(turn, true, 0), turn)(s)
      && TriesBefore(s.g.tries, turn, n)
  }

  lemma KeptFollows(cfg: Config, timeout: nat, sends: nat -> Attempt, keep: Books -> bool)
    requires RequestsKeep(cfg, keep)
    ensures SendsFollow(cfg, timeout, sends, Throughout(keep))
  {
    var inv := Throughout(keep);
    forall s: Books, conn: nat, n: nat ensures Follow(cfg, timeout, sends, inv, inv)(s, conn, n) {}
  }

  lemma SoundFollows(cfg: Config, timeout: nat, sends: nat -> Attempt)
    ensures SendsFollow(cfg, timeout, sends, SoundIn(cfg))
  {
    var keep := Sounds(cfg);
    forall s: Books, conn: nat, n: nat, deadline: int, sent: bool | keep(s) && Issuable(cfg, s, conn, sent)
      ensures keep(IssuedBooks(cfg, s, conn, n, deadline, sent))
    {
      IssueSounds(cfg, s, conn, n, deadline, sent);
    }
    KeptFollows(cfg, timeout, sends, keep);
  }

  lemma TellingFollowsAt(cfg: Config, rounds: seq<Round>, timeout: nat, turn: nat, s: Books, conn: nat, n: nat)
    requires turn < |rounds|
    ensures Follow(cfg, timeout, rounds[turn].sends, SoundIn(cfg), TellsIn(rounds, timeout, turn))(s, conn, n)
  {
    if SoundIn(cfg)(s, n) && TellsIn(rounds, timeout, turn)(s, n)
       && Issuable(cfg, s, conn, rounds[turn].sends(n).ok) {
      IssueTells(cfg, rounds, timeout, s, conn, n);
    }
  }

  lemma TellingFollows(cfg: Config, rounds: seq<Round>, timeout: nat, turn: nat)
    requires turn < |rounds|
    ensures SendsFollowGiven(cfg, timeout, rounds[turn].sends, SoundIn(cfg), TellsIn(rounds, timeout, turn))
  {
    var sends, given, inv := rounds[turn].sends, SoundIn(cfg), TellsIn(rounds, timeout, turn);
    forall s: Books, conn: nat, n: nat ensures Follow(cfg, timeout, sends, given, inv)(s, conn, n) {
      TellingFollowsAt(cfg, rounds, timeout, turn, s, conn, n);
    }
  }

  lemma IssuedAllTells(cfg: Config, rounds: seq<Round>, timeout: nat, s: Books) returns (m: nat)
    requires s.g.turn < |rounds| && Sounds(cfg)(s)
    requires TellsAt(rounds, timeout, Spot(s.g.turn, true, 0), s.g.turn)(s) && TriesBefore(s.g.tries, s.g.turn, 0)
    requires Apart(IssuedAll(Issuing(cfg, timeout), s, rounds[s.g.turn].sends, 0).g)
    ensures var i := IssuedAll(Issuing(cfg, timeout), s, rounds[s.g.turn].sends, 0);
            && i.g.turn == s.g.turn && Telling(cfg, rounds, timeout, Spot(s.g.turn, true, 0), s.g.turn, i)
            && TriesBefore(i.g.tries, s.g.turn + 1, 0)
  {
    var sends, given, inv := rounds[s.g.turn].sends, SoundIn(cfg), TellsIn(rounds, timeout, s.g.turn);
    SoundFollows(cfg, timeout, sends);
    TellingFollows(cfg, rounds, timeout, s.g.turn);
    JointlyFollow(cfg, timeout, sends, given, inv);
    m := IssuingKeeps(cfg, timeout, sends, Jointly(given, inv), s);
    assert given(IssuedAll(Issuing(cfg, timeout), s, sends, 0), m);
    assert inv(IssuedAll(Issuing(cfg, timeout), s, sends, 0), m);
    TriedEarlier(IssuedAll(Issuing(cfg, timeout), s, sends, 0).g.tries, s.g.turn, m, s.g.turn + 1, 0);
  }

  // ---------------------------------------------------------------- timeouts

  /** These requests are overdue, or the drain is over. */
  ghost predicate Expiring(rounds: seq<Round>, timeout: nat, s: Books, ids: set<nat>) {
    s.g.turn < |rounds| && forall id | id in ids && id in s.w.inflight ::
      s.w.inflight[id].deadline <= rounds[s.g.turn].now || DrainOver(rounds, timeout, s.g.turn)
  }

  lemma {:induction false} ExpiredTells(cfg: Config, rounds: seq<Round>, timeout: nat, s: Books, ids: set<nat>,
                                        first: set<nat> -> nat)
    requires Expiring(rounds, timeout, s, ids)
    requires Telling(cfg, rounds, timeout, Spot(s.g.turn, true, 0), s.g.turn, s)
    ensures Telling(cfg, rounds, timeout, Spot(s.g.turn, true, 0), s.g.turn, ExpiredBooks(s, ids, first))
    decreases |ids|
  {
    var id := first(ids);
    if id in ids {
      WaitingAt(cfg, rounds, timeout, s, Spot(s.g.turn, true, 0), s.g.turn, id);
      Answering(cfg, rounds, timeout, s, id, TIMED_OUT, Expired(s.g.turn), Spot(s.g.turn, true, 0), s.g.turn);
      ExpiredTells(cfg, rounds, timeout, AnsweredBooks(s, id, TIMED_OUT, Expired(s.g.turn)), ids - {id}, first);
    }
  }

  /** When nothing is overdue in a turn, what waits goes on to wait. */
  lemma StillInTime(cfg: Config, rounds: seq<Round>, timeout: nat, s: Books, spot: Spot, until: nat)
    requires Telling(cfg, rounds, timeout, spot, until, s) && until < |rounds|
    requires forall id | id in s.w.inflight :: rounds[until].now < s.w.inflight[id].deadline
    ensures Telling(cfg, rounds, timeout, spot, until + 1, s)
  {
    var later := until + 1;
    forall id: nat ensures WaitsAt(rounds, timeout, s, spot, later, id) {
      WaitingAt(cfg, rounds, timeout, s, spot, until, id);
    }
  }

  lemma WaitedLess(cfg: Config, rounds: seq<Round>, timeout: nat, s: Books, spot: Spot, until: nat)
    requires Telling(cfg, rounds, timeout, spot, until + 1, s)
    ensures Telling(cfg, rounds, timeout, spot, until, s)
  {
    forall id: nat ensures WaitsAt(rounds, timeout, s, spot, until, id) {
      WaitingAt(cfg, rounds, timeout, s, spot, until + 1, id);
    }
  }

  // ---------------------------------------------------------------- what each part of a turn keeps

  /** What is known of the books at a place of a run, deadlines having been checked up to a turn. */
  type Known = (Spot, nat, Books) -> bool

  ghost predicate RefillsKeep(cfg: Config, known: Known) {
    forall spot: Spot, until: nat, s: Books, round: Round
      {:trigger known(spot, until, s), RefilledBooks(s, PendingCap(cfg), round)} | known(spot, until, s) ::
      known(spot, until, RefilledBooks(s, PendingCap(cfg), round))
  }

  ghost predicate AnswersKeep(rounds: seq<Round>, known: Known) {
    forall s: Books, late: bool {:trigger RepliedBooks(s, AnswersAt(rounds, s.g.turn, late), late, 0)}
      | s.g.turn < |rounds| && known(Spot(s.g.turn, late, 0), CheckedTo(s.g.turn, late), s) ::
      known(NextSpot(s.g.turn, late), CheckedTo(s.g.turn, late),
        RepliedBooks(s, AnswersAt(rounds, s.g.turn, late), late, 0))
  }

  ghost predicate IssuingKeepsKnown(cfg: Config, rounds: seq<Round>, timeout: nat, known: Known) {
    forall s: Books {:trigger IssuedAll(Issuing(cfg, timeout), s, rounds[s.g.turn].sends, 0)}
      | s.g.turn < |rounds| && Issued(cfg, rounds, timeout, known, s) ::
      var i := IssuedAll(Issuing(cfg, timeout), s, rounds[s.g.turn].sends, 0);
      known(Spot(s.g.turn, true, 0), s.g.turn, i) && i.g.turn == s.g.turn && TriesBefore(i.g.tries, s.g.turn + 1, 0)
  }

  ghost predicate Issued(cfg: Config, rounds: seq<Round>, timeout: nat, known: Known, s: Books)
    requires s.g.turn < |rounds|
  {
    && known(Spot(s.g.turn, true, 0), s.g.turn, s) && TriesBefore(s.g.tries, s.g.turn, 0)
    && Apart(IssuedAll(Issuing(cfg, timeout), s, rounds[s.g.turn].sends, 0).g)
  }

  ghost predicate TimeoutsKeep(rounds: seq<Round>, timeout: nat, known: Known) {
    forall s: Books, ids: set<nat>, first: set<nat> -> nat {:trigger ExpiredBooks(s, ids, first)}
      | Expiring(rounds, timeout, s, ids) && known(Spot(s.g.turn, true, 0), s.g.turn, s) ::
      known(Spot(s.g.turn, true, 0), s.g.turn, ExpiredBooks(s, ids, first))
  }

  /** Deadlines of a turn are checked at its end. */
  ghost predicate ChecksKeep(rounds: seq<Round>, known: Known) {
    && (forall k: nat, s: Books {:trigger known(Spot(k, true, 0), k, s)}
         | k < |rounds| && known(Spot(k, true, 0), k, s) && NoneOverdue(rounds[k].now, s) ::
         known(Spot(k, true, 0), k + 1, s))
    && (forall k: nat, s: Books {:trigger known(Spot(k, true, 0), k + 1, s)} | known(Spot(k, true, 0), k + 1, s) ::
         known(Spot(k, true, 0), k, s))
  }

  predicate NoneOverdue(now: int, s: Books) { forall id | id in s.w.inflight :: now < s.w.inflight[id].deadline }

  ghost predicate ClosingTells(known: Known, told: Log -> bool) {
    forall spot: Spot, until: nat, s: Books, first: set<nat> -> nat
      {:trigger known(spot, until, s), ClosedBooks(s, first)} | known(spot, until, s) ::
      told(ClosedBooks(s, first).g)
  }

  ghost predicate TurnsBegin(known: Known, told: Log -> bool) {
    && (forall k: nat, s: Books {:trigger known(Spot(k, false, 0), k, s)} | known(Spot(k, false, 0), k, s) ::
         known(Spot(k, false, 0), k, s.AtTurn(k)) && told(s.g))
  }

  /** After a turn, while numbers keep apart, nothing is overdue. */
  ghost predicate TurnsCheck(cfg: Config, rounds: seq<Round>, timeout: nat, known: Known) {
    forall s: Books {:trigger TurnBooks(cfg, s, timeout, rounds[s.g.turn])}
      | s.g.turn < |rounds| && known(Spot(s.g.turn, false, 0), s.g.turn, s)
        && Apart(TurnBooks(cfg, s, timeout, rounds[s.g.turn]).g) ::
      NoneOverdue(rounds[s.g.turn].now, TurnBooks(cfg, s, timeout, rounds[s.g.turn]))
  }

  ghost predicate PartsKeep(cfg: Config, rounds: seq<Round>, timeout: nat, known: Known, told: Log -> bool) {
    && RefillsKeep(cfg, known) && AnswersKeep(rounds, known) && IssuingKeepsKnown(cfg, rounds, timeout, known)
    && TimeoutsKeep(rounds, timeout, known) && ChecksKeep(rounds, known) && ClosingTells(known, told)
    && TurnsBegin(known, told) && TurnsCheck(cfg, rounds, timeout, known)
  }

  // ---------------------------------------------------------------- that they keep it

  /** The invariant and what is told. */
  ghost function TellingOf(cfg: Config, rounds: seq<Round>, timeout: nat): Known {
    (spot: Spot, until: nat, s: Books) => Telling(cfg, rounds, timeout, spot, until, s)
  }

  ghost function ToldOf(rounds: seq<Round>, timeout: nat): Log -> bool { (g: Log) => AllTold(rounds, timeout, g) }

  lemma RefillTells(cfg: Config, rounds: seq<Round>, timeout: nat)
    ensures RefillsKeep(cfg, TellingOf(cfg, rounds, timeout))
  {
    var known := TellingOf(cfg, rounds, timeout);
    forall spot: Spot, until: nat, s: Books, round: Round | known(spot, until, s)
      ensures known(spot, until, RefilledBooks(s, PendingCap(cfg), round))
    {
      RefilledTells(cfg, rounds, timeout, s, round, spot, until);
    }
  }

  lemma RefilledTells(cfg: Config, rounds: seq<Round>, timeout: nat, s: Books, round: Round, spot: Spot, until: nat)
    requires Telling(cfg, rounds, timeout, spot, until, s)
    ensures Telling(cfg, rounds, timeout, spot, until, RefilledBooks(s, PendingCap(cfg), round))
  {
    RefilledSound(cfg, s, round);
    SameTells(rounds, timeout, s, RefilledBooks(s, PendingCap(cfg), round), spot, until);
  }

  lemma AnswersTell(cfg: Config, rounds: seq<Round>, timeout: nat)
    ensures AnswersKeep(rounds, TellingOf(cfg, rounds, timeout))
  {
    var known := TellingOf(cfg, rounds, timeout);
    forall s: Books, late: bool
      | s.g.turn < |rounds| && known(Spot(s.g.turn, late, 0), CheckedTo(s.g.turn, late), s)
      ensures known(NextSpot(s.g.turn, late), CheckedTo(s.g.turn, late),
                RepliedBooks(s, AnswersAt(rounds, s.g.turn, late), late, 0))
    {
      ListTells(cfg, rounds, timeout, s, late);
    }
  }

  lemma ListTells(cfg: Config, rounds: seq<Round>, timeout: nat, s: Books, late: bool)
    requires s.g.turn < |rounds|
    requires Telling(cfg, rounds, timeout, Spot(s.g.turn, late, 0), CheckedTo(s.g.turn, late), s)
    ensures Telling(cfg, rounds, timeout, NextSpot(s.g.turn, late), CheckedTo(s.g.turn, late),
              RepliedBooks(s, AnswersAt(rounds, s.g.turn, late), late, 0))
  {
    RepliedTells(cfg, rounds, timeout, s, AnswersAt(rounds, s.g.turn, late), late, 0);
  }

  lemma IssuingTells(cfg: Config, rounds: seq<Round>, timeout: nat)
    ensures IssuingKeepsKnown(cfg, rounds, timeout, TellingOf(cfg, rounds, timeout))
  {
    var known := TellingOf(cfg, rounds, timeout);
    forall s: Books | s.g.turn < |rounds| && Issued(cfg, rounds, timeout, known, s)
      ensures var i := IssuedAll(Issuing(cfg, timeout), s, rounds[s.g.turn].sends, 0);
              known(Spot(s.g.turn, true, 0), s.g.turn, i) && i.g.turn == s.g.turn
              && TriesBefore(i.g.tries, s.g.turn + 1, 0)
    {
      var m := IssuedAllTells(cfg, rounds, timeout, s);
    }
  }

  lemma TimeoutsTell(cfg: Config, rounds: seq<Round>, timeout: nat)
    ensures TimeoutsKeep(rounds, timeout, TellingOf(cfg, rounds, timeout))
  {
    var known := TellingOf(cfg, rounds, timeout);
    forall s: Books, ids: set<nat>, first: set<nat> -> nat
      | Expiring(rounds, timeout, s, ids) && known(Spot(s.g.turn, true, 0), s.g.turn, s)
      ensures known(Spot(s.g.turn, true, 0), s.g.turn, ExpiredBooks(s, ids, first))
    {
      ExpiredTells(cfg, rounds, timeout, s, ids, first);
    }
  }

  lemma ChecksTell(cfg: Config, rounds: seq<Round>, timeout: nat)
    ensures ChecksKeep(rounds, TellingOf(cfg, rounds, timeout))
  {
    var known := TellingOf(cfg, rounds, timeout);
    forall k: nat, s: Books {:trigger known(Spot(k, true, 0), k, s)}
      | k < |rounds| && known(Spot(k, true, 0), k, s) && NoneOverdue(rounds[k].now, s)
      ensures known(Spot(k, true, 0), k + 1, s)
    {
      StillInTime(cfg, rounds, timeout, s, Spot(k, true, 0), k);
    }
    forall k: nat, s: Books {:trigger known(Spot(k, true, 0), k + 1, s)} | known(Spot(k, true, 0), k + 1, s)
      ensures known(Spot(k, true, 0), k, s)
    {
      WaitedLess(cfg, rounds, timeout, s, Spot(k, true, 0), k);
    }
  }

  lemma {:induction false} SealedKeeps(s: Books, ids: set<nat>, first: set<nat> -> nat)
    ensures var s' := SealedAll(s, ids, first);
            s'.g.told == s.g.told && s'.g.settled == s.g.settled && s'.g.owner == s.g.owner
    decreases |ids|
  {
    if first(ids) in ids { SealedKeeps(SealedBooks(s, first(ids)), ids - {first(ids)}, first); }
  }

  lemma ClosedTells(rounds: seq<Round>, timeout: nat, s: Books, spot: Spot, until: nat, first: set<nat> -> nat)
    requires TellsAt(rounds, timeout, spot, until)(s)
    ensures ToldOf(rounds, timeout)(ClosedBooks(s, first).g)
  {
    var o := if s.w.openBatch.None? then s else SealedBooks(s.(w := s.w.(openBatch := None)), s.w.openBatch.value);
    SealedKeeps(o, o.w.batches.Keys, first);
    SameTells(rounds, timeout, s, ClosedBooks(s, first), spot, until);
  }

  lemma ClosingIsTold(cfg: Config, rounds: seq<Round>, timeout: nat)
    ensures ClosingTells(TellingOf(cfg, rounds, timeout), ToldOf(rounds, timeout))
  {
    var known, told := TellingOf(cfg, rounds, timeout), ToldOf(rounds, timeout);
    forall spot: Spot, until: nat, s: Books, first: set<nat> -> nat | known(spot, until, s)
      ensures told(ClosedBooks(s, first).g)
    {
      ClosedTells(rounds, timeout, s, spot, until, first);
    }
  }

  lemma TurnBegins(cfg: Config, rounds: seq<Round>, timeout: nat, s: Books, k: nat)
    requires Telling(cfg, rounds, timeout, Spot(k, false, 0), k, s)
    ensures Telling(cfg, rounds, timeout, Spot(k, false, 0), k, s.AtTurn(k))
  {
    AtTurnSound(cfg, s, k);
    SameTells(rounds, timeout, s, s.AtTurn(k), Spot(k, false, 0), k);
  }

  lemma BeginningTells(cfg: Config, rounds: seq<Round>, timeout: nat)
    ensures TurnsBegin(TellingOf(cfg, rounds, timeout), ToldOf(rounds, timeout))
  {
    var known, told := TellingOf(cfg, rounds, timeout), ToldOf(rounds, timeout);
    forall k: nat, s: Books {:trigger known(Spot(k, false, 0), k, s)} | known(Spot(k, false, 0), k, s)
      ensures known(Spot(k, false, 0), k, s.AtTurn(k)) && told(s.g)
    {
      TurnBegins(cfg, rounds, timeout, s, k);
    }
  }

  lemma CheckedTurn(cfg: Config, rounds: seq<Round>, timeout: nat, s: Books)
    requires s.g.turn < |rounds| && Picks(rounds[s.g.turn].first) && Sounds(cfg)(s)
    requires Apart(TurnBooks(cfg, s, timeout, rounds[s.g.turn]).g)
    ensures NoneOverdue(rounds[s.g.turn].now, TurnBooks(cfg, s, timeout, rounds[s.g.turn]))
  {
    TurnSound(cfg, s, timeout, rounds[s.g.turn]);
  }

  lemma TurnsChecked(cfg: Config, rounds: seq<Round>, timeout: nat)
    requires AllPick(rounds)
    ensures TurnsCheck(cfg, rounds, timeout, TellingOf(cfg, rounds, timeout))
  {
    var known := TellingOf(cfg, rounds, timeout);
    forall s: Books
      | s.g.turn < |rounds| && known(Spot(s.g.turn, false, 0), s.g.turn, s)
        && Apart(TurnBooks(cfg, s, timeout, rounds[s.g.turn]).g)
      ensures NoneOverdue(rounds[s.g.turn].now, TurnBooks(cfg, s, timeout, rounds[s.g.turn]))
    {
      CheckedTurn(cfg, rounds, timeout, s);
    }
  }

  lemma PartsTell(cfg: Config, rounds: seq<Round>, timeout: nat)
    requires AllPick(rounds)
    ensures PartsKeep(cfg, rounds, timeout, TellingOf(cfg, rounds, timeout), ToldOf(rounds, timeout))
  {
    RefillTells(cfg, rounds, timeout);
    AnswersTell(cfg, rounds, timeout);
    IssuingTells(cfg, rounds, timeout);
    TimeoutsTell(cfg, rounds, timeout);
    ChecksTell(cfg, rounds, timeout);
    ClosingIsTold(cfg, rounds, timeout);
    BeginningTells(cfg, rounds, timeout);
    TurnsChecked(cfg, rounds, timeout);
  }

  // ---------------------------------------------------------------- turns

  /** What holds at the start of turn `k`, and before its exit checks. */
  ghost predicate AtStart(known: Known, s: Books, k: nat) {
    known(Spot(k, false, 0), k, s) && TriesBefore(s.g.tries, k, 0)
  }

  ghost predicate Ending(known: Known, t: Books) {
    known(Spot(t.g.turn, true, 0), t.g.turn + 1, t) && TriesBefore(t.g.tries, t.g.turn + 1, 0)
  }

  /** Up to the requests a turn issues. */
  lemma IssuedKeeps(cfg: Config, rounds: seq<Round>, timeout: nat, known: Known, told: Log -> bool, s: Books)
    returns (i: Books)
    requires PartsKeep(cfg, rounds, timeout, known, told)
    requires s.g.turn < |rounds| && AtStart(known, s, s.g.turn)
    requires Apart(TurnBooks(cfg, s, timeout, rounds[s.g.turn]).g)
    ensures known(Spot(s.g.turn, true, 0), s.g.turn, i) && i.g.turn == s.g.turn
    ensures TriesBefore(i.g.tries, s.g.turn + 1, 0)
    ensures TurnBooks(cfg, s, timeout, rounds[s.g.turn]) ==
            ExpiredBooks(i, Overdue(i.w, rounds[s.g.turn].now), rounds[s.g.turn].first)
  {
    var turn, round := s.g.turn, rounds[s.g.turn];
    var f := RefilledBooks(s, PendingCap(cfg), round);
    var r := RepliedBooks(f, AnswersAt(rounds, turn, false), false, 0);
    i := IssuedAll(Issuing(cfg, timeout), r, round.sends, 0);
    assert known(Spot(turn, false, 0), turn, f);
    assert known(Spot(turn, true, 0), turn, r);
    assert Issued(cfg, rounds, timeout, known, r);
  }

  lemma TurnKeeps(cfg: Config, rounds: seq<Round>, timeout: nat, known: Known, told: Log -> bool, s: Books)
    requires PartsKeep(cfg, rounds, timeout, known, told)
    requires s.g.turn < |rounds| && AtStart(known, s, s.g.turn)
    requires Apart(TurnBooks(cfg, s, timeout, rounds[s.g.turn]).g)
    ensures var t := TurnBooks(cfg, s, timeout, rounds[s.g.turn]); t.g.turn == s.g.turn && Ending(known, t)
  {
    var i := IssuedKeeps(cfg, rounds, timeout, known, told, s);
    assert Expiring(rounds, timeout, i, Overdue(i.w, rounds[s.g.turn].now));
    assert known(Spot(s.g.turn, true, 0), s.g.turn, TurnBooks(cfg, s, timeout, rounds[s.g.turn]));
  }

  /** Draining started in a turn since which pacing has been over. */
  ghost predicate DrainSince(rounds: seq<Round>, drain: Option<int>, k: nat) {
    drain.Some? ==> 0 < k <= |rounds| && exists j: nat ::
      j < k && Idle(rounds, j, k - 1) && rounds[j].drainNow == drain.value
  }

  lemma DrainGoesOn(rounds: seq<Round>, timeout: nat, drain: Option<int>, k: nat)
    requires k < |rounds| && DrainSince(rounds, drain, k) && rounds[k].pacerDoneStill && rounds[k].quotaEmpty
    ensures var start := if drain.Some? then drain.value else rounds[k].drainNow;
            && DrainSince(rounds, Some(start), k + 1)
            && (rounds[k].drainCheck - start >= timeout + DRAIN_GRACE ==> DrainOver(rounds, timeout, k))
  {
    if drain.Some? {
      var j: nat :| j < k && Idle(rounds, j, k - 1) && rounds[j].drainNow == drain.value;
      assert Idle(rounds, j, k);
    } else {
      assert Idle(rounds, k, k);
    }
  }

  /** When the drain is over, whatever is in flight times out. */
  lemma DrainedKeeps(cfg: Config, rounds: seq<Round>, timeout: nat, known: Known, told: Log -> bool, t: Books)
    requires PartsKeep(cfg, rounds, timeout, known, told)
    requires Ending(known, t) && DrainOver(rounds, timeout, t.g.turn)
    ensures var first := rounds[t.g.turn].first;
            told(ClosedBooks(ExpiredBooks(t, t.w.inflight.Keys, first), first).g)
  {
    var e := ExpiredBooks(t, t.w.inflight.Keys, rounds[t.g.turn].first);
    assert Expiring(rounds, timeout, t, t.w.inflight.Keys);
    assert known(Spot(t.g.turn, true, 0), t.g.turn, t);
    assert known(Spot(t.g.turn, true, 0), t.g.turn, e);
  }

  /** After the late answers the next turn starts. */
  lemma LateKeeps(cfg: Config, rounds: seq<Round>, timeout: nat, known: Known, told: Log -> bool, t: Books)
    requires PartsKeep(cfg, rounds, timeout, known, told) && t.g.turn < |rounds| && Ending(known, t)
    ensures AtStart(known, RepliedBooks(t, rounds[t.g.turn].late, true, 0), t.g.turn + 1)
  {
    assert AnswersAt(rounds, t.g.turn, true) == rounds[t.g.turn].late;
  }

  /** What holds after a turn. */
  ghost predicate AfterTurn(rounds: seq<Round>, known: Known, told: Log -> bool, s: Books, drain: Option<int>,
                            ended: bool, k: nat)
  {
    if ended then told(s.g) else AtStart(known, s, k) && DrainSince(rounds, drain, k)
  }

  /** Where a turn can go from its exit checks. */
  lemma EndKeeps(cfg: Config, rounds: seq<Round>, timeout: nat, known: Known, told: Log -> bool, t: Books,
                 drain: Option<int>)
    requires PartsKeep(cfg, rounds, timeout, known, told)
    requires t.g.turn < |rounds| && Ending(known, t) && DrainSince(rounds, drain, t.g.turn)
    ensures told(ClosedBooks(t, rounds[t.g.turn].first).g)
    ensures AtStart(known, RepliedBooks(t, rounds[t.g.turn].late, true, 0), t.g.turn + 1)
    ensures var round := rounds[t.g.turn];
            var start := if drain.Some? then drain.value else round.drainNow;
            round.pacerDoneStill && round.quotaEmpty ==>
              && DrainSince(rounds, Some(start), t.g.turn + 1)
              && (round.drainCheck - start >= timeout + DRAIN_GRACE ==>
                    told(ClosedBooks(ExpiredBooks(t, t.w.inflight.Keys, round.first), round.first).g))
  {
    LateKeeps(cfg, rounds, timeout, known, told, t);
    if rounds[t.g.turn].pacerDoneStill && rounds[t.g.turn].quotaEmpty {
      DrainGoesOn(rounds, timeout, drain, t.g.turn);
      if DrainOver(rounds, timeout, t.g.turn) { DrainedKeeps(cfg, rounds, timeout, known, told, t); }
    }
  }

  lemma WholeTurnKeeps(cfg: Config, rounds: seq<Round>, timeout: nat, known: Known, told: Log -> bool, s: Books,
                       drain: Option<int>)
    requires PartsKeep(cfg, rounds, timeout, known, told)
    requires s.g.turn < |rounds| && AtStart(known, s, s.g.turn) && DrainSince(rounds, drain, s.g.turn)
    requires Apart(WholeTurn(cfg, s, drain, timeout, rounds[s.g.turn]).0.g)
    ensures var (s', drain', ended) := WholeTurn(cfg, s, drain, timeout, rounds[s.g.turn]);
            AfterTurn(rounds, known, told, s', drain', ended, s.g.turn + 1)
  {
    WholeTurnCounts(cfg, s, drain, timeout, rounds[s.g.turn]);
    TurnKeeps(cfg, rounds, timeout, known, told, s);
    EndKeeps(cfg, rounds, timeout, known, told, TurnBooks(cfg, s, timeout, rounds[s.g.turn]), drain);
  }

  // ---------------------------------------------------------------- runs

  /** What every turn leads to. */
  ghost predicate TurnsLead(turn: Turner, rounds: seq<Round>, inv: (Books, Option<int>, nat) -> bool,
                            fin: Books -> bool)
  {
    forall s: Books, drain: Option<int>, k: nat {:trigger turn(s.AtTurn(k), drain, rounds[k])}
      | k < |rounds| && inv(s, drain, k) ::
      Leads(turn(s.AtTurn(k), drain, rounds[k]), inv, fin, k + 1)
  }

  ghost predicate Leads(r: (Books, Option<int>, bool), inv: (Books, Option<int>, nat) -> bool, fin: Books -> bool,
                        k: nat)
  {
    if r.2 then fin(r.0) else inv(r.0, r.1, k)
  }

  lemma {:induction false} RunLeads(turn: Turner, s: Books, drain: Option<int>, rounds: seq<Round>, k: nat,
                                    inv: (Books, Option<int>, nat) -> bool, fin: Books -> bool)
    requires k <= |rounds| && inv(s, drain, k) && TurnsLead(turn, rounds, inv, fin)
    requires forall t: Books, d: Option<int> | inv(t, d, |rounds|) :: fin(t)
    ensures fin(RunFrom(turn, s, drain, rounds, k).0)
    decreases |rounds| - k
  {
    if k < |rounds| {
      var (s', drain', ended) := turn(s.AtTurn(k), drain, rounds[k]);
      assert Leads((s', drain', ended), inv, fin, k + 1);
      if !ended { RunLeads(turn, s', drain', rounds, k + 1, inv, fin); }
    }
  }

  /** What holds between turns, as long as numbers keep apart. */
  ghost function Between(rounds: seq<Round>, known: Known): (Books, Option<int>, nat) -> bool {
    (s: Books, drain: Option<int>, k: nat) => Apart(s.g) ==> AtStart(known, s, k) && DrainSince(rounds, drain, k)
  }

  ghost function AtEnd(told: Log -> bool): Books -> bool { (s: Books) => Apart(s.g) ==> told(s.g) }

  lemma TurnLeads(cfg: Config, rounds: seq<Round>, timeout: nat, known: Known, told: Log -> bool, s: Books,
                  drain: Option<int>, k: nat)
    requires PartsKeep(cfg, rounds, timeout, known, told) && k < |rounds| && Between(rounds, known)(s, drain, k)
    ensures Leads(WholeTurn(cfg, s.AtTurn(k), drain, timeout, rounds[k]), Between(rounds, known), AtEnd(told), k + 1)
  {
    var (s', drain', ended) := WholeTurn(cfg, s.AtTurn(k), drain, timeout, rounds[k]);
    if Apart(s'.g) {
      ApartBefore(cfg, s, drain, timeout, rounds[k], k);
      TurnFollows(cfg, rounds, timeout, known, told, s, drain, k);
    }
  }

  /** Numbers that keep apart after a turn kept apart before. */
  lemma ApartBefore(cfg: Config, s: Books, drain: Option<int>, timeout: nat, round: Round, k: nat)
    requires Apart(WholeTurn(cfg, s.AtTurn(k), drain, timeout, round).0.g)
    ensures Apart(s.g)
  {
    WholeTurnCounts(cfg, s.AtTurn(k), drain, timeout, round);
  }

  lemma TurnFollows(cfg: Config, rounds: seq<Round>, timeout: nat, known: Known, told: Log -> bool, s: Books,
                    drain: Option<int>, k: nat)
    requires PartsKeep(cfg, rounds, timeout, known, told) && k < |rounds|
    requires AtStart(known, s, k) && DrainSince(rounds, drain, k)
    requires Apart(WholeTurn(cfg, s.AtTurn(k), drain, timeout, rounds[k]).0.g)
    ensures var (s', drain', ended) := WholeTurn(cfg, s.AtTurn(k), drain, timeout, rounds[k]);
            AfterTurn(rounds, known, told, s', drain', ended, k + 1)
  {
    assert known(Spot(k, false, 0), k, s);
    WholeTurnKeeps(cfg, rounds, timeout, known, told, s.AtTurn(k), drain);
  }

  lemma RunKnown(cfg: Config, timeout: nat, s: Books, rounds: seq<Round>, known: Known, told: Log -> bool)
    requires PartsKeep(cfg, rounds, timeout, known, told) && AtStart(known, s, 0)
    ensures AtEnd(told)(RunFrom(Turning(cfg, timeout), s, None, rounds, 0).0)
  {
    var turn, inv, fin := Turning(cfg, timeout), Between(rounds, known), AtEnd(told);
    forall t: Books, drain: Option<int>, k: nat {:trigger turn(t.AtTurn(k), drain, rounds[k])}
      | k < |rounds| && inv(t, drain, k)
      ensures Leads(turn(t.AtTurn(k), drain, rounds[k]), inv, fin, k + 1)
    {
      TurnLeads(cfg, rounds, timeout, known, told, t, drain, k);
    }
    forall t: Books, d: Option<int> | inv(t, d, |rounds|) ensures fin(t) {
      if Apart(t.g) { assert known(Spot(|rounds|, false, 0), |rounds|, t); }
    }
    RunLeads(turn, s, None, rounds, 0, inv, fin);
  }

  lemma RunBegins(cfg: Config, workerId: nat, timeout: nat, rounds: seq<Round>)
    requires cfg.Valid()
    ensures AtStart(TellingOf(cfg, rounds, timeout), Initial(cfg, workerId), 0)
  {
    InitialSound(cfg, workerId);
  }

  /** Over any environment, while numbers keep apart, each recorded request counted was told once, and told what its
      environment says of it. */
  lemma RunTells(cfg: Config, workerId: nat, timeout: nat, rounds: seq<Round>)
    requires cfg.Valid() && AllPick(rounds) && Apart(Run(cfg, workerId, timeout, rounds).0.g)
    ensures AllTold(rounds, timeout, Run(cfg, workerId, timeout, rounds).0.g)
  {
    PartsTell(cfg, rounds, timeout);
    RunBegins(cfg, workerId, timeout, rounds);
    RunKnown(cfg, timeout, Initial(cfg, workerId), rounds, TellingOf(cfg, rounds, timeout), ToldOf(rounds, timeout));
    assert ToldOf(rounds, timeout)(Run(cfg, workerId, timeout, rounds).0.g);
  }

  lemma RunIsTold(cfg: Config, workerId: nat, timeout: nat, rounds: seq<Round>)
    requires AllPick(rounds)
    ensures var g := Run(cfg, workerId, timeout, rounds).0.g; cfg.Valid() && Apart(g) ==> AllTold(rounds, timeout, g)
  {
    if cfg.Valid() && Apart(Run(cfg, workerId, timeout, rounds).0.g) { RunTells(cfg, workerId, timeout, rounds); }
  }

  // ---------------------------------------------------------------- the loop

  /** The worker loop over any environment: it goes where its turns lead and, while numbers keep apart, keeps the
      invariant, tells each recorded request what the environment says of it, and leaves nothing uncounted when it ends
      by itself. */
  method RunWorker(cfg: Config, workerId: nat, timeout: nat, rounds: seq<Round>)
    returns (w: Worker, exited: bool, ghost g: Log)
    requires AllPick(rounds)
    ensures (Books(w, g), exited) == Run(cfg, workerId, timeout, rounds)
    ensures cfg.Valid() && Apart(g) ==> Stands(cfg)(Books(w, g), exited) && AllTold(rounds, timeout, g)
  {
    RunStands(cfg, workerId, timeout, rounds);
    RunIsTold(cfg, workerId, timeout, rounds);
    w, g := Start(cfg, workerId);
    exited := false;
    var drainStarted: Option<int> := None;
    var turns: nat := 0;
    while turns < |rounds|
      invariant turns <= |rounds| && !exited
      invariant RunFrom(Turning(cfg, timeout), Books(w, g), drainStarted, rounds, turns) ==
                Run(cfg, workerId, timeout, rounds)
    {
      ghost var s, drain := Books(w, g).AtTurn(turns), drainStarted;
      w, drainStarted, exited, g := OneTurn(cfg, w, drainStarted, timeout, rounds[turns], g.(turn := turns));
      assert Turning(cfg, timeout)(s, drain, rounds[turns]) == (Books(w, g), drainStarted, exited);
      turns := turns + 1;
      if exited {
        return;
      }
    }
  }

  // ---------------------------------------------------------------- accounts of a whole run

  /** The response the environment gave there; a timeout where it gave none. */
  function Given(rounds: seq<Round>, source: Source): Response {
    match source
    case Reply(turn, i, late) =>
      if turn < |rounds| && i < |AnswersAt(rounds, turn, late)| then AnswersAt(rounds, turn, late)[i].1 else TIMED_OUT
    case Expired(turn) => TIMED_OUT
    case Unsent => TIMED_OUT
  }

  /** A timeout is one late row, counted under the last decision, and nothing else. */
  lemma TimeoutAdds(kind: Kind)
    ensures Adds(TIMED_OUT, kind) == if kind == Late || kind == Decision(4) then 1 else 0
  {}

  /** What the responses the environment gave to the requests of a batch add to a counter. */
  function GivenTo(rounds: seq<Round>, told: seq<Told>, b: nat, kind: Kind): nat {
    if |told| == 0 then 0
    else
      var last := told[|told| - 1];
      GivenTo(rounds, told[..|told| - 1], b, kind)
      + if last.batch == b then Adds(Given(rounds, last.source), kind) else 0
  }

  /** What those given to all requests add. */
  function GivenToAll(rounds: seq<Round>, told: seq<Told>, kind: Kind): nat {
    if |told| == 0 then 0
    else GivenToAll(rounds, told[..|told| - 1], kind) + Adds(Given(rounds, told[|told| - 1].source), kind)
  }

  predicate AsGiven(rounds: seq<Round>, told: seq<Told>) {
    forall k | 0 <= k < |told| :: told[k].r == Given(rounds, told[k].source)
  }

  lemma ToldAsGiven(rounds: seq<Round>, timeout: nat, g: Log)
    requires AllTold(rounds, timeout, g)
    ensures AsGiven(rounds, g.told)
  {
    forall k | 0 <= k < |g.told| ensures g.told[k].r == Given(rounds, g.told[k].source) {
      assert ToldAt(rounds, timeout, g, k);
    }
  }

  lemma {:induction false} RowsGiven(rounds: seq<Round>, told: seq<Told>, b: nat, kind: Kind)
    requires AsGiven(rounds, told)
    ensures RowsTold(told, b, kind) == GivenTo(rounds, told, b, kind)
    ensures AllRows(told, kind) == GivenToAll(rounds, told, kind)
  {
    if |told| == 0 {
    } else {
      RowsGiven(rounds, told[..|told| - 1], b, kind);
    }
  }

  ghost function Requests(told: seq<Told>): set<nat> { set k | 0 <= k < |told| :: told[k].x }

  lemma {:induction false} DistinctRequests(told: seq<Told>)
    requires forall j, k | 0 <= j < k < |told| :: told[j].x != told[k].x
    ensures |Requests(told)| == |told|
  {
    if |told| == 0 {
      assert Requests(told) == {};
    } else {
      var front, last := told[..|told| - 1], told[|told| - 1];
      DistinctRequests(front);
      forall k | 0 <= k < |front| ensures front[k].x == told[k].x {}
      assert Requests(told) == Requests(front) + {last.x};
    }
  }

  lemma SubsetOfSameSize(a: set<nat>, b: set<nat>)
    requires a <= b && |a| == |b|
    ensures a == b
  {
    assert b == a + (b - a);
  }

  /** When all have been counted, every recorded request was told something. */
  lemma EveryoneTold(cfg: Config, rounds: seq<Round>, timeout: nat, s: Books)
    requires Closed(cfg, s) && AllTold(rounds, timeout, s.g)
    ensures Requests(s.g.told) == s.g.owner.Keys
  {
    var told := s.g.told;
    forall j, k | 0 <= j < k < |told| ensures told[j].x != told[k].x { assert ToldAt(rounds, timeout, s.g, k); }
    DistinctRequests(told);
    forall k | 0 <= k < |told| ensures told[k].x in s.g.owner { assert ToldAt(rounds, timeout, s.g, k); }
    SubsetOfSameSize(Requests(told), s.g.owner.Keys);
  }

  /** When the loop ends by itself, every recorded token taken has become a request that was told, once, what the
      environment says of it; the counters of each finalised batch are what these responses to its requests add, and
      those of all batches what all of them add.  The batches have the size of a batch, except for the last, which has
      what is left. */
  lemma RunAccounts(cfg: Config, workerId: nat, timeout: nat, rounds: seq<Round>)
    requires cfg.Valid() && AllPick(rounds) && Apart(Run(cfg, workerId, timeout, rounds).0.g)
    requires Run(cfg, workerId, timeout, rounds).1
    ensures var s := Run(cfg, workerId, timeout, rounds).0;
            && AllTold(rounds, timeout, s.g) && Requests(s.g.told) == s.g.owner.Keys
            && |s.g.told| == |s.g.owner| == s.g.taken <= |s.w.done| * cfg.batchSize && |s.g.finals| == |s.w.done|
            && (forall k: nat, kind: Kind | k < |s.w.done| ::
                  Field(s.w.done[k], kind) == GivenTo(rounds, s.g.told, s.g.finals[k], kind))
            && (forall kind: Kind :: SumFields(s.w.done, kind, |s.w.done|) == GivenToAll(rounds, s.g.told, kind))
            && (forall k: nat | k < |s.w.done| ::
                  0 < CountTold(s.g.told, s.g.finals[k]) == Share(s.g.taken, cfg.batchSize, k))
  {
    RunSound(cfg, workerId, timeout, rounds);
    RunTells(cfg, workerId, timeout, rounds);
    ClosedAccounts(cfg, rounds, timeout, Run(cfg, workerId, timeout, rounds).0);
  }

  lemma ClosedAccounts(cfg: Config, rounds: seq<Round>, timeout: nat, s: Books)
    requires Closed(cfg, s) && AllTold(rounds, timeout, s.g)
    ensures Requests(s.g.told) == s.g.owner.Keys && |s.g.told| == |s.g.owner| <= |s.w.done| * cfg.batchSize
    ensures forall k: nat, kind: Kind | k < |s.w.done| ::
              Field(s.w.done[k], kind) == GivenTo(rounds, s.g.told, s.g.finals[k], kind)
    ensures forall kind: Kind :: SumFields(s.w.done, kind, |s.w.done|) == GivenToAll(rounds, s.g.told, kind)
    ensures forall k: nat | k < |s.w.done| ::
              0 < CountTold(s.g.told, s.g.finals[k]) == Share(|s.g.owner|, cfg.batchSize, k)
  {
    EveryoneTold(cfg, rounds, timeout, s);
    ToldAsGiven(rounds, timeout, s.g);
    ClosedSizes(cfg, s);
    forall kind: Kind ensures SumFields(s.w.done, kind, |s.w.done|) == GivenToAll(rounds, s.g.told, kind) {
      ClosedRows(cfg, s, kind);
      RowsGiven(rounds, s.g.told, 0, kind);
    }
    forall k: nat, kind: Kind | k < |s.w.done|
      ensures Field(s.w.done[k], kind) == GivenTo(rounds, s.g.told, s.g.finals[k], kind)
    {
      assert ClosedAt(cfg, s.w, s.g, k);
      RowsGiven(rounds, s.g.told, s.g.finals[k], kind);
    }
    forall k: nat | k < |s.w.done| ensures CountTold(s.g.told, s.g.finals[k]) == |Members(s.g.owner, s.g.finals[k])| {
      assert ClosedAt(cfg, s.w, s.g, k);
    }
  }

  // ---------------------------------------------------------------- responses of one row

  predicate AllOneRow(told: seq<Told>) { forall k | 0 <= k < |told| :: told[k].r.rows == 1 }

  predicate OneRow(answers: seq<(nat, Response)>) { forall k | 0 <= k < |answers| :: answers[k].1.rows == 1 }

  /** Every response that arrives in these rounds stands for one row. */
  predicate OneRowRounds(rounds: seq<Round>) {
    forall k | 0 <= k < |rounds| :: OneRow(rounds[k].answers) && OneRow(rounds[k].late)
  }

  lemma {:induction false} OneRowCounts(told: seq<Told>, b: nat)
    requires AllOneRow(told)
    ensures RowsTold(told, b, Good) + RowsTold(told, b, Bad) + RowsTold(told, b, Late) == CountTold(told, b)
  {
    if |told| > 0 { OneRowCounts(told[..|told| - 1], b); }
  }

  lemma {:induction false} OneRowTotal(told: seq<Told>)
    requires AllOneRow(told)
    ensures AllRows(told, Good) + AllRows(told, Bad) + AllRows(told, Late) == |told|
  {
    if |told| > 0 { OneRowTotal(told[..|told| - 1]); }
  }

  lemma GivenOneRow(rounds: seq<Round>, told: seq<Told>)
    requires OneRowRounds(rounds) && AsGiven(rounds, told)
    ensures AllOneRow(told)
  {}

  /** The responses counted in a batch. */
  function Responses(b: Batch): nat { b.ok + b.err + b.timeout }

  lemma ClosedBalances(cfg: Config, rounds: seq<Round>, timeout: nat, s: Books)
    requires Closed(cfg, s) && AllTold(rounds, timeout, s.g) && OneRowRounds(rounds)
    ensures var n := |s.w.done|;
            && SumFields(s.w.done, Good, n) + SumFields(s.w.done, Bad, n) + SumFields(s.w.done, Late, n) == |s.g.owner|
            && |s.g.owner| <= n * cfg.batchSize
            && forall k: nat | k < n :: 0 < Responses(s.w.done[k]) == Share(|s.g.owner|, cfg.batchSize, k)
  {
    ToldAsGiven(rounds, timeout, s.g);
    GivenOneRow(rounds, s.g.told);
    ClosedSizes(cfg, s);
    OneRowTotal(s.g.told);
    ClosedRows(cfg, s, Good);
    ClosedRows(cfg, s, Bad);
    ClosedRows(cfg, s, Late);
    forall k: nat | k < |s.w.done| ensures Responses(s.w.done[k]) == |Members(s.g.owner, s.g.finals[k])| {
      assert ClosedAt(cfg, s.w, s.g, k);
      OneRowCounts(s.g.told, s.g.finals[k]);
    }
  }

  /** With responses of one row, successes, errors and timeouts add up to the recorded tokens taken, in
      every batch and over all of them. */
  lemma RunBalances(cfg: Config, workerId: nat, timeout: nat, rounds: seq<Round>)
    requires cfg.Valid() && AllPick(rounds) && Apart(Run(cfg, workerId, timeout, rounds).0.g)
    requires Run(cfg, workerId, timeout, rounds).1 && OneRowRounds(rounds)
    ensures var s := Run(cfg, workerId, timeout, rounds).0;
            var n := |s.w.done|;
            && SumFields(s.w.done, Good, n) + SumFields(s.w.done, Bad, n) + SumFields(s.w.done, Late, n) == s.g.taken
            && s.g.taken <= n * cfg.batchSize
            && forall k: nat | k < n :: 0 < Responses(s.w.done[k]) == Share(s.g.taken, cfg.batchSize, k)
  {
    RunSound(cfg, workerId, timeout, rounds);
    RunTells(cfg, workerId, timeout, rounds);
    ClosedBalances(cfg, rounds, timeout, Run(cfg, workerId, timeout, rounds).0);
  }
}
