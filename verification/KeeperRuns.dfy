/** Runs of the keeper's loop: every tick reconciles what is pending before it sends anything. */
module KeeperRuns {
  import opened Numbers
  import opened Journal
  import opened JournalRuns

  /**
   * A candidate the loop got to send: its cursor, its transaction, and the balances its reservation was measured from.
   */
  datatype Candidate = Candidate(
    cursor: string, cursorWrite: Write, tx: Submission, preBalance: int, postBalance: int, networkFee: int,
    write: Write)

  datatype Round =
    | Restarted
    | Tick(now: Instant, reports: seq<Report>, settleWrites: seq<Write>, candidates: seq<Candidate>)

  /** Everything sent was reserved at the cost measured for it, under the tick's own clock. */
  predicate Measured(c: Candidate, now: Instant) {
    c.tx.submittedAt == now && ReserveCost(c.preBalance, c.postBalance, c.networkFee) == Success(c.tx.reserved)
  }

  /** One report and one write for each pending transaction, and a clock that does not run backwards. */
  predicate LegalRound(w: World, round: Round) {
    round.Restarted?
    || (&& |round.reports| == |w.j.live.pending| == |round.settleWrites|
        && w.now <= round.now
        && forall i :: 0 <= i < |round.candidates| ==> Measured(round.candidates[i], round.now))
  }

  function SendEvents(candidates: seq<Candidate>): seq<Event> {
    if candidates == [] then []
    else
      var last := candidates[|candidates| - 1];
      SendEvents(candidates[..|candidates| - 1]) + [Scanned(last.cursor, last.cursorWrite), Send(last.tx, last.write)]
  }

  /** What a round does to the journal; a reconciliation that fails ends its tick before anything is sent. */
  function Played(w: World, round: Round): seq<Event>
    requires LegalRound(w, round)
  {
    if round.Restarted? then [Crash]
    else
      var pending := w.j.live.pending;
      var reconciled := Reconcile(w.j, pending, round.reports, round.now, round.settleWrites);
      Attempted(w.j, pending, round.reports, round.now, round.settleWrites)
      + if reconciled.2.Fail? then [] else SendEvents(round.candidates)
  }

  /** The rounds a keeper can live through from `w`. */
  predicate AllLegal(w: World, rounds: seq<Round>, limits: Limits)
    decreases |rounds|
  {
    rounds == []
    || (LegalRound(w, rounds[0]) && AllLegal(After(w, Played(w, rounds[0]), limits), rounds[1..], limits))
  }

  function Lived(w: World, rounds: seq<Round>, limits: Limits): World
    requires AllLegal(w, rounds, limits)
    decreases |rounds|
  {
    if rounds == [] then w else Lived(After(w, Played(w, rounds[0]), limits), rounds[1..], limits)
  }

  // ---- A keeper's life is a run of the journal ----

  lemma {:induction false} AfterJoins(w: World, a: seq<Event>, b: seq<Event>, limits: Limits)
    ensures After(w, a + b, limits) == After(After(w, a, limits), b, limits)
    ensures AllTimely(w, a, limits) && AllTimely(After(w, a, limits), b, limits) ==> AllTimely(w, a + b, limits)
  {
    hide Step, Timely;
    if b == [] {
      assert a + b == a;
    } else {
      assert (a + b)[..|a + b| - 1] == a + b[..|b| - 1];
      AfterJoins(w, a, b[..|b| - 1], limits);
    }
  }

  lemma {:induction false} SendsAreTimely(w: World, candidates: seq<Candidate>, now: Instant, limits: Limits)
    requires w.now <= now && forall i :: 0 <= i < |candidates| ==> candidates[i].tx.submittedAt == now
    ensures AllTimely(w, SendEvents(candidates), limits)
    ensures After(w, SendEvents(candidates), limits).now <= now
  {
    hide Reserve, Advance;
    if candidates != [] {
      var (init, last) := (candidates[..|candidates| - 1], candidates[|candidates| - 1]);
      SendsAreTimely(w, init, now, limits);
      var mid := After(w, SendEvents(init), limits);
      TwoEvents(mid, Scanned(last.cursor, last.cursorWrite), Send(last.tx, last.write), limits);
      AfterJoins(w, SendEvents(init), [Scanned(last.cursor, last.cursorWrite), Send(last.tx, last.write)], limits);
    }
  }

  lemma TwoEvents(w: World, d: Event, e: Event, limits: Limits)
    ensures After(w, [d, e], limits) == Step(Step(w, d, limits), e, limits)
    ensures Timely(w, d) && Timely(Step(w, d, limits), e) ==> AllTimely(w, [d, e], limits)
  {
    hide Step, Timely;
    assert [d, e][..1] == [d] && [d][..0] == [];
    assert After(w, [], limits) == w && AllTimely(w, [], limits);
    assert After(w, [d], limits) == Step(w, d, limits);
    assert Timely(w, d) ==> AllTimely(w, [d], limits);
  }

  lemma RoundIsTimely(w: World, round: Round, limits: Limits)
    requires LegalRound(w, round)
    ensures AllTimely(w, Played(w, round), limits)
  {
    hide Step, Attempted, Reconcile;
    if round.Restarted? {
      assert [Crash][..0] == [];
      assert AllTimely(w, [], limits);
    } else {
      var (pending, now) := (w.j.live.pending, round.now);
      ReconciliationIsARun(w, pending, round.reports, now, round.settleWrites, limits);
      var settled := Attempted(w.j, pending, round.reports, now, round.settleWrites);
      SendsAreTimely(After(w, settled, limits), round.candidates, now, limits);
      AfterJoins(w, settled, SendEvents(round.candidates), limits);
      assert settled + [] == settled;
    }
  }

  /** Whatever a keeper lives through is a timely run of its journal, so every law of those runs holds of it. */
  lemma {:induction false} LifeIsARun(w: World, rounds: seq<Round>, limits: Limits) returns (events: seq<Event>)
    requires AllLegal(w, rounds, limits)
    ensures AllTimely(w, events, limits) && Lived(w, rounds, limits) == After(w, events, limits)
    decreases |rounds|
  {
    hide Played, LegalRound;
    if rounds == [] {
      events := [];
    } else {
      var first := Played(w, rounds[0]);
      RoundIsTimely(w, rounds[0], limits);
      var rest := LifeIsARun(After(w, first, limits), rounds[1..], limits);
      AfterJoins(w, first, rest, limits);
      events := first + rest;
    }
  }

  // ---- The overrun latch ----

  /** Once the latch is in the file, nothing is ever broadcast again. */
  lemma {:induction false} LatchedIsForever(w: World, events: seq<Event>, limits: Limits)
    requires Overrun(w.j) && w.j.disk.budgetOverrun
    ensures var w' := After(w, events, limits); w'.sent == w.sent && Overrun(w'.j) && w'.j.disk.budgetOverrun
  {
    hide Available, ValidSaved, Keep, Find, Without;
    if events != [] {
      LatchedIsForever(w, events[..|events| - 1], limits);
    }
  }

  /** The answers of a cluster that has forgotten every pending transaction: each expires at its full reservation. */
  function Forgotten(pending: seq<Pending>): (reports: seq<Report>)
    ensures |reports| == |pending|
  {
    seq(|pending|, i requires 0 <= i < |pending| =>
      Report(Absent, None, pending[i].tx.lastValidBlockHeight + 1, Absent, false))
  }

  function AllWritten(n: nat): (writes: seq<Write>)
    ensures |writes| == n
  {
    seq(n, _ => Written)
  }

  lemma WithoutFirst(pending: seq<Pending>)
    requires pending != [] && Distinct(pending)
    ensures Without(pending, pending[0].tx.signature) == pending[1..]
  {
    var rest := pending[1..];
    assert pending == [pending[0]] + rest;
    WithoutJoins([pending[0]], rest, pending[0].tx.signature);
    WithoutAbsent(rest, pending[0].tx.signature);
    assert [pending[0]][..0] == [];
    assert Without([], pending[0].tx.signature) == [];
  }

  lemma {:induction false} WithoutJoins(a: seq<Pending>, b: seq<Pending>, signature: string)
    ensures Without(a + b, signature) == Without(a, signature) + Without(b, signature)
  {
    if b == [] {
      assert a + b == a;
    } else {
      assert (a + b)[..|a + b| - 1] == a + b[..|b| - 1];
      WithoutJoins(a, b[..|b| - 1], signature);
    }
  }

  lemma {:induction false} TotalOfFirst(pending: seq<Pending>)
    requires pending != [] && forall i :: 0 <= i < |pending| ==> 0 <= pending[i].tx.reserved
    ensures 0 <= pending[0].tx.reserved <= Total(pending)
  {
    if |pending| > 1 {
      TotalOfFirst(pending[..|pending| - 1]);
    }
  }

  /** Settling the oldest transaction at its reservation always fits an unlatched, written journal. */
  lemma ExpireFirst(w: World, limits: Limits)
    requires Inv(w, limits) && !w.j.failed && !w.j.live.budgetOverrun && limits.daily <= MAX_SAFE
        && w.j.live.pending != []
    ensures var p := w.j.live.pending[0];
            var (j, settled) := Settle(w.j, p.tx.signature, p.tx.reserved, w.now, Written);
            && settled.Pass? && !j.failed && !j.live.budgetOverrun
            && j.live.pending == w.j.live.pending[1..]
  {
    hide Counted, RateLimited, Chronological, Durable, Total, Without;
    var s := w.j.live;
    assert ValidPending(s.pending[0]);
    forall i | 0 <= i < |s.pending| ensures 0 <= s.pending[i].tx.reserved {
      assert ValidPending(s.pending[i]);
    }
    TotalOfFirst(s.pending);
    assert Spent(s, DayOf(w.now)) + Total(s.pending) <= limits.daily;
    WithoutFirst(s.pending);
  }

  /** A pass over a forgetful cluster empties an unlatched journal without latching it. */
  lemma {:induction false} ExpireAll(w: World, limits: Limits, n: nat)
    requires Inv(w, limits) && !w.j.failed && !w.j.live.budgetOverrun && limits.daily <= MAX_SAFE
    requires n <= |w.j.live.pending|
    ensures var pending := w.j.live.pending;
            var r := Reconcile(w.j, pending[..n], Forgotten(pending)[..n], w.now, AllWritten(|pending|)[..n]);
            && r.2.Pass? && !r.0.failed && !r.0.live.budgetOverrun
            && r.0.live.pending == pending[n..]
  {
    hide Settle, Inv;
    if n > 0 {
      var pending := w.j.live.pending;
      var (reports, writes) := (Forgotten(pending), AllWritten(|pending|));
      ExpireAll(w, limits, n - 1);
      assert pending[..n][..n - 1] == pending[..n - 1] && reports[..n][..n - 1] == reports[..n - 1];
      assert writes[..n][..n - 1] == writes[..n - 1];
      var before := Reconcile(w.j, pending[..n - 1], reports[..n - 1], w.now, writes[..n - 1]).0;
      var mid := ExpiredWorld(w, limits, n - 1);
      ExpireFirst(mid, limits);
      assert mid.j.live.pending[0] == pending[n - 1] && mid.j.live.pending[1..] == pending[n..];
    }
  }

  /** The world after the first `n` expiries, which is still a sound one. */
  lemma ExpiredWorld(w: World, limits: Limits, n: nat) returns (mid: World)
    requires Inv(w, limits) && n <= |w.j.live.pending|
    ensures Inv(mid, limits) && mid.now == w.now && mid.sent == w.sent
    ensures var pending := w.j.live.pending;
            mid.j == Reconcile(w.j, pending[..n], Forgotten(pending)[..n], w.now, AllWritten(|pending|)[..n]).0
  {
    hide Inv, Reconcile, Attempted;
    var pending := w.j.live.pending;
    var (reports, writes) := (Forgotten(pending), AllWritten(|pending|));
    var events := Attempted(w.j, pending[..n], reports[..n], w.now, writes[..n]);
    ReconciliationIsARun(w, pending[..n], reports[..n], w.now, writes[..n], limits);
    RunKeeps(w, events, limits);
    TimeIsMonotone(w, events, limits);
    mid := After(w, events, limits);
  }

  lemma {:induction false} TimeIsMonotone(w: World, events: seq<Event>, limits: Limits)
    requires AllTimely(w, events, limits)
    ensures w.now <= After(w, events, limits).now
  {
    hide Reserve, Settle, Advance, Restart, CheckSettle;
    if events != [] {
      TimeIsMonotone(w, events[..|events| - 1], limits);
    }
  }

  lemma {:induction false} KeepNothing(attempts: seq<int>, now: int)
    requires forall i :: 0 <= i < |attempts| ==> attempts[i] + HOUR <= now
    ensures Keep(attempts, now) == []
  {
    if attempts != [] {
      KeepNothing(attempts[..|attempts| - 1], now);
    }
  }

  const DAY := 86_400

  /** The network's fee for a transaction, and a day whose budget covers the least a keeper reserves at that fee. */
  predicate Affordable(fee: int, limits: Limits) {
    ReserveCost(0, 0, fee).Success? && ReserveCost(0, 0, fee).value <= limits.daily <= MAX_SAFE && 1 <= limits.hourly
  }

  /** A candidate measured at no debit beside the network's fee: the keeper's smallest reservation. */
  function Smallest(signature: string, fee: int, now: Instant): Candidate
    requires ReserveCost(0, 0, fee).Success?
  {
    Candidate("x", Written, Submission("x", signature, "x", 0, ReserveCost(0, 0, fee).value, now), 0, 0, fee, Written)
  }

  /** A signature longer than any sent before. */
  function NewSignature(sent: seq<Broadcast>): (signature: string)
    ensures 0 < |signature| && forall i :: 0 <= i < |sent| ==> |sent[i].signature| < |signature|
  {
    if sent == [] then "x"
    else NewSignature(sent[..|sent| - 1]) + sent[|sent| - 1].signature + "x"
  }

  /** With nothing pending and no latch, the keeper's smallest reservation is admitted a day later. */
  lemma NextDayAdmits(w: World, limits: Limits, fee: int)
    requires Inv(w, limits) && w.j.live.pending == [] && !Overrun(w.j)
    requires Affordable(fee, limits) && Max(0, w.now) + DAY <= MAX_TIME
    ensures var c := Smallest(NewSignature(w.sent), fee, Max(0, w.now) + DAY);
            CheckReserve(Advance(w.j, c.cursor, c.cursorWrite).0, c.tx, limits.daily, limits.hourly).Success?
  {
    hide Counted, RateLimited, Chronological, Durable, NewSignature;
    var t: Instant := Max(0, w.now) + DAY;
    KeepNothing(w.j.live.attempts, t);
    assert DayOf(w.now) < DayOf(t);
    assert DayOf(t) !in w.j.live.spent;
  }

  /** Restart, let what is pending expire, and send the next day. */
  function Comeback(w: World, fee: int): seq<Round>
    requires ReserveCost(0, 0, fee).Success? && Max(0, w.now) + DAY <= MAX_TIME
  {
    var (pending, t) := (w.j.disk.pending, Max(0, w.now) + DAY);
    [Restarted, Tick(w.now, Forgotten(pending), AllWritten(|pending|), []),
     Tick(t, [], [], [Smallest(NewSignature(w.sent), fee, t)])]
  }

  lemma RestartKeeps(w: World, limits: Limits)
    requires Inv(w, limits)
    ensures var w1 := After(w, [Crash], limits);
            && Inv(w1, limits)
            && w1 == w.(j := Store(w.j.disk, w.j.disk, false))
  {
    hide Inv, Restart;
    assert [Crash][..0] == [];
    RestartNeverRefuses(w, limits);
    StepKeeps(w, Crash, limits);
  }

  lemma QuietTick(w: World, limits: Limits)
    requires Inv(w, limits) && !Overrun(w.j) && limits.daily <= MAX_SAFE
    ensures var pending := w.j.live.pending;
            var tick := Tick(w.now, Forgotten(pending), AllWritten(|pending|), []);
            && LegalRound(w, tick)
            && var w1 := After(w, Played(w, tick), limits);
               && Inv(w1, limits) && w1.j.live.pending == [] && !Overrun(w1.j) && w1.sent == w.sent && w1.now == w.now
  {
    hide Inv, Reconcile, Attempted;
    var pending := w.j.live.pending;
    var (reports, writes) := (Forgotten(pending), AllWritten(|pending|));
    var tick := Tick(w.now, reports, writes, []);
    var n := |pending|;
    assert pending[..n] == pending && reports[..n] == reports && writes[..n] == writes && pending[n..] == [];
    ExpireAll(w, limits, n);
    var events := Attempted(w.j, pending, reports, w.now, writes);
    assert Played(w, tick) == events;
    ReconciliationIsARun(w, pending, reports, w.now, writes, limits);
    RunKeeps(w, events, limits);
    TimeIsMonotone(w, events, limits);
  }

  /** A tick with nothing to settle and one candidate that is admitted sends it. */
  lemma OneSend(w: World, signature: string, fee: int, t: Instant, limits: Limits)
    requires w.j.live.pending == [] && w.now <= t && ReserveCost(0, 0, fee).Success?
    requires var c := Smallest(signature, fee, t);
             CheckReserve(Advance(w.j, c.cursor, c.cursorWrite).0, c.tx, limits.daily, limits.hourly).Success?
    ensures var tick := Tick(t, [], [], [Smallest(signature, fee, t)]);
            && LegalRound(w, tick)
            && var advanced := Advance(w.j, "x", Written).0;
               After(w, Played(w, tick), limits)
               == World(Save(advanced.(live := WithReservation(advanced.live, Smallest(signature, fee, t).tx)),
                             Written).0,
                        t, w.sent + [Broadcast(signature, t)], w.settled)
  {
    hide CheckReserve, WithReservation, ReserveCost;
    var c := Smallest(signature, fee, t);
    assert [c][..0] == [] && SendEvents([]) == [];
    assert SendEvents([c]) == [Scanned(c.cursor, c.cursorWrite), Send(c.tx, c.write)];
    assert Played(w, Tick(t, [], [], [c])) == SendEvents([c]);
    TwoEvents(w, Scanned(c.cursor, c.cursorWrite), Send(c.tx, c.write), limits);
    var advanced := Advance(w.j, c.cursor, c.cursorWrite).0;
    CheckReserveFacts(advanced, c.tx, limits.daily, limits.hourly);
  }

  lemma SendingTick(w: World, limits: Limits, fee: int)
    requires Inv(w, limits) && w.j.live.pending == [] && !Overrun(w.j)
    requires Affordable(fee, limits) && Max(0, w.now) + DAY <= MAX_TIME
    ensures var (t, signature) := (Max(0, w.now) + DAY, NewSignature(w.sent));
            var tick := Tick(t, [], [], [Smallest(signature, fee, t)]);
            && LegalRound(w, tick)
            && After(w, Played(w, tick), limits).sent == w.sent + [Broadcast(signature, t)]
  {
    hide Inv, CheckReserve, ReserveCost, NewSignature;
    NextDayAdmits(w, limits, fee);
    OneSend(w, NewSignature(w.sent), fee, Max(0, w.now) + DAY, limits);
  }

  /**
   * Without the latch in its file, a keeper can come back: restarted, it settles what is pending and sends again,
   * under a signature it never used.
   */
  lemma UnlatchedComesBack(w: World, limits: Limits, fee: int)
    requires Inv(w, limits) && !w.j.disk.budgetOverrun
    requires Affordable(fee, limits) && Max(0, w.now) + DAY <= MAX_TIME
    ensures AllLegal(w, Comeback(w, fee), limits)
    ensures Lived(w, Comeback(w, fee), limits).sent
            == w.sent + [Broadcast(NewSignature(w.sent), Max(0, w.now) + DAY)]
  {
    hide Inv, After, LegalRound, Played, Forgotten, ReserveCost, NewSignature, Smallest;
    var rounds := Comeback(w, fee);
    RestartIsLegal(w);
    RestartKeeps(w, limits);
    var w1 := After(w, Played(w, rounds[0]), limits);
    QuietTick(w1, limits);
    var w2 := After(w1, Played(w1, rounds[1]), limits);
    SendingTick(w2, limits, fee);
    var w3 := After(w2, Played(w2, rounds[2]), limits);
    assert rounds[1..][0] == rounds[1] && rounds[1..][1..] == [rounds[2]] && [rounds[2]][1..] == [];
    assert AllLegal(w3, [], limits) && Lived(w3, [], limits) == w3;
    assert AllLegal(w2, [rounds[2]], limits) && Lived(w2, [rounds[2]], limits) == w3;
    assert AllLegal(w1, rounds[1..], limits) && Lived(w1, rounds[1..], limits) == w3;
  }

  lemma RestartIsLegal(w: World)
    ensures LegalRound(w, Restarted) && Played(w, Restarted) == [Crash]
  {
  }

  /** No life of the keeper from here on broadcasts anything. */
  ghost predicate StopsForGood(w: World, limits: Limits) {
    forall rounds: seq<Round> :: AllLegal(w, rounds, limits) ==> Lived(w, rounds, limits).sent == w.sent
  }

  /**
   * An overrun stops the keeper for good exactly when its latch reached the file: an overrun whose settlement
   * was never written is forgotten by a restart, after which a cluster that no longer knows the transaction
   * lets it expire at its reservation, and the keeper sends again.
   */
  lemma LatchHoldsIffWritten(w: World, limits: Limits, fee: int)
    requires Inv(w, limits)
    requires Affordable(fee, limits) && Max(0, w.now) + DAY <= MAX_TIME
    ensures StopsForGood(w, limits) <==> w.j.disk.budgetOverrun
  {
    hide Lived, AllLegal, After, AllTimely, Sound, RateLimited, Chronological, Durable, Comeback, Affordable,
         ReserveCost, NewSignature;
    if w.j.disk.budgetOverrun {
      LatchedStops(w, limits);
    } else {
      UnlatchedComesBack(w, limits, fee);
    }
  }

  /** What the network charges a transaction with one signature. */
  const NETWORK_FEE := 5_000

  /** The configuration of the runs below. */
  const SMALL: Limits := Limits(20_000, 1, "k")

  function First(): Candidate {
    Smallest("x", NETWORK_FEE, 0)
  }

  /** A finalized receipt of 12,000 lamports, 2,000 above the reservation. */
  const DEAR: Report := Report(Finalized, Some(Meta(5_000, 12_000, 0, false)), 0, Finalized, true)

  /**
   * The latch can be lost. One transaction is sent; it costs more than its reservation, but the settlement that
   * sets the latch is not written; the keeper restarts, the cluster has forgotten the transaction, and the next
   * day the keeper sends another.
   */
  lemma LatchCanBeLost()
    ensures var opening := [Tick(0, [], [], [First()]), Tick(10, [DEAR], [Lost], [])];
            && AllLegal(Fresh("k"), opening, SMALL)
            && var w := Lived(Fresh("k"), opening, SMALL);
               && w.j.live.budgetOverrun && w.sent == [Broadcast("x", 0)] && Max(0, w.now) + DAY <= MAX_TIME
               && AllLegal(w, Comeback(w, NETWORK_FEE), SMALL)
               && Lived(w, Comeback(w, NETWORK_FEE), SMALL).sent
                  == [Broadcast("x", 0), Broadcast("xxx", w.now + DAY)]
  {
    hide Inv, After, LegalRound, Played, Comeback, Smallest;
    var (limits, w0) := (SMALL, Fresh("k"));
    var opening := [Tick(0, [], [], [First()]), Tick(10, [DEAR], [Lost], [])];
    FreshInv(limits);
    var w1 := FirstSend();
    var w := LostSettlement(w1);
    assert opening[1..] == [opening[1]] && [opening[1]][1..] == [];
    assert AllLegal(w, [], limits) && Lived(w, [], limits) == w;
    assert AllLegal(w1, [opening[1]], limits) && Lived(w1, [opening[1]], limits) == w;
    assert NewSignature([Broadcast("x", 0)]) == "xxx" by {
      assert [Broadcast("x", 0)][..0] == [];
    }
    UnlatchedComesBack(w, limits, NETWORK_FEE);
  }

  lemma FreshAdmits()
    ensures var c := First();
            CheckReserve(Advance(Fresh("k").j, c.cursor, c.cursorWrite).0, c.tx, SMALL.daily, SMALL.hourly).Success?
  {
  }

  lemma FirstSend() returns (w: World)
    ensures var tick := Tick(0, [], [], [First()]);
            LegalRound(Fresh("k"), tick) && w == After(Fresh("k"), Played(Fresh("k"), tick), SMALL)
    ensures Inv(w, SMALL) && w.j.live.pending == [Pending(First().tx, 0)] && !w.j.failed && w.j.live.spent == map[]
    ensures w.sent == [Broadcast("x", 0)] && w.now == 0 && w.j.disk == w.j.live && !w.j.live.budgetOverrun
  {
    hide Inv, Played, LegalRound, CheckReserve, After;
    var w0 := Fresh("k");
    var tick := Tick(0, [], [], [First()]);
    FreshInv(SMALL);
    FreshAdmits();
    OneSend(w0, "x", NETWORK_FEE, 0, SMALL);
    RoundIsTimely(w0, tick, SMALL);
    RunKeeps(w0, Played(w0, tick), SMALL);
    w := After(w0, Played(w0, tick), SMALL);
  }

  lemma LostSettlement(w1: World) returns (w: World)
    requires Inv(w1, SMALL) && w1.j.live.pending == [Pending(First().tx, 0)] && !w1.j.failed
    requires w1.now == 0 && w1.j.disk == w1.j.live && !w1.j.live.budgetOverrun && w1.j.live.spent == map[]
    ensures var tick := Tick(10, [DEAR], [Lost], []);
            LegalRound(w1, tick) && w == After(w1, Played(w1, tick), SMALL)
    ensures Inv(w, SMALL) && w.j.live.budgetOverrun && !w.j.disk.budgetOverrun && w.now == 10 && w.sent == w1.sent
  {
    hide Inv;
    var tick := Tick(10, [DEAR], [Lost], []);
    var pending := w1.j.live.pending;
    RoundIsTimely(w1, tick, SMALL);
    RunKeeps(w1, Played(w1, tick), SMALL);
    w := After(w1, Played(w1, tick), SMALL);
    assert pending[..0] == [] && [DEAR][..0] == [] && [Lost][..0] == [];
    assert Attempted(w1.j, pending[..0], [DEAR][..0], 10, [Lost][..0]) == [];
    assert Reconcile(w1.j, pending[..0], [DEAR][..0], 10, [Lost][..0]) == (w1.j, [], Pass);
    var settled := Resolved("x", 12_000, 10, Lost);
    assert Played(w1, tick) == [settled];
    assert [settled][..0] == [];
    assert w == Step(w1, settled, SMALL);
  }

  // ---- Meeting the receipt again ----

  /**
   * A settlement above its reservation latches; any settlement keeps the latch, and one that reports no error wrote it.
   */
  lemma SettleLatches(j: Store, signature: string, cost: int, now: Instant, write: Write)
    requires !j.failed && j.disk == j.live && Settle(j, signature, cost, now, write).1.Pass?
    ensures var j' := Settle(j, signature, cost, now, write).0;
            && !j'.failed && j'.disk == j'.live
            && (j.live.budgetOverrun ==> j'.live.budgetOverrun)
            && Find(j.live.pending, signature).Some?
            && (cost > Find(j.live.pending, signature).value.tx.reserved ==> j'.live.budgetOverrun)
  {
    hide Find, Without;
  }

  /** A pass that reports no error and meets a receipt above its reservation leaves the latch in the file. */
  lemma {:induction false} ReceiptLatches(j: Store, reports: seq<Report>, now: Instant, writes: seq<Write>, k: nat,
                                          n: nat)
    requires !j.failed && j.disk == j.live && Distinct(j.live.pending)
    requires |reports| == |j.live.pending| == |writes| && k < |reports| && n <= |reports|
    requires Resolve(j.live.pending[k], reports[k]).Some?
    requires Resolve(j.live.pending[k], reports[k]).value.cost > j.live.pending[k].tx.reserved
    ensures var r := Reconcile(j, j.live.pending[..n], reports[..n], now, writes[..n]);
            r.2.Pass? ==> !r.0.failed && r.0.disk == r.0.live && (k < n ==> r.0.live.budgetOverrun)
  {
    hide Settle, Resolve, Find;
    if n > 0 {
      var pending := j.live.pending;
      assert pending[..n][..n - 1] == pending[..n - 1] && reports[..n][..n - 1] == reports[..n - 1];
      assert writes[..n][..n - 1] == writes[..n - 1];
      ReceiptLatches(j, reports, now, writes, k, n - 1);
      var before := Reconcile(j, pending[..n - 1], reports[..n - 1], now, writes[..n - 1]);
      var r := Reconcile(j, pending[..n], reports[..n], now, writes[..n]);
      var resolution := Resolve(pending[n - 1], reports[n - 1]);
      if r.2.Pass? && resolution.Some? {
        SettleLatches(before.0, pending[n - 1].tx.signature, resolution.value.cost, now, writes[n - 1]);
        ReconciliationIsProven(j, pending[..n - 1], reports[..n - 1], now, writes[..n - 1]);
        var i := FindFinds(before.0.live.pending, pending[n - 1].tx.signature);
        assert before.0.live.pending[i] in pending;
        SameSignature(pending, before.0.live.pending[i], n - 1);
      }
    }
  }

  lemma SameSignature(pending: seq<Pending>, p: Pending, k: nat)
    requires Distinct(pending) && p in pending && k < |pending| && p.tx.signature == pending[k].tx.signature
    ensures p == pending[k]
  {
    var i :| 0 <= i < |pending| && pending[i] == p;
  }

  /**
   * A restarted keeper that still meets the receipt sends nothing in that tick, and if the tick's settlements are
   * written the latch is in the file again: it has stopped for good.
   */
  lemma ReceiptStopsTheKeeper(w: World, tick: Round, k: nat, limits: Limits)
    requires Inv(w, limits) && !w.j.failed && tick.Tick? && LegalRound(w, tick) && k < |tick.reports|
    requires tick.reports[k].first == Finalized && tick.reports[k].meta.Some?
    requires var m := tick.reports[k].meta.value;
             Max(m.fee, m.preBalance - m.postBalance) > w.j.live.pending[k].tx.reserved
    ensures var w' := After(w, Played(w, tick), limits);
            && w'.sent == w.sent
            && (Reconcile(w.j, w.j.live.pending, tick.reports, tick.now, tick.settleWrites).2.Pass? ==>
                  w'.j.disk.budgetOverrun && StopsForGood(w', limits))
  {
    hide Sound, RateLimited, Chronological, Durable, Reconcile, Attempted, AllLegal, Lived, AllTimely;
    var (pending, n) := (w.j.live.pending, |w.j.live.pending|);
    assert pending[..n] == pending && tick.reports[..n] == tick.reports && tick.settleWrites[..n] == tick.settleWrites;
    ReservationsCount(w, limits, k);
    SoundIsDistinct(w, limits);
    ReceiptLatches(w.j, tick.reports, tick.now, tick.settleWrites, k, n);
    ReconciliationIsARun(w, pending, tick.reports, tick.now, tick.settleWrites, limits);
    var settled := Attempted(w.j, pending, tick.reports, tick.now, tick.settleWrites);
    var mid := After(w, settled, limits);
    assert settled + [] == settled;
    if Reconcile(w.j, pending, tick.reports, tick.now, tick.settleWrites).2.Pass? {
      AfterJoins(w, settled, SendEvents(tick.candidates), limits);
      LatchedIsForever(mid, SendEvents(tick.candidates), limits);
      LatchedStops(After(w, Played(w, tick), limits), limits);
    }
  }

  lemma ReservationsCount(w: World, limits: Limits, k: nat)
    requires Inv(w, limits) && k < |w.j.live.pending|
    ensures 0 <= w.j.live.pending[k].tx.reserved
  {
    hide Total, Keep;
    assert ValidPending(w.j.live.pending[k]);
  }

  lemma SoundIsDistinct(w: World, limits: Limits)
    requires Inv(w, limits)
    ensures Distinct(w.j.live.pending)
  {
    hide Total, Keep;
  }

  lemma LatchedStops(w: World, limits: Limits)
    requires Overrun(w.j) && w.j.disk.budgetOverrun
    ensures StopsForGood(w, limits)
  {
    hide Lived, AllLegal, After, AllTimely;
    forall rounds: seq<Round> | AllLegal(w, rounds, limits) ensures Lived(w, rounds, limits).sent == w.sent {
      var events := LifeIsARun(w, rounds, limits);
      LatchedIsForever(w, events, limits);
    }
  }

  // ---- A clock that runs backwards ----

  lemma FourEvents(w: World, a: Event, b: Event, c: Event, d: Event, limits: Limits)
    ensures After(w, [a, b, c, d], limits) == Step(Step(Step(Step(w, a, limits), b, limits), c, limits), d, limits)
  {
    hide Step;
    TwoEvents(w, a, b, limits);
    var (ab, abc) := ([a, b], [a, b, c]);
    assert [a, b, c, d][..3] == abc && abc[..2] == ab;
    assert After(w, abc, limits) == Step(After(w, ab, limits), c, limits);
  }

  /** A reservation of 10,000 lamports, under one name throughout. */
  function Probe(name: string, at: Instant): Submission {
    Submission(name, name, name, 0, 10_000, at)
  }

  lemma SendGoesThrough(w: World, tx: Submission, limits: Limits)
    requires CheckReserve(w.j, tx, limits.daily, limits.hourly).Success?
    ensures Step(w, Send(tx, Written), limits)
            == (var s := WithReservation(w.j.live, tx);
                World(Store(s, s, false), tx.submittedAt, w.sent + [Broadcast(tx.signature, tx.submittedAt)],
                      w.settled))
  {
    hide CheckReserve, WithReservation;
    CheckReserveFacts(w.j, tx, limits.daily, limits.hourly);
  }

  /**
   * The hourly limit needs a clock that does not run backwards: an attempt pruned at a later reading is not counted
   * again at an earlier one, and three sends fall in one hour of a limit of two.
   */
  lemma BackwardsClockBreaksHourly()
    ensures var limits := Limits(1_000_000, 2, "k");
            var w := After(Fresh("k"), [Send(Probe("a", 0), Written), Send(Probe("b", 1), Written),
                                        Send(Probe("c", 3_601), Written), Send(Probe("d", 5), Written)], limits);
            TimesOf(w.sent) == [0, 1, 3_601, 5] && Window(TimesOf(w.sent), 0) == [0, 1, 5]
  {
    hide Step, Keep, Window;
    var (limits, w0) := (Limits(1_000_000, 2, "k"), Fresh("k"));
    var (a, b, c, d) := (Probe("a", 0), Probe("b", 1), Probe("c", 3_601), Probe("d", 5));
    FourEvents(w0, Send(a, Written), Send(b, Written), Send(c, Written), Send(d, Written), limits);
    WindowsOfProbes();
    var w1 := ProbeSent(w0, a, limits, []);
    assert w1.j.live.attempts == [0];
    var w2 := ProbeSent(w1, b, limits, [0]);
    assert w2.j.live.attempts == [0, 1];
    var w3 := ProbeSent(w2, c, limits, []);
    assert w3.j.live.attempts == [3_601];
    var w4 := ProbeSent(w3, d, limits, [3_601]);
    assert TimesOf(w4.sent) == [0, 1, 3_601, 5];
  }

  lemma WindowsOfProbes()
    ensures Window([0, 1, 3_601, 5], 0) == [0, 1, 5]
    ensures Keep([], 0) == [] && Keep([0], 1) == [0] && Keep([0, 1], 3_601) == [] && Keep([3_601], 5) == [3_601]
  {
    var times := [0, 1, 3_601, 5];
    assert times[..3] == [0, 1, 3_601] && times[..3][..2] == [0, 1] && times[..3][..2][..1] == [0];
    assert [0][..0] == [] && [3_601][..0] == [] && [0, 1][..1] == [0];
    assert Window([0], 0) == [0] && Window([0, 1], 0) == [0, 1];
    assert Window([0, 1, 3_601], 0) == [0, 1];
  }

  /** Fewer than two recent attempts, a new name and room in the budget: the probe is sent. */
  lemma ProbeSent(w: World, tx: Submission, limits: Limits, recent: seq<int>) returns (w': World)
    requires limits == Limits(1_000_000, 2, "k")
    requires tx == Probe(tx.signature, tx.submittedAt) && tx.signature != "" && 0 <= tx.submittedAt
    requires !Overrun(w.j) && |w.j.live.pending| <= 3 && w.j.live.spent == map[]
    requires forall i :: 0 <= i < |w.j.live.pending| ==>
               var p := w.j.live.pending[i].tx;
               p.reserved == 10_000 && p.position != tx.position && p.signature != tx.signature
    requires Keep(w.j.live.attempts, tx.submittedAt) == recent && |recent| < 2
    ensures w' == Step(w, Send(tx, Written), limits)
    ensures !Overrun(w'.j) && w'.j.live.spent == map[] && w'.j.live.attempts == recent + [tx.submittedAt]
    ensures w'.j.live.pending == w.j.live.pending + [Pending(tx, DayOf(tx.submittedAt))]
    ensures w'.sent == w.sent + [Broadcast(tx.signature, tx.submittedAt)]
  {
    ReservedTens(w.j.live.pending);
    SendGoesThrough(w, tx, limits);
    w' := Step(w, Send(tx, Written), limits);
  }

  lemma {:induction false} ReservedTens(pending: seq<Pending>)
    requires |pending| <= 3 && forall i :: 0 <= i < |pending| ==> pending[i].tx.reserved == 10_000
    ensures Reserved(pending) == Success(10_000 * |pending|)
  {
    if pending != [] {
      ReservedTens(pending[..|pending| - 1]);
    }
  }

  /**
   * The daily budget needs it too: what a later day had room for is charged to an earlier one that had none, and no
   * overrun latches.
   */
  lemma BackwardsClockBreaksDaily()
    ensures var limits := Limits(10_000, 2, "k");
            var w := After(Fresh("k"), [Send(Probe("a", 0), Written), Resolved("a", 10_000, 0, Written),
                                        Send(Probe("b", DAY), Written), Resolved("b", 10_000, 0, Written)], limits);
            Spent(w.j.live, 0) == 20_000 && !Overrun(w.j)
  {
    var (limits, w0) := (Limits(10_000, 2, "k"), Fresh("k"));
    var (a, b) := (Probe("a", 0), Probe("b", DAY));
    FourEvents(w0, Send(a, Written), Resolved("a", 10_000, 0, Written), Send(b, Written),
               Resolved("b", 10_000, 0, Written), limits);
    var w2 := SentAndSettled(w0, a, limits, 0);
    var w4 := SentAndSettled(w2, b, limits, 10_000);
  }

  /** A probe of a quiet day, settled at its reservation on day 0. */
  lemma SentAndSettled(w: World, tx: Submission, limits: Limits, before: nat) returns (w': World)
    requires limits == Limits(10_000, 2, "k") && before <= 10_000
    requires tx == Probe(tx.signature, tx.submittedAt) && tx.signature != "" && 0 <= tx.submittedAt
    requires !Overrun(w.j) && w.j.live.pending == [] && |w.j.live.attempts| <= 1
    requires Spent(w.j.live, 0) == before && Spent(w.j.live, DayOf(tx.submittedAt)) == 0
    requires forall day :: day in w.j.live.spent ==> day == 0
    ensures w' == Step(Step(w, Send(tx, Written), limits), Resolved(tx.signature, 10_000, 0, Written), limits)
    ensures !Overrun(w'.j) && w'.j.live.pending == [] && |w'.j.live.attempts| <= |w.j.live.attempts| + 1
    ensures Spent(w'.j.live, 0) == before + 10_000
    ensures forall day :: day in w'.j.live.spent ==> day == 0
  {
    KeepShrinks(w.j.live.attempts, tx.submittedAt);
    assert CheckReserve(w.j, tx, limits.daily, limits.hourly).Success?;
    SendGoesThrough(w, tx, limits);
    var mid := Step(w, Send(tx, Written), limits);
    var p := Pending(tx, DayOf(tx.submittedAt));
    assert mid.j.live.pending == [p];
    assert Find([p], tx.signature) == Some(p);
    WithoutFirst([p]);
    w' := Step(mid, Resolved(tx.signature, 10_000, 0, Written), limits);
  }

  lemma {:induction false} KeepShrinks(attempts: seq<int>, now: int)
    ensures |Keep(attempts, now)| <= |attempts|
  {
    if attempts != [] {
      KeepShrinks(attempts[..|attempts| - 1], now);
    }
  }
}
