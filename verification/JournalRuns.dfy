/** Spending caps, send rates and durability over every run of the keeper, crashes included. */
module JournalRuns {
  import opened Numbers
  import opened Journal

  /** The operator's configuration and wallet, fixed over a run. */
  datatype Limits = Limits(daily: int, hourly: int, identity: string)

  datatype Event =
    | Send(tx: Submission, sendWrite: Write)
    | Resolved(signature: string, cost: int, at: Instant, settleWrite: Write)
    | Scanned(cursor: string, advanceWrite: Write)
    | Crash

  /** A transaction handed to the network. */
  datatype Broadcast = Broadcast(signature: string, at: Instant)

  /** The journal, the latest instant it was given, everything broadcast, and every signature a settlement took. */
  datatype World = World(j: Store, now: Instant, sent: seq<Broadcast>, settled: set<string>)

  function Step(w: World, e: Event, limits: Limits): World {
    match e
    case Send(tx, write) =>
      var (j, reserved) := Reserve(w.j, tx, limits.daily, limits.hourly, write);
      w.(j := j, now := tx.submittedAt,
         sent := if reserved.Pass? then w.sent + [Broadcast(tx.signature, tx.submittedAt)] else w.sent)
    case Resolved(signature, cost, at, write) =>
      w.(j := Settle(w.j, signature, cost, at, write).0, now := at,
         settled := if CheckSettle(w.j, signature, cost, at).Success? then w.settled + {signature} else w.settled)
    case Scanned(cursor, write) => w.(j := Advance(w.j, cursor, write).0)
    case Crash =>
      var restarted := Restart(w.j, limits.identity, Written);
      if restarted.Success? then w.(j := restarted.value) else w
  }

  /** The clock an event is given never runs backwards. */
  predicate Timely(w: World, e: Event) {
    match e
    case Send(tx, _) => w.now <= tx.submittedAt
    case Resolved(_, _, at, _) => w.now <= at
    case _ => true
  }

  function After(w: World, events: seq<Event>, limits: Limits): World {
    if events == [] then w else Step(After(w, events[..|events| - 1], limits), events[|events| - 1], limits)
  }

  predicate AllTimely(w: World, events: seq<Event>, limits: Limits) {
    events == []
    || (AllTimely(w, events[..|events| - 1], limits)
        && Timely(After(w, events[..|events| - 1], limits), events[|events| - 1]))
  }

  // ---- Sums and filters ----

  lemma TotalAdds(pending: seq<Pending>, p: Pending)
    ensures Total(pending + [p]) == Total(pending) + p.tx.reserved
  {
    assert (pending + [p])[..|pending|] == pending;
  }

  lemma {:induction false} ReservedIsTotal(pending: seq<Pending>)
    requires forall i :: 0 <= i < |pending| ==> 0 <= pending[i].tx.reserved
    ensures Reserved(pending).Success? <==> Total(pending) <= MAX_SAFE
    ensures Reserved(pending).Success? ==> Reserved(pending).value == Total(pending)
    ensures 0 <= Total(pending)
  {
    if pending != [] {
      ReservedIsTotal(pending[..|pending| - 1]);
    }
  }

  lemma {:induction false} KeepElements(attempts: seq<int>, now: int)
    ensures forall i :: 0 <= i < |Keep(attempts, now)| ==> Keep(attempts, now)[i] in attempts
  {
    if attempts != [] {
      KeepElements(attempts[..|attempts| - 1], now);
    }
  }

  lemma KeepAdds(attempts: seq<int>, t: int, now: int)
    ensures Keep(attempts + [t], now) == Keep(attempts, now) + if now - t < HOUR then [t] else []
  {
    assert (attempts + [t])[..|attempts|] == attempts;
  }

  /** Pruning at one instant loses nothing a later instant would count. */
  lemma {:induction false} PruningIsInvisible(attempts: seq<int>, now: int, later: int)
    requires now <= later
    ensures Keep(Keep(attempts, now), later) == Keep(attempts, later)
  {
    if attempts != [] {
      var (init, last) := (attempts[..|attempts| - 1], attempts[|attempts| - 1]);
      PruningIsInvisible(init, now, later);
      if now - last < HOUR {
        KeepAdds(Keep(init, now), last, later);
      } else {
        assert Keep(attempts, now) == Keep(init, now);
      }
    }
  }

  lemma {:induction false} FindFinds(pending: seq<Pending>, signature: string) returns (k: nat)
    requires Find(pending, signature).Some?
    ensures k < |pending| && pending[k] == Find(pending, signature).value && pending[k].tx.signature == signature
  {
    if pending[0].tx.signature == signature {
      k := 0;
    } else {
      k := FindFinds(pending[1..], signature);
      k := k + 1;
    }
  }

  lemma {:induction false} WithoutElements(pending: seq<Pending>, signature: string)
    ensures forall p :: p in Without(pending, signature) <==> p in pending && p.tx.signature != signature
  {
    if pending != [] {
      var (init, last) := (pending[..|pending| - 1], pending[|pending| - 1]);
      WithoutElements(init, signature);
      assert pending == init + [last];
    }
  }

  lemma {:induction false} WithoutDistinct(pending: seq<Pending>, signature: string)
    requires Distinct(pending)
    ensures Distinct(Without(pending, signature))
  {
    if pending != [] {
      var (init, last) := (pending[..|pending| - 1], pending[|pending| - 1]);
      WithoutDistinct(init, signature);
      WithoutElements(init, signature);
      var rest := Without(init, signature);
      forall i | 0 <= i < |rest| ensures rest[i].tx.position != last.tx.position
          && rest[i].tx.signature != last.tx.signature {
        assert rest[i] in rest;
        var k :| 0 <= k < |init| && init[k] == rest[i];
        assert init[k] == pending[k];
      }
    }
  }

  lemma {:induction false} WithoutAbsent(pending: seq<Pending>, signature: string)
    requires forall i :: 0 <= i < |pending| ==> pending[i].tx.signature != signature
    ensures Without(pending, signature) == pending
  {
    if pending != [] {
      var (init, last) := (pending[..|pending| - 1], pending[|pending| - 1]);
      WithoutAbsent(init, signature);
      assert pending == init + [last];
    }
  }

  /** Removing one transaction frees exactly its reservation. */
  lemma {:induction false} WithoutTotal(pending: seq<Pending>, k: nat)
    requires k < |pending|
    requires forall i :: 0 <= i < |pending| && i != k ==> pending[i].tx.signature != pending[k].tx.signature
    ensures Total(Without(pending, pending[k].tx.signature)) == Total(pending) - pending[k].tx.reserved
  {
    var (init, last) := (pending[..|pending| - 1], pending[|pending| - 1]);
    if k == |init| {
      WithoutAbsent(init, last.tx.signature);
      assert Without(pending, last.tx.signature) == init;
    } else {
      assert init[k] == pending[k];
      WithoutTotal(init, k);
      TotalAdds(Without(init, pending[k].tx.signature), last);
    }
  }

  // ---- The invariant ----

  /** From today on, what a day spent and everything still reserved fit the limit; no day ever passed it. */
  ghost predicate Budgeted(s: Saved, limit: int, now: Instant) {
    && (forall day {:trigger Spent(s, day)} :: Spent(s, day) <= limit)
    && (forall day {:trigger Spent(s, day)} :: DayOf(now) <= day ==> Spent(s, day) + Total(s.pending) <= limit)
    && (forall day :: day in s.spent ==> day <= DayOf(now))
  }

  /** Every recent broadcast is still counted as an attempt, now and at any later instant. */
  ghost predicate Counted(sent: seq<Broadcast>, attempts: seq<int>, now: Instant) {
    forall later: int :: now <= later ==> |Keep(TimesOf(sent), later)| <= |Keep(attempts, later)|
  }

  function TimesOf(sent: seq<Broadcast>): (times: seq<int>)
    ensures |times| == |sent|
  {
    seq(|sent|, i requires 0 <= i < |sent| => sent[i].at)
  }

  ghost predicate Sound(s: Saved, limits: Limits, w: World) {
    && s.identity == limits.identity
    && ValidSaved(s)
    && (!s.budgetOverrun ==> Budgeted(s, limits.daily, w.now))
    && Counted(w.sent, s.attempts, w.now)
    && NoneLater(s.attempts, w.now)
  }

  predicate NoneLater(attempts: seq<int>, now: Instant) {
    forall i :: 0 <= i < |attempts| ==> attempts[i] <= now
  }

  predicate RateLimited(sent: seq<Broadcast>, hourly: int) {
    forall i :: 0 <= i < |sent| ==> |Keep(TimesOf(sent[..i + 1]), sent[i].at)| <= hourly
  }

  predicate Chronological(sent: seq<Broadcast>, now: Instant) {
    && (forall i, j :: 0 <= i <= j < |sent| ==> sent[i].at <= sent[j].at)
    && (forall i :: 0 <= i < |sent| ==> sent[i].at <= now)
  }

  /** Nothing was broadcast that the file does not hold as pending, unless it has been settled. */
  predicate Durable(w: World) {
    forall i :: 0 <= i < |w.sent| ==> HasSignature(w.j.disk, w.sent[i].signature) || w.sent[i].signature in w.settled
  }

  ghost predicate Inv(w: World, limits: Limits) {
    && Sound(w.j.live, limits, w)
    && Sound(w.j.disk, limits, w)
    && (!w.j.failed ==> w.j.disk == w.j.live)
    && RateLimited(w.sent, limits.hourly)
    && Chronological(w.sent, w.now)
    && Durable(w)
  }

  /** The journal of a first start. */
  function Fresh(identity: string): World {
    var s := Saved(identity, None, map[], [], [], false);
    World(Store(s, s, false), 0, [], {})
  }

  lemma FreshInv(limits: Limits)
    requires 0 <= limits.daily
    ensures Inv(Fresh(limits.identity), limits)
  {
  }

  // ---- Each kind of event ----

  lemma LaterCounted(sent: seq<Broadcast>, attempts: seq<int>, now: Instant, later: Instant)
    requires Counted(sent, attempts, now) && now <= later
    ensures Counted(sent, attempts, later)
  {
  }

  lemma DaysPass(now: Instant, later: Instant)
    requires now <= later
    ensures DayOf(now) <= DayOf(later)
  {
  }

  /** Letting time pass keeps everything. */
  lemma TimePasses(s: Saved, limits: Limits, w: World, later: Instant)
    requires Sound(s, limits, w) && w.now <= later
    ensures Sound(s, limits, w.(now := later))
  {
    hide ValidSaved, Keep;
    DaysPass(w.now, later);
    LaterCounted(w.sent, s.attempts, w.now, later);
  }

  lemma ReservationBudgeted(s: Saved, tx: Submission, limit: int, now: Instant)
    requires Budgeted(s, limit, now) && now <= tx.submittedAt && ValidSaved(s) && ValidTx(tx)
    requires Available(s, tx.submittedAt, limit).Success? && tx.reserved <= Available(s, tx.submittedAt, limit).value
    ensures Budgeted(WithReservation(s, tx), limit, tx.submittedAt)
    ensures 0 <= Total(WithReservation(s, tx).pending) <= MAX_SAFE
  {
    DaysPass(now, tx.submittedAt);
    TotalAdds(s.pending, Pending(tx, DayOf(tx.submittedAt)));
    forall i | 0 <= i < |s.pending| ensures 0 <= s.pending[i].tx.reserved {
      assert ValidPending(s.pending[i]);
    }
    ReservedIsTotal(s.pending);
    var s' := WithReservation(s, tx);
    assert Spent(s, DayOf(tx.submittedAt)) + Total(s.pending) <= limit;
    forall day {:trigger Spent(s', day)} ensures Spent(s', day) == Spent(s, day) {
    }
  }

  lemma ReservationValid(s: Saved, tx: Submission)
    requires ValidSaved(s) && ValidTx(tx) && !Has(s, tx.position) && !HasSignature(s, tx.signature)
    requires 0 <= Total(WithReservation(s, tx).pending) <= MAX_SAFE
    ensures ValidSaved(WithReservation(s, tx))
  {
    hide Total;
    KeepElements(s.attempts, tx.submittedAt);
  }

  lemma ReservationCounted(w: World, s: Saved, tx: Submission, sent': seq<Broadcast>)
    requires Counted(w.sent, s.attempts, w.now) && w.now <= tx.submittedAt
    requires sent' == w.sent || sent' == w.sent + [Broadcast(tx.signature, tx.submittedAt)]
    ensures Counted(sent', WithReservation(s, tx).attempts, tx.submittedAt)
  {
    hide Keep;
    var t := tx.submittedAt;
    forall later: int | t <= later
      ensures |Keep(TimesOf(sent'), later)| <= |Keep(WithReservation(s, tx).attempts, later)|
    {
      PruningIsInvisible(s.attempts, t, later);
      KeepAdds(Keep(s.attempts, t), t, later);
      assert |Keep(TimesOf(w.sent), later)| <= |Keep(s.attempts, later)|;
      if sent' != w.sent {
        assert TimesOf(sent') == TimesOf(w.sent) + [t];
        KeepAdds(TimesOf(w.sent), t, later);
      }
    }
  }

  lemma CheckReserveFacts(j: Store, tx: Submission, dailyLimit: int, hourlyLimit: int)
    requires CheckReserve(j, tx, dailyLimit, hourlyLimit).Success?
    ensures ValidTx(tx) && !Has(j.live, tx.position) && !HasSignature(j.live, tx.signature)
    ensures !j.failed && !j.live.budgetOverrun
    ensures Available(j.live, tx.submittedAt, dailyLimit).Success?
            && tx.reserved <= Available(j.live, tx.submittedAt, dailyLimit).value
    ensures |Keep(j.live.attempts, tx.submittedAt)| < hourlyLimit
  {
    hide Available, Keep, Has, HasSignature;
  }

  lemma SendKeepsSaved(w: World, tx: Submission, limits: Limits, sent': seq<Broadcast>)
    requires Inv(w, limits) && w.now <= tx.submittedAt && CheckReserve(w.j, tx, limits.daily, limits.hourly).Success?
    requires sent' == w.sent || sent' == w.sent + [Broadcast(tx.signature, tx.submittedAt)]
    ensures Sound(WithReservation(w.j.live, tx), limits, w.(now := tx.submittedAt, sent := sent'))
  {
    hide RateLimited, Durable, Keep, Total, Available, Counted, Budgeted, ValidSaved, Has, HasSignature, CheckReserve,
         ValidTx;
    CheckReserveFacts(w.j, tx, limits.daily, limits.hourly);
    KeepElements(w.j.live.attempts, tx.submittedAt);
    ReservationBudgeted(w.j.live, tx, limits.daily, w.now);
    ReservationValid(w.j.live, tx);
    ReservationCounted(w, w.j.live, tx, sent');
  }

  lemma SendRate(w: World, tx: Submission, limits: Limits)
    requires Inv(w, limits) && w.now <= tx.submittedAt && CheckReserve(w.j, tx, limits.daily, limits.hourly).Success?
    ensures var sent' := w.sent + [Broadcast(tx.signature, tx.submittedAt)];
            RateLimited(sent', limits.hourly) && Chronological(sent', tx.submittedAt)
  {
    hide Durable, Total, Available, Budgeted, ValidSaved, Has, HasSignature, CheckReserve, ValidTx, Keep;
    CheckReserveFacts(w.j, tx, limits.daily, limits.hourly);
    var (t, n) := (tx.submittedAt, |w.sent|);
    var sent' := w.sent + [Broadcast(tx.signature, t)];
    KeepAdds(TimesOf(w.sent), t, t);
    assert |Keep(TimesOf(w.sent), t)| <= |Keep(w.j.live.attempts, t)|;
    assert TimesOf(sent') == TimesOf(w.sent) + [t];
    forall i | 0 <= i < |sent'| ensures |Keep(TimesOf(sent'[..i + 1]), sent'[i].at)| <= limits.hourly {
      if i < n {
        assert sent'[..i + 1] == w.sent[..i + 1];
      } else {
        assert sent'[..i + 1] == sent';
      }
    }
  }

  lemma SendKeeps(w: World, tx: Submission, write: Write, limits: Limits)
    requires Inv(w, limits) && w.now <= tx.submittedAt
    ensures Inv(Step(w, Send(tx, write), limits), limits)
  {
    hide Sound, RateLimited, Chronological, CheckReserve, HasSignature;
    var w' := Step(w, Send(tx, write), limits);
    if CheckReserve(w.j, tx, limits.daily, limits.hourly).Failure? {
      TimePasses(w.j.live, limits, w, tx.submittedAt);
      TimePasses(w.j.disk, limits, w, tx.submittedAt);
      LaterChronological(w.sent, w.now, tx.submittedAt);
    } else {
      CheckReserveFacts(w.j, tx, limits.daily, limits.hourly);
      SendKeepsSaved(w, tx, limits, w'.sent);
      SendRate(w, tx, limits);
      LaterChronological(w.sent, w.now, tx.submittedAt);
      TimePasses(w.j.disk, limits, w, tx.submittedAt);
      SendDurable(w, tx, limits);
      if w'.sent == w.sent {
        SoundIgnores(w.j.disk, limits, w.(now := tx.submittedAt), w');
      }
      SoundIgnores(WithReservation(w.j.live, tx), limits, w.(now := tx.submittedAt, sent := w'.sent), w');
    }
  }

  lemma LaterChronological(sent: seq<Broadcast>, now: Instant, later: Instant)
    requires Chronological(sent, now) && now <= later
    ensures Chronological(sent, later)
  {
  }

  lemma SendDurable(w: World, tx: Submission, limits: Limits)
    requires Durable(w) && w.j.disk == w.j.live
    ensures var s := WithReservation(w.j.live, tx);
            && Durable(w.(j := w.j.(disk := s)))
            && HasSignature(s, tx.signature)
  {
    var s := WithReservation(w.j.live, tx);
    assert s.pending[|w.j.live.pending|].tx == tx;
    forall i | 0 <= i < |w.sent| && HasSignature(w.j.disk, w.sent[i].signature)
      ensures HasSignature(s, w.sent[i].signature)
    {
      var k :| 0 <= k < |w.j.disk.pending| && w.j.disk.pending[k].tx.signature == w.sent[i].signature;
      assert s.pending[k] == w.j.disk.pending[k];
    }
  }

  lemma SettlementValid(s: Saved, k: nat, cost: nat, day: Day)
    requires ValidSaved(s) && k < |s.pending| && Spent(s, day) + cost <= MAX_SAFE
    ensures ValidSaved(WithSettlement(s, s.pending[k], cost, day))
    ensures 0 <= Total(Without(s.pending, s.pending[k].tx.signature)) == Total(s.pending) - s.pending[k].tx.reserved
  {
    hide Keep, Total, Without;
    var signature := s.pending[k].tx.signature;
    var rest := Without(s.pending, signature);
    WithoutTotal(s.pending, k);
    WithoutDistinct(s.pending, signature);
    WithoutElements(s.pending, signature);
    assert ValidPending(s.pending[k]);
    forall i | 0 <= i < |rest| ensures ValidPending(rest[i]) {
      assert rest[i] in rest;
    }
    NonNegative(rest);
  }

  lemma NonNegative(pending: seq<Pending>)
    requires forall i :: 0 <= i < |pending| ==> ValidPending(pending[i])
    ensures 0 <= Total(pending)
  {
    forall i | 0 <= i < |pending| ensures 0 <= pending[i].tx.reserved {
      assert ValidPending(pending[i]);
    }
    ReservedIsTotal(pending);
  }

  lemma SettlementSound(s: Saved, limits: Limits, w: World, signature: string, cost: int, at: Instant)
    requires Sound(s, limits, w) && w.now <= at
    requires CheckSettle(Store(s, s, false), signature, cost, at).Success?
    ensures var p := CheckSettle(Store(s, s, false), signature, cost, at).value;
            Sound(WithSettlement(s, p, cost, DayOf(at)), limits, w.(now := at))
  {
    hide Keep, ValidSaved, Total, Without, Budgeted, Find;
    var k := FindFinds(s.pending, signature);
    var p := s.pending[k];
    SettlementValid(s, k, cost, DayOf(at));
    LaterCounted(w.sent, s.attempts, w.now, at);
    if !s.budgetOverrun && cost <= p.tx.reserved {
      SettlementBudgeted(s, p, cost, w.now, at, limits.daily);
    }
  }

  lemma SettlementBudgeted(s: Saved, p: Pending, cost: nat, now: Instant, at: Instant, limit: int)
    requires Budgeted(s, limit, now) && now <= at && cost <= p.tx.reserved
    requires 0 <= Total(Without(s.pending, p.tx.signature)) == Total(s.pending) - p.tx.reserved
    ensures Budgeted(WithSettlement(s, p, cost, DayOf(at)), limit, at)
  {
    DaysPass(now, at);
    var s' := WithSettlement(s, p, cost, DayOf(at));
    assert Spent(s, DayOf(at)) + Total(s.pending) <= limit;
    forall day {:trigger Spent(s', day)}
      ensures Spent(s', day) == Spent(s, day) + if day == DayOf(at) then cost else 0
    {
    }
  }

  lemma ResolvedKeeps(w: World, signature: string, cost: int, at: Instant, write: Write, limits: Limits)
    requires Inv(w, limits) && w.now <= at
    ensures Inv(Step(w, Resolved(signature, cost, at, write), limits), limits)
  {
    hide Sound, RateLimited, Chronological, Durable;
    var w' := Step(w, Resolved(signature, cost, at, write), limits);
    TimePasses(w.j.live, limits, w, at);
    TimePasses(w.j.disk, limits, w, at);
    LaterChronological(w.sent, w.now, at);
    var checked := CheckSettle(w.j, signature, cost, at);
    if checked.Success? {
      SettlementSound(w.j.live, limits, w, signature, cost, at);
    }
    SoundIgnores(w.j.live, limits, w.(now := at), w');
    SoundIgnores(w.j.disk, limits, w.(now := at), w');
    if checked.Success? {
      SoundIgnores(WithSettlement(w.j.live, checked.value, cost, DayOf(at)), limits, w.(now := at), w');
    }
    SettleDurable(w, signature, cost, at, write, limits);
  }

  /** Soundness looks only at the clock and the broadcasts. */
  lemma SoundIgnores(s: Saved, limits: Limits, w: World, w': World)
    requires w.now == w'.now && w.sent == w'.sent
    ensures Sound(s, limits, w) == Sound(s, limits, w')
  {
    hide ValidSaved, Budgeted, Counted;
  }

  lemma SettleDurable(w: World, signature: string, cost: int, at: Instant, write: Write, limits: Limits)
    requires Durable(w) && (!w.j.failed ==> w.j.disk == w.j.live)
    ensures Durable(Step(w, Resolved(signature, cost, at, write), limits))
  {
    hide Find;
    var w' := Step(w, Resolved(signature, cost, at, write), limits);
    var checked := CheckSettle(w.j, signature, cost, at);
    if checked.Success? {
      var k := FindFinds(w.j.live.pending, signature);
      WithoutElements(w.j.live.pending, signature);
    }
    forall i | 0 <= i < |w'.sent| && w'.sent[i].signature !in w'.settled
      ensures HasSignature(w'.j.disk, w'.sent[i].signature)
    {
      assert HasSignature(w.j.disk, w.sent[i].signature);
      var k :| 0 <= k < |w.j.disk.pending| && w.j.disk.pending[k].tx.signature == w.sent[i].signature;
      if w'.j.disk != w.j.disk {
        assert w.j.disk.pending[k] in w'.j.disk.pending;
      }
    }
  }

  lemma ScannedKeeps(w: World, cursor: string, write: Write, limits: Limits)
    requires Inv(w, limits)
    ensures Inv(Step(w, Scanned(cursor, write), limits), limits)
  {
    hide Keep, RateLimited, Chronological, Total;
    var s := w.j.live;
    var s' := s.(cursor := Some(cursor));
    assert forall day :: Spent(s', day) == Spent(s, day);
    assert forall signature :: HasSignature(s, signature) ==> HasSignature(s', signature);
  }

  /** A restart never refuses the file the keeper wrote, and continues from exactly what it holds. */
  lemma RestartNeverRefuses(w: World, limits: Limits)
    requires Inv(w, limits)
    ensures Restart(w.j, limits.identity, Written) == Success(Store(w.j.disk, w.j.disk, false))
  {
    hide ValidSaved, Budgeted, Counted, RateLimited, Chronological, Durable;
  }

  lemma StepKeeps(w: World, e: Event, limits: Limits)
    requires Inv(w, limits) && Timely(w, e)
    ensures Inv(Step(w, e, limits), limits)
  {
    match e
    case Send(tx, write) => SendKeeps(w, tx, write, limits);
    case Resolved(signature, cost, at, write) => ResolvedKeeps(w, signature, cost, at, write, limits);
    case Scanned(cursor, write) => ScannedKeeps(w, cursor, write, limits);
    case Crash =>
      hide Sound, RateLimited, Chronological, Restart;
      RestartNeverRefuses(w, limits);
      var w' := Step(w, e, limits);
      SoundIgnores(w.j.disk, limits, w, w');
  }

  lemma {:induction false} RunKeeps(w: World, events: seq<Event>, limits: Limits)
    requires Inv(w, limits) && AllTimely(w, events, limits)
    ensures Inv(After(w, events, limits), limits)
  {
    hide Inv, Step, Timely;
    if events != [] {
      RunKeeps(w, events[..|events| - 1], limits);
      StepKeeps(After(w, events[..|events| - 1], limits), events[|events| - 1], limits);
    }
  }

  // ---- The laws over every run ----

  /** Until an overrun latches, no day spends past its limit, and today's spending plus everything reserved fits too. */
  lemma DailyBudgetHolds(w: World, events: seq<Event>, limits: Limits, day: Day)
    requires Inv(w, limits) && AllTimely(w, events, limits)
    ensures var w' := After(w, events, limits);
            !w'.j.live.budgetOverrun ==>
              && Spent(w'.j.live, day) <= limits.daily
              && (day >= DayOf(w'.now) ==> Spent(w'.j.live, day) + Total(w'.j.live.pending) <= limits.daily)
  {
    hide After, AllTimely, ValidSaved, Counted, RateLimited, Chronological, Durable, NoneLater;
    RunKeeps(w, events, limits);
    var w' := After(w, events, limits);
    assert Sound(w'.j.live, limits, w');
  }

  /** The broadcasts of any 3600 seconds. */
  function Window(times: seq<int>, start: int): seq<int> {
    if times == [] then []
    else
      var last := times[|times| - 1];
      Window(times[..|times| - 1], start) + if start <= last < start + HOUR then [last] else []
  }

  lemma {:induction false} WindowWithinKeep(times: seq<int>, start: int, now: int)
    requires now < start + HOUR
    ensures |Window(times, start)| <= |Keep(times, now)|
  {
    if times != [] {
      WindowWithinKeep(times[..|times| - 1], start, now);
    }
  }

  lemma {:induction false} WindowBefore(times: seq<int>, start: int)
    requires forall i :: 0 <= i < |times| ==> times[i] < start
    ensures Window(times, start) == []
  {
    if times != [] {
      WindowBefore(times[..|times| - 1], start);
    }
  }

  lemma {:induction false} WindowLimited(sent: seq<Broadcast>, hourly: int, now: Instant, start: int)
    requires RateLimited(sent, hourly) && Chronological(sent, now)
    ensures |Window(TimesOf(sent), start)| <= Max(0, hourly)
  {
    hide Keep, Window;
    if sent == [] {
      WindowBefore([], start);
    } else {
      var n := |sent| - 1;
      var (init, last) := (sent[..n], sent[n].at);
      assert TimesOf(sent)[..n] == TimesOf(init);
      if last < start {
        WindowBefore(TimesOf(sent), start);
      } else if last < start + HOUR {
        WindowWithinKeep(TimesOf(sent), start, last);
        assert sent[..n + 1] == sent;
      } else {
        RatePrefix(sent, hourly);
        WindowLimited(init, hourly, now, start);
        WindowDrops(TimesOf(sent), start);
      }
    }
  }

  lemma RatePrefix(sent: seq<Broadcast>, hourly: int)
    requires sent != [] && RateLimited(sent, hourly)
    ensures RateLimited(sent[..|sent| - 1], hourly)
  {
    hide Keep;
    var init := sent[..|sent| - 1];
    forall i | 0 <= i < |init| ensures |Keep(TimesOf(init[..i + 1]), init[i].at)| <= hourly {
      assert init[..i + 1] == sent[..i + 1];
    }
  }

  lemma WindowDrops(times: seq<int>, start: int)
    requires times != [] && start + HOUR <= times[|times| - 1]
    ensures Window(times, start) == Window(times[..|times| - 1], start)
  {
  }

  /** However attempts are pruned, written or lost, no 3600 seconds ever hold more broadcasts than the hourly limit. */
  lemma HourlyLimitHolds(w: World, events: seq<Event>, limits: Limits, start: int)
    requires Inv(w, limits) && AllTimely(w, events, limits)
    ensures |Window(TimesOf(After(w, events, limits).sent), start)| <= Max(0, limits.hourly)
  {
    hide After, AllTimely, Sound, Durable, RateLimited, Chronological;
    RunKeeps(w, events, limits);
    var w' := After(w, events, limits);
    WindowLimited(w'.sent, limits.hourly, w'.now, start);
  }

  /** Whatever was broadcast is pending in the file until a settlement takes it. */
  lemma BroadcastStaysPending(w: World, events: seq<Event>, limits: Limits)
    requires Inv(w, limits) && AllTimely(w, events, limits)
    ensures var w' := After(w, events, limits);
            forall i :: 0 <= i < |w'.sent| ==>
              HasSignature(w'.j.disk, w'.sent[i].signature) || w'.sent[i].signature in w'.settled
  {
    hide After, AllTimely, RateLimited, Chronological, Sound, HasSignature;
    RunKeeps(w, events, limits);
  }

  /** Nothing is broadcast before the file holds it as pending, and nothing but a reservation broadcasts. */
  lemma PersistedBeforeBroadcast(w: World, e: Event, limits: Limits)
    requires Inv(w, limits)
    ensures var w' := Step(w, e, limits);
            w'.sent != w.sent ==>
              && e.Send?
              && w'.sent == w.sent + [Broadcast(e.tx.signature, e.tx.submittedAt)]
              && HasSignature(w'.j.disk, e.tx.signature)
  {
    hide RateLimited, Chronological, CheckReserve, HasSignature;
    if e.Send? && CheckReserve(w.j, e.tx, limits.daily, limits.hourly).Success? {
      CheckReserveFacts(w.j, e.tx, limits.daily, limits.hourly);
      SendDurable(w, e.tx, limits);
    }
  }

  // ---- Reconciliation ----

  /** The settlements a reconciliation attempted, as events. */
  function Attempted(j: Store, snapshot: seq<Pending>, reports: seq<Report>, now: Instant,
                     writes: seq<Write>): seq<Event>
    requires |reports| == |snapshot| == |writes|
  {
    if snapshot == [] then []
    else
      var n := |snapshot| - 1;
      var before := Reconcile(j, snapshot[..n], reports[..n], now, writes[..n]);
      var resolution := Resolve(snapshot[n], reports[n]);
      Attempted(j, snapshot[..n], reports[..n], now, writes[..n])
      + if before.2.Fail? || resolution.None? then []
        else [Resolved(snapshot[n].tx.signature, resolution.value.cost, now, writes[n])]
  }

  /** One more transaction of the snapshot adds at most one settlement. */
  lemma AttemptedUnfolds(j: Store, snapshot: seq<Pending>, reports: seq<Report>, now: Instant, writes: seq<Write>)
    requires |reports| == |snapshot| == |writes| && snapshot != []
    ensures var n := |snapshot| - 1;
            var (before, after) := (Reconcile(j, snapshot[..n], reports[..n], now, writes[..n]).0,
                                    Reconcile(j, snapshot, reports, now, writes).0);
            var (init, events) := (Attempted(j, snapshot[..n], reports[..n], now, writes[..n]),
                                   Attempted(j, snapshot, reports, now, writes));
            || (events == init && after == before)
            || (events != [] && events[..|events| - 1] == init && events[|events| - 1].Resolved?
                && events[|events| - 1].at == now
                && after == Settle(before, events[|events| - 1].signature, events[|events| - 1].cost, now,
                                   events[|events| - 1].settleWrite).0)
  {
    hide Settle, Resolve;
  }

  lemma NothingAttempted(j: Store, reports: seq<Report>, now: Instant, writes: seq<Write>)
    requires |reports| == 0 == |writes|
    ensures Attempted(j, [], reports, now, writes) == [] && Reconcile(j, [], reports, now, writes).0 == j
  {
  }

  /** A reconciliation is a run of settlements, so everything proved of runs holds of it. */
  lemma {:induction false} ReconciliationIsARun(w: World, snapshot: seq<Pending>, reports: seq<Report>, now: Instant,
                                                writes: seq<Write>, limits: Limits)
    requires |reports| == |snapshot| == |writes| && w.now <= now
    ensures var events := Attempted(w.j, snapshot, reports, now, writes);
            && AllTimely(w, events, limits)
            && After(w, events, limits).j == Reconcile(w.j, snapshot, reports, now, writes).0
            && After(w, events, limits).now <= now
            && After(w, events, limits).sent == w.sent
  {
    hide Settle, Resolve, Reserve, Advance, Restart, CheckSettle, Reconcile, Attempted;
    if snapshot == [] {
      NothingAttempted(w.j, reports, now, writes);
    } else {
      var n := |snapshot| - 1;
      ReconciliationIsARun(w, snapshot[..n], reports[..n], now, writes[..n], limits);
      AttemptedUnfolds(w.j, snapshot, reports, now, writes);
    }
  }

  function Costs(done: seq<Resolution>): int {
    if done == [] then 0 else Costs(done[..|done| - 1]) + done[|done| - 1].cost
  }

  /** A transaction leaves the journal only when the chain proved what became of it. */
  predicate Proven(p: Pending, report: Report) {
    || (report.first == Finalized && report.meta.Some?)
    || (report.first == Absent && report.second == Absent && !report.hasReceipt
        && p.tx.lastValidBlockHeight < report.finalizedHeight)
  }

  /** The least number of lamports at or above nothing, the fee and what the balance lost. */
  predicate ReceiptCost(cost: int, m: Meta) {
    var debit := m.preBalance - m.postBalance;
    && 0 <= cost && m.fee <= cost && debit <= cost
    && (cost == 0 || cost == m.fee || cost == debit)
  }

  /** What a proven outcome says: a receipt costs what it shows and fails if it did; an expiry costs all it reserved. */
  predicate Accounted(p: Pending, report: Report, done: Resolution) {
    && done.pending == p
    && if report.first == Finalized
       then report.meta.Some? && ReceiptCost(done.cost, report.meta.value)
            && !done.expired && done.failed == report.meta.value.failed
       else done.cost == p.tx.reserved && done.expired && done.failed
  }

  /** The resolutions are those of the proven transactions, one each and in their order. */
  predicate AllAccounted(snapshot: seq<Pending>, reports: seq<Report>, done: seq<Resolution>)
    requires |reports| == |snapshot|
  {
    if snapshot == [] then done == []
    else
      var n := |snapshot| - 1;
      if Proven(snapshot[n], reports[n])
      then done != [] && Accounted(snapshot[n], reports[n], done[|done| - 1])
           && AllAccounted(snapshot[..n], reports[..n], done[..|done| - 1])
      else AllAccounted(snapshot[..n], reports[..n], done)
  }

  /** A transaction is resolved exactly when its outcome is proven, and then accounted for in full. */
  lemma ResolvedIffProven(p: Pending, report: Report)
    ensures Resolve(p, report).Some? <==> Proven(p, report)
    ensures Proven(p, report) ==> Accounted(p, report, Resolve(p, report).value)
  {
  }

  lemma SettleTakesOne(j: Store, signature: string, cost: int, now: Instant, write: Write)
    ensures var (j', settled) := Settle(j, signature, cost, now, write);
            && (forall p :: p in j'.live.pending ==> p in j.live.pending)
            && (forall p :: p in j.live.pending && p !in j'.live.pending ==> p.tx.signature == signature)
            && (settled.Pass? ==>
                  forall day {:trigger Spent(j'.live, day)} ::
                    Spent(j'.live, day) == Spent(j.live, day) + if day == DayOf(now) then cost else 0)
  {
    hide Without;
    if CheckSettle(j, signature, cost, now).Success? {
      var k := FindFinds(j.live.pending, signature);
      WithoutElements(j.live.pending, signature);
    }
  }

  /**
   * Only proven outcomes are released, each is resolved once for exactly what its report says it cost, and the sum is
   * charged to the day of the pass.
   */
  lemma {:induction false} ReconciliationIsProven(j: Store, snapshot: seq<Pending>, reports: seq<Report>, now: Instant,
                                                  writes: seq<Write>)
    requires |reports| == |snapshot| == |writes|
    ensures var r := Reconcile(j, snapshot, reports, now, writes);
            && (forall p :: p in r.0.live.pending ==> p in j.live.pending)
            && (forall p :: p in j.live.pending && p !in r.0.live.pending ==>
                  exists i :: 0 <= i < |snapshot| && snapshot[i].tx.signature == p.tx.signature
                      && Proven(snapshot[i], reports[i]))
            && (r.2.Pass? ==>
                  && AllAccounted(snapshot, reports, r.1)
                  && forall day {:trigger Spent(r.0.live, day)} ::
                       Spent(r.0.live, day) == Spent(j.live, day) + if day == DayOf(now) then Costs(r.1) else 0)
  {
    hide Settle, Spent, Resolve, Accounted;
    if snapshot != [] {
      ResolvedIffProven(snapshot[|snapshot| - 1], reports[|snapshot| - 1]);
      var n := |snapshot| - 1;
      ReconciliationIsProven(j, snapshot[..n], reports[..n], now, writes[..n]);
      var before := Reconcile(j, snapshot[..n], reports[..n], now, writes[..n]);
      var r := Reconcile(j, snapshot, reports, now, writes);
      var resolution := Resolve(snapshot[n], reports[n]);
      forall p | p in j.live.pending && p !in before.0.live.pending
        ensures exists i ::
                  0 <= i < |snapshot| && snapshot[i].tx.signature == p.tx.signature && Proven(snapshot[i], reports[i])
      {
        var i :| 0 <= i < n && snapshot[..n][i].tx.signature == p.tx.signature
            && Proven(snapshot[..n][i], reports[..n][i]);
        assert snapshot[..n][i] == snapshot[i] && reports[..n][i] == reports[i];
      }
      if before.2.Pass? && resolution.Some? {
        SettleTakesOne(before.0, snapshot[n].tx.signature, resolution.value.cost, now, writes[n]);
        assert Proven(snapshot[n], reports[n]);
        if r.2.Pass? {
          assert r.1[..|r.1| - 1] == before.1;
        }
      }
    }
  }

  /** A transaction whose outcome the chain leaves unknown keeps its reservation. */
  lemma UnknownStaysReserved(j: Store, reports: seq<Report>, now: Instant, writes: seq<Write>, k: nat)
    requires |reports| == |j.live.pending| == |writes| && Distinct(j.live.pending)
    requires k < |reports| && !Proven(j.live.pending[k], reports[k])
    ensures j.live.pending[k] in Reconcile(j, j.live.pending, reports, now, writes).0.live.pending
  {
    hide Proven, Reconcile;
    ReconciliationIsProven(j, j.live.pending, reports, now, writes);
  }

  /** The reservation covers the measured debit and the fee, plus a fifth of them and at least 5000 lamports. */
  lemma ReservationCoversEstimate(preBalance: int, postBalance: int, networkFee: int)
    requires ReserveCost(preBalance, postBalance, networkFee).Success?
    ensures var (reserved, estimate) := (ReserveCost(preBalance, postBalance, networkFee).value,
                                         Max(0, preBalance - postBalance) + networkFee);
            && 0 <= networkFee && preBalance - postBalance + networkFee <= estimate
            && estimate + 5_000 <= reserved && 6 * estimate <= 5 * reserved
            && (reserved == estimate + 5_000 || 5 * (reserved - 1) < 6 * estimate)
  {
  }
}
