/** Each journal operation by itself: exactly when it succeeds, and exactly what it leaves behind. */
module JournalSteps {
  import opened Numbers
  import opened Journal
  import opened JournalRuns

  /** A day is 86,400 seconds from midnight, before 1970 as after. */
  lemma DayExact(t: Instant)
    ensures DayOf(t) * 86_400 <= t < (DayOf(t) + 1) * 86_400
  {
  }

  // ---- Loading ----

  /** What a journal file must satisfy to be trusted. */
  predicate Trustworthy(s: Saved, identity: string) {
    && s.identity == identity
    && (forall day :: day in s.spent ==> s.spent[day] <= 9_007_199_254_740_991)
    && (forall i :: 0 <= i < |s.pending| ==> WellFormed(s.pending[i].tx)
                                             && s.pending[i].day == DayOf(s.pending[i].tx.submittedAt))
    && 0 <= Total(s.pending) <= 9_007_199_254_740_991
    && (forall i :: 0 <= i < |s.attempts| ==> 0 <= s.attempts[i] <= 9_007_199_254_740_991)
    && (forall i, j :: 0 <= i < j < |s.pending| ==>
          s.pending[i].tx.position != s.pending[j].tx.position
          && s.pending[i].tx.signature != s.pending[j].tx.signature)
  }

  predicate WellFormed(tx: Submission) {
    && tx.position != "" && tx.signature != "" && tx.blockhash != ""
    && 0 <= tx.lastValidBlockHeight <= 9_007_199_254_740_991
    && 0 <= tx.reserved <= 9_007_199_254_740_991
    && 0 <= tx.submittedAt
  }

  lemma ValidIsTrustworthy(s: Saved, identity: string)
    ensures s.identity == identity && ValidSaved(s) <==> Trustworthy(s, identity)
  {
    hide Total;
    assert forall i :: 0 <= i < |s.pending| ==>
        (ValidPending(s.pending[i])
         <==> WellFormed(s.pending[i].tx) && s.pending[i].day == DayOf(s.pending[i].tx.submittedAt));
  }

  /**
   * A missing file starts an empty journal; a legacy one carries its one day's spending over, and nothing else; a
   * current one is taken whole if it is trustworthy. Anything else is refused.
   */
  lemma LoadExact(file: File, identity: string)
    ensures var (r, empty) := (Load(file, identity), Saved(identity, None, map[], [], [], false));
            match file
            case Missing => r == Success(empty)
            case Legacy(day, spent) =>
              if 0 <= spent <= 9_007_199_254_740_991 && (day.Some? || spent == 0)
              then
                && r.Success? && r.value == empty.(spent := r.value.spent)
                && (forall d {:trigger Spent(r.value, d)} :: Spent(r.value, d) == if day == Some(d) then spent else 0)
                && (forall d :: d in r.value.spent ==> day == Some(d))
              else r == Failure(RefusedFile)
            case Current(s) => r == if Trustworthy(s, identity) then Success(s) else Failure(RefusedFile)
  {
    hide Trustworthy, ValidSaved;
    if file.Current? {
      ValidIsTrustworthy(file.saved, identity);
    }
  }

  /** A restart continues from a trustworthy file once it has written it back, and otherwise does not start. */
  lemma RestartsIff(j: Store, identity: string, write: Write)
    ensures var r := Restart(j, identity, write);
            if Trustworthy(j.disk, identity) && write == Written then r == Success(Store(j.disk, j.disk, false))
            else r.Failure?
  {
    hide ValidSaved, Trustworthy;
    ValidIsTrustworthy(j.disk, identity);
  }

  // ---- Reserving ----

  /** The attempts kept are exactly those under an hour old, each as often as before. */
  lemma {:induction false} KeepExact(attempts: seq<int>, now: int, t: int)
    ensures multiset(Keep(attempts, now))[t] == if now - t < 3_600 then multiset(attempts)[t] else 0
  {
    if attempts != [] {
      var init := attempts[..|attempts| - 1];
      KeepExact(init, now, t);
      assert attempts == init + [attempts[|attempts| - 1]];
    }
  }

  /** Nothing in the way of a reservation. */
  predicate Reservable(j: Store, tx: Submission, daily: int, hourly: int) {
    var s := j.live;
    && WellFormed(tx)
    && (forall i :: 0 <= i < |s.pending| ==>
          s.pending[i].tx.position != tx.position && s.pending[i].tx.signature != tx.signature)
    && !s.budgetOverrun && !j.failed
    && 0 <= daily <= 9_007_199_254_740_991
    && Spent(s, DayOf(tx.submittedAt)) + Total(s.pending) <= 9_007_199_254_740_991
    && tx.reserved <= Max(0, daily - Spent(s, DayOf(tx.submittedAt)) - Total(s.pending))
    && |Keep(s.attempts, tx.submittedAt)| < hourly
  }

  /**
   * On a valid journal a reservation is accepted exactly when nothing is in its way, and is then pending and counted as
   * an attempt, beside nothing but the attempts of the last hour.
   */
  lemma ReserveSucceedsIff(j: Store, tx: Submission, daily: int, hourly: int, write: Write)
    requires ValidSaved(j.live)
    ensures var (j', r) := Reserve(j, tx, daily, hourly, write);
            var s := j.live.(pending := j.live.pending + [Pending(tx, DayOf(tx.submittedAt))],
                             attempts := Keep(j.live.attempts, tx.submittedAt) + [tx.submittedAt]);
            if Reservable(j, tx, daily, hourly) then Stored(j, s, write, j', r) else r.Fail? && j' == j
  {
    hide Keep, Total, Reserved;
    ReservedIsTotal(j.live.pending) by {
      forall i | 0 <= i < |j.live.pending| ensures 0 <= j.live.pending[i].tx.reserved {
        assert ValidPending(j.live.pending[i]);
      }
    }
  }

  /** What a journal that has not failed holds after a write: memory always, the file unless the write was lost. */
  predicate Stored(j: Store, s: Saved, write: Write, j': Store, r: Check<JournalError>) {
    if j.failed then j' == Store(s, j.disk, true) && r == Fail(Storage)
    else
      && j' == Store(s, if write == Lost then j.disk else s, write != Written)
      && r == if write == Written then Pass else Fail(Storage)
  }

  /** A cursor is remembered and written whatever else the journal holds. */
  lemma AdvanceExact(j: Store, cursor: string, write: Write)
    ensures var (j', r) := Advance(j, cursor, write); Stored(j, j.live.(cursor := Some(cursor)), write, j', r)
  {
  }

  // ---- Settling ----

  lemma {:induction false} FoundAt(pending: seq<Pending>, k: nat)
    requires k < |pending| && Distinct(pending)
    ensures Find(pending, pending[k].tx.signature) == Some(pending[k])
  {
    if k > 0 {
      FoundAt(pending[1..], k - 1);
    }
  }

  lemma {:induction false} WithoutAt(pending: seq<Pending>, k: nat)
    requires k < |pending| && Distinct(pending)
    ensures Without(pending, pending[k].tx.signature) == pending[..k] + pending[k + 1..]
  {
    var (n, signature) := (|pending| - 1, pending[k].tx.signature);
    var init := pending[..n];
    if k == n {
      NoneWithout(init, signature);
    } else {
      assert init[k] == pending[k];
      WithoutAt(init, k);
      assert pending[k + 1..] == init[k + 1..] + [pending[n]];
    }
  }

  lemma {:induction false} NoneWithout(pending: seq<Pending>, signature: string)
    requires forall i :: 0 <= i < |pending| ==> pending[i].tx.signature != signature
    ensures Without(pending, signature) == pending && Find(pending, signature) == None
  {
    if pending != [] {
      NoneWithout(pending[..|pending| - 1], signature);
      NotFound(pending, signature);
    }
  }

  lemma {:induction false} NotFound(pending: seq<Pending>, signature: string)
    requires forall i :: 0 <= i < |pending| ==> pending[i].tx.signature != signature
    ensures Find(pending, signature) == None
  {
    if pending != [] {
      NotFound(pending[1..], signature);
    }
  }

  /**
   * Settling the k-th pending transaction charges exactly its cost to the day, takes exactly it from the list, and
   * latches the overrun exactly when it cost more than it reserved. Only an amount outside the safe integers is
   * refused.
   */
  lemma SettleExact(j: Store, k: nat, cost: int, at: Instant, write: Write)
    requires k < |j.live.pending| && Distinct(j.live.pending)
    ensures var p := j.live.pending[k];
            var (j', r) := Settle(j, p.tx.signature, cost, at, write);
            var total := Spent(j.live, DayOf(at)) + cost;
            if 0 <= cost && total <= 9_007_199_254_740_991 && cost <= 9_007_199_254_740_991 then
              Stored(j,
                     j.live.(spent := j.live.spent[DayOf(at) := total],
                             budgetOverrun := j.live.budgetOverrun || p.tx.reserved < cost,
                             pending := j.live.pending[..k] + j.live.pending[k + 1..]),
                     write, j', r)
            else j' == j && r == Fail(InvalidAmount)
  {
    hide Without, Find;
    FoundAt(j.live.pending, k);
    WithoutAt(j.live.pending, k);
  }

  /** A signature that is not pending settles nothing. */
  lemma UnknownSettlesNothing(j: Store, signature: string, cost: int, at: Instant, write: Write)
    requires forall i :: 0 <= i < |j.live.pending| ==> j.live.pending[i].tx.signature != signature
    ensures Settle(j, signature, cost, at, write).0 == j && Settle(j, signature, cost, at, write).1.Fail?
  {
    NotFound(j.live.pending, signature);
  }

  // ---- Measuring ----

  /** A reservation is measured for every debit and fee that are safe amounts, its cushion included. */
  lemma ReserveCostExists(preBalance: int, postBalance: int, networkFee: int)
    ensures var (safe, estimate) := (9_007_199_254_740_991, Max(0, preBalance - postBalance) + networkFee);
            ReserveCost(preBalance, postBalance, networkFee).Success?
            <==> && 0 <= preBalance <= safe && 0 <= postBalance <= safe && 0 <= networkFee <= safe
                 && estimate + 5_000 <= safe && 6 * estimate <= 5 * safe
  {
  }
}
