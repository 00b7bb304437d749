/** The keeper's durable journal of spending, reservations and send attempts. */
module Journal {
  import opened Numbers

  /** The largest integer a double holds exactly together with all smaller ones. */
  const MAX_SAFE: int := 9_007_199_254_740_991
  /** The last second of the year 9999. */
  const MAX_TIME: int := 253_402_300_799
  const HOUR := 3600

  /** Unix seconds of the years 0000 to 9999, whose days have ten-character names. */
  type Instant = t: int | -62_167_219_200 <= t <= MAX_TIME

  /** A UTC calendar day, by number. */
  type Day = int

  function DayOf(t: Instant): Day {
    t / 86_400
  }

  datatype Submission = Submission(
    position: string, signature: string, blockhash: string, lastValidBlockHeight: int, reserved: int,
    submittedAt: Instant)

  datatype Pending = Pending(tx: Submission, day: Day)

  /** What the journal file holds. */
  datatype Saved = Saved(
    identity: string, cursor: Option<string>, spent: map<Day, nat>, pending: seq<Pending>, attempts: seq<int>,
    budgetOverrun: bool)

  /** The file on disk; the previous keeper's file kept one day's spending. */
  datatype File = Missing | Legacy(day: Option<Day>, spent: int) | Current(saved: Saved)

  datatype JournalError =
    | InvalidAmount
    | AlreadyPending
    | BudgetExhausted
    | HourlyLimit
    | InvalidPending
    | UnknownSignature
    | RefusedFile
    | Storage

  /** How a write to storage ends: done, without effect, or done but not confirmed. */
  datatype Write = Written | Lost | Unconfirmed

  /** A running journal: its memory, the file, and whether a write has ever failed. */
  datatype Store = Store(live: Saved, disk: Saved, failed: bool)

  function Lamports(value: int): Result<nat, JournalError> {
    if 0 <= value <= MAX_SAFE then Success(value) else Failure(InvalidAmount)
  }

  // ---- Validity of a file ----

  predicate ValidTx(tx: Submission) {
    && tx.position != "" && tx.signature != "" && tx.blockhash != ""
    && 0 <= tx.lastValidBlockHeight <= MAX_SAFE && 0 <= tx.reserved <= MAX_SAFE
    && 0 <= tx.submittedAt
  }

  predicate ValidPending(p: Pending) {
    ValidTx(p.tx) && p.day == DayOf(p.tx.submittedAt)
  }

  predicate Distinct(pending: seq<Pending>) {
    forall i, j :: 0 <= i < j < |pending| ==>
      pending[i].tx.position != pending[j].tx.position && pending[i].tx.signature != pending[j].tx.signature
  }

  function Total(pending: seq<Pending>): int {
    if pending == [] then 0 else Total(pending[..|pending| - 1]) + pending[|pending| - 1].tx.reserved
  }

  predicate ValidSaved(s: Saved) {
    && (forall day :: day in s.spent ==> s.spent[day] <= MAX_SAFE)
    && (forall i :: 0 <= i < |s.pending| ==> ValidPending(s.pending[i]))
    && 0 <= Total(s.pending) <= MAX_SAFE
    && (forall i :: 0 <= i < |s.attempts| ==> 0 <= s.attempts[i] <= MAX_SAFE)
    && Distinct(s.pending)
  }

  /** What starting the keeper reads: spending and pending transactions are never reset. */
  function Load(file: File, identity: string): Result<Saved, JournalError> {
    match file
    case Missing => Success(Saved(identity, None, map[], [], [], false))
    case Legacy(day, spent) =>
      if 0 <= spent <= MAX_SAFE && (day.None? ==> spent == 0)
      then Success(Saved(identity, None, if day.Some? then map[day.value := spent] else map[], [], [], false))
      else Failure(RefusedFile)
    case Current(s) => if s.identity == identity && ValidSaved(s) then Success(s) else Failure(RefusedFile)
  }

  // ---- Queries ----

  function Spent(s: Saved, day: Day): nat {
    if day in s.spent then s.spent[day] else 0
  }

  predicate Has(s: Saved, position: string) {
    exists i :: 0 <= i < |s.pending| && s.pending[i].tx.position == position
  }

  predicate HasSignature(s: Saved, signature: string) {
    exists i :: 0 <= i < |s.pending| && s.pending[i].tx.signature == signature
  }

  /** The outstanding reservations, each partial sum checked. */
  function Reserved(pending: seq<Pending>): Result<nat, JournalError> {
    if pending == [] then Success(0)
    else
      var before :- Reserved(pending[..|pending| - 1]);
      Lamports(before + pending[|pending| - 1].tx.reserved)
  }

  function Available(s: Saved, now: Instant, ceiling: int): Result<nat, JournalError> {
    var _ :- Lamports(ceiling);
    var reserved :- Reserved(s.pending);
    var committed :- Lamports(Spent(s, DayOf(now)) + reserved);
    Success(Max(0, ceiling - committed))
  }

  /** The attempts less than an hour old; one that looks future-dated is kept. */
  function Keep(attempts: seq<int>, now: int): seq<int> {
    if attempts == [] then []
    else
      var last := attempts[|attempts| - 1];
      Keep(attempts[..|attempts| - 1], now) + if now - last < HOUR then [last] else []
  }

  // ---- Transitions ----

  function Save(j: Store, write: Write): (Store, Check<JournalError>) {
    if j.failed then (j, Fail(Storage))
    else
      match write
      case Written => (j.(disk := j.live), Pass)
      case Lost => (j.(failed := true), Fail(Storage))
      case Unconfirmed => (j.(disk := j.live, failed := true), Fail(Storage))
  }

  predicate Overrun(j: Store) {
    j.live.budgetOverrun || j.failed
  }

  function CheckReserve(j: Store, tx: Submission, dailyLimit: int, hourlyLimit: int): Result<(), JournalError> {
    var _ :- Lamports(tx.reserved);
    :- Need(!Has(j.live, tx.position) && !HasSignature(j.live, tx.signature), AlreadyPending);
    :- Need(!Overrun(j), BudgetExhausted);
    var available :- Available(j.live, tx.submittedAt, dailyLimit);
    :- Need(tx.reserved <= available, BudgetExhausted);
    :- Need(|Keep(j.live.attempts, tx.submittedAt)| < hourlyLimit, HourlyLimit);
    :- Need(ValidTx(tx), InvalidPending);
    Success(())
  }

  function WithReservation(s: Saved, tx: Submission): Saved {
    s.(pending := s.pending + [Pending(tx, DayOf(tx.submittedAt))],
       attempts := Keep(s.attempts, tx.submittedAt) + [tx.submittedAt])
  }

  /** A refused reservation changes nothing; a failed write leaves it in memory. */
  function Reserve(j: Store, tx: Submission, dailyLimit: int, hourlyLimit: int, write: Write)
    : (Store, Check<JournalError>)
  {
    var checked := CheckReserve(j, tx, dailyLimit, hourlyLimit);
    if checked.Failure? then (j, Fail(checked.error))
    else Save(j.(live := WithReservation(j.live, tx)), write)
  }

  function Find(pending: seq<Pending>, signature: string): Option<Pending> {
    if pending == [] then None
    else if pending[0].tx.signature == signature then Some(pending[0])
    else Find(pending[1..], signature)
  }

  function Without(pending: seq<Pending>, signature: string): seq<Pending> {
    if pending == [] then []
    else
      var last := pending[|pending| - 1];
      Without(pending[..|pending| - 1], signature) + if last.tx.signature != signature then [last] else []
  }

  function WithSettlement(s: Saved, p: Pending, cost: nat, day: Day): Saved {
    s.(spent := s.spent[day := Spent(s, day) + cost],
       budgetOverrun := s.budgetOverrun || cost > p.tx.reserved,
       pending := Without(s.pending, p.tx.signature))
  }

  function CheckSettle(j: Store, signature: string, cost: int, at: Instant): Result<Pending, JournalError> {
    var _ :- Lamports(cost);
    var p := Find(j.live.pending, signature);
    :- Need(p.Some?, UnknownSignature);
    var _ :- Lamports(Spent(j.live, DayOf(at)) + cost);
    Success(p.value)
  }

  function Settle(j: Store, signature: string, cost: int, at: Instant, write: Write): (Store, Check<JournalError>) {
    var p := CheckSettle(j, signature, cost, at);
    if p.Failure? then (j, Fail(p.error))
    else Save(j.(live := WithSettlement(j.live, p.value, cost, DayOf(at))), write)
  }

  function Advance(j: Store, cursor: string, write: Write): (Store, Check<JournalError>) {
    Save(j.(live := j.live.(cursor := Some(cursor))), write)
  }

  /** Only the file survives a crash; restarting reads it back and writes it once more. */
  function Restart(j: Store, identity: string, write: Write): Result<Store, JournalError> {
    var saved :- Load(Current(j.disk), identity);
    var (j', written) := Save(Store(saved, j.disk, false), write);
    :- written;
    Success(j')
  }

  // ---- Reserving from measured balances ----

  /** The measured debit plus the network fee, with a cushion of a fifth, and no less than 5000 lamports. */
  function ReserveCost(preBalance: int, postBalance: int, networkFee: int): Result<nat, JournalError> {
    var _ :- Lamports(preBalance);
    var _ :- Lamports(postBalance);
    var _ :- Lamports(networkFee);
    var estimate :- Lamports(Max(0, preBalance - postBalance) + networkFee);
    Lamports(estimate + Max(5_000, (estimate + 4) / 5))
  }

  // ---- Reconciling against the chain ----

  /** A signature's status: unknown to the cluster, seen but not finalized, or finalized. */
  datatype Status = Absent | Seen | Finalized

  datatype Meta = Meta(fee: int, preBalance: int, postBalance: int, failed: bool)

  /** What the cluster answers about one pending transaction, in the order it is asked. */
  datatype Report = Report(first: Status, meta: Option<Meta>, finalizedHeight: int, second: Status, hasReceipt: bool)

  datatype Resolution = Resolution(pending: Pending, expired: bool, failed: bool, cost: int)

  /** Only finalized metadata or a proven expiry resolves a transaction. */
  function Resolve(p: Pending, report: Report): Option<Resolution> {
    match report.first
    case Finalized =>
      if report.meta.None? then None
      else
        var m := report.meta.value;
        Some(Resolution(p, false, m.failed, Max(Max(m.fee, m.preBalance - m.postBalance), 0)))
    case Absent =>
      if report.finalizedHeight <= p.tx.lastValidBlockHeight || report.second != Absent || report.hasReceipt then None
      else Some(Resolution(p, true, true, p.tx.reserved))
    case Seen => None
  }

  /** Settle what is proven, transaction by transaction, stopping at the first error. */
  function Reconcile(j: Store, snapshot: seq<Pending>, reports: seq<Report>, now: Instant, writes: seq<Write>)
    : (r: (Store, seq<Resolution>, Check<JournalError>))
    requires |reports| == |snapshot| == |writes|
  {
    if snapshot == [] then (j, [], Pass)
    else
      var n := |snapshot| - 1;
      var (before, done, failed) := Reconcile(j, snapshot[..n], reports[..n], now, writes[..n]);
      var resolution := Resolve(snapshot[n], reports[n]);
      if failed.Fail? || resolution.None? then (before, done, failed)
      else
        var (after, settled) := Settle(before, snapshot[n].tx.signature, resolution.value.cost, now, writes[n]);
        (after, if settled.Pass? then done + [resolution.value] else done, settled)
  }
}
