/** The journal as the object the keeper holds, over a file that may fail to be written. */
module JournalObject {
  import opened Numbers
  import opened Journal
  import opened JournalRuns

  /** The journal file; replacing it is atomic, though the replacement may fail or go unconfirmed. */
  class Disk {
    var file: File

    constructor (file: File)
      ensures this.file == file
    {
      this.file := file;
    }

    method Replace(saved: Saved, write: Write) returns (ok: bool)
      modifies this
      ensures file == if write.Lost? then old(file) else Current(saved)
      ensures ok == write.Written?
    {
      if !write.Lost? {
        file := Current(saved);
      }
      return write.Written?;
    }
  }

  class KeeperJournal {
    const disk: Disk
    const identity: string
    var cursor: Option<string>
    var spent: map<Day, nat>
    var pending: seq<Pending>
    var attempts: seq<int>
    var budgetOverrun: bool
    var failed: bool

    function Live(): Saved
      reads this
    {
      Saved(identity, cursor, spent, pending, attempts, budgetOverrun)
    }

    function View(): Store
      requires disk.file.Current?
      reads this, disk
    {
      Store(Live(), disk.file.saved, failed)
    }

    constructor Holding(disk: Disk, saved: Saved)
      ensures this.disk == disk && Live() == saved && !failed
    {
      this.disk, this.identity := disk, saved.identity;
      cursor, spent, pending, attempts, budgetOverrun, failed :=
        saved.cursor, saved.spent, saved.pending, saved.attempts, saved.budgetOverrun, false;
    }

    /** A file that cannot be trusted is never reset; a file that can be is written back before anything else. */
    static method Open(disk: Disk, identity: string, write: Write) returns (r: Result<KeeperJournal, JournalError>)
      modifies disk
      ensures var loaded := Load(old(disk.file), identity);
              if loaded.Failure? then r == Failure(loaded.error) && disk.file == old(disk.file)
              else if write.Written? then
                && r.Success? && fresh(r.value) && r.value.disk == disk && disk.file == Current(loaded.value)
                && r.value.View() == Store(loaded.value, loaded.value, false)
              else
                r == Failure(Storage) && disk.file == if write.Lost? then old(disk.file) else Current(loaded.value)
    {
      var saved :- Load(disk.file, identity);
      var journal := new KeeperJournal.Holding(disk, saved);
      var written := journal.Save(write);
      if written.Fail? {
        return Failure(written.error);
      }
      return Success(journal);
    }

    method Save(write: Write) returns (r: Check<JournalError>)
      modifies this`failed, disk
      ensures r == (if old(failed) || !write.Written? then Fail(Storage) else Pass)
      ensures failed == (old(failed) || !write.Written?)
      ensures disk.file == if old(failed) || write.Lost? then old(disk.file) else Current(Live())
    {
      if failed {
        return Fail(Storage);
      }
      var ok := disk.Replace(Live(), write);
      if !ok {
        failed := true;
        return Fail(Storage);
      }
      return Pass;
    }

    method AdvanceTo(cursor: string, write: Write) returns (r: Check<JournalError>)
      requires disk.file.Current?
      modifies this, disk
      ensures disk.file.Current? && (View(), r) == Journal.Advance(old(View()), cursor, write)
    {
      this.cursor := Some(cursor);
      r := Save(write);
    }

    /** The reservation is in the file before this returns without an error. */
    method Reserve(tx: Submission, dailyLimit: int, hourlyLimit: int, write: Write) returns (r: Check<JournalError>)
      requires disk.file.Current?
      modifies this, disk
      ensures disk.file.Current? && (View(), r) == Journal.Reserve(old(View()), tx, dailyLimit, hourlyLimit, write)
    {
      hide Has, HasSignature, Available, Keep, ValidTx;
      if Lamports(tx.reserved).Failure? {
        return Fail(InvalidAmount);
      }
      if Has(Live(), tx.position) || HasSignature(Live(), tx.signature) {
        return Fail(AlreadyPending);
      }
      if budgetOverrun || failed {
        return Fail(BudgetExhausted);
      }
      var available := Available(Live(), tx.submittedAt, dailyLimit);
      if available.Failure? {
        return Fail(available.error);
      }
      if tx.reserved > available.value {
        return Fail(BudgetExhausted);
      }
      if |Keep(attempts, tx.submittedAt)| >= hourlyLimit {
        return Fail(HourlyLimit);
      }
      if !ValidTx(tx) {
        return Fail(InvalidPending);
      }
      pending := pending + [Pending(tx, DayOf(tx.submittedAt))];
      attempts := Keep(attempts, tx.submittedAt);
      attempts := attempts + [tx.submittedAt];
      r := Save(write);
    }

    method Settle(signature: string, cost: int, at: Instant, write: Write) returns (r: Check<JournalError>)
      requires disk.file.Current?
      modifies this, disk
      ensures disk.file.Current? && (View(), r) == Journal.Settle(old(View()), signature, cost, at, write)
    {
      hide Find, Without;
      if Lamports(cost).Failure? {
        return Fail(InvalidAmount);
      }
      var p := Find(pending, signature);
      if p.None? {
        return Fail(UnknownSignature);
      }
      var day := DayOf(at);
      var total := Lamports(Spent(Live(), day) + cost);
      if total.Failure? {
        return Fail(InvalidAmount);
      }
      SignatureFound(pending, signature);
      spent := spent[day := total.value];
      budgetOverrun := budgetOverrun || cost > p.value.tx.reserved;
      pending := Without(pending, signature);
      r := Save(write);
    }
  }

  lemma SignatureFound(pending: seq<Pending>, signature: string)
    requires Find(pending, signature).Some?
    ensures Find(pending, signature).value.tx.signature == signature
  {
    var k := FindFinds(pending, signature);
  }

  /** The RPC node, by what it was asked to send. */
  class Network {
    var sent: seq<Broadcast>

    constructor ()
      ensures sent == []
    {
      sent := [];
    }

    method SendRawTransaction(signature: string, at: Instant, reply: Option<string>) returns (r: Option<string>)
      modifies this
      ensures sent == old(sent) + [Broadcast(signature, at)] && r == reply
    {
      sent := sent + [Broadcast(signature, at)];
      return reply;
    }
  }

  datatype BroadcastOutcome = Refused(error: JournalError) | Unanswered | WrongSignature | Accepted

  /** The network sees a transaction only if its reservation returned without an error; otherwise it sees nothing. */
  method BroadcastReserved(journal: KeeperJournal, network: Network, tx: Submission, dailyLimit: int, hourlyLimit: int,
                           write: Write, reply: Option<string>)
    returns (r: BroadcastOutcome)
    requires journal.disk.file.Current?
    modifies journal, journal.disk, network
    ensures journal.disk.file.Current?
    ensures var (j, reserved) := Reserve(old(journal.View()), tx, dailyLimit, hourlyLimit, write);
            && journal.View() == j
            && (if reserved.Fail? then r == Refused(reserved.error) && network.sent == old(network.sent)
                else
                  && network.sent == old(network.sent) + [Broadcast(tx.signature, tx.submittedAt)]
                  && r == if reply.None? then Unanswered else if reply.value != tx.signature then WrongSignature
                      else Accepted)
  {
    var reserved := journal.Reserve(tx, dailyLimit, hourlyLimit, write);
    if reserved.Fail? {
      return Refused(reserved.error);
    }
    var returned := network.SendRawTransaction(tx.signature, tx.submittedAt, reply);
    if returned.None? {
      return Unanswered;
    }
    return if returned.value != tx.signature then WrongSignature else Accepted;
  }

  /** A reconciliation that has stopped at an error does nothing more. */
  lemma {:induction false} ReconcileStops(j: Store, snapshot: seq<Pending>, reports: seq<Report>, now: Instant,
                                          writes: seq<Write>, i: nat)
    requires |reports| == |snapshot| == |writes| && i <= |snapshot|
    requires Reconcile(j, snapshot[..i], reports[..i], now, writes[..i]).2.Fail?
    ensures Reconcile(j, snapshot, reports, now, writes) == Reconcile(j, snapshot[..i], reports[..i], now, writes[..i])
    decreases |snapshot| - i
  {
    hide Settle, Resolve;
    if i == |snapshot| {
      assert snapshot[..i] == snapshot && reports[..i] == reports && writes[..i] == writes;
    } else {
      PrefixOfPrefix(snapshot, reports, writes, i);
      ReconcileStops(j, snapshot, reports, now, writes, i + 1);
    }
  }

  lemma PrefixOfPrefix(snapshot: seq<Pending>, reports: seq<Report>, writes: seq<Write>, i: nat)
    requires |reports| == |snapshot| == |writes| && i < |snapshot|
    ensures snapshot[..i + 1][..i] == snapshot[..i] && reports[..i + 1][..i] == reports[..i]
        && writes[..i + 1][..i] == writes[..i]
  {
  }

  /** Settles, in order, every pending transaction the reports resolve, up to the first settlement that fails. */
  method ReconcilePending(journal: KeeperJournal, reports: seq<Report>, now: Instant, writes: seq<Write>)
    returns (resolutions: seq<Resolution>, r: Check<JournalError>)
    requires journal.disk.file.Current? && |reports| == |journal.pending| == |writes|
    modifies journal, journal.disk
    ensures journal.disk.file.Current?
    ensures (journal.View(), resolutions, r)
        == Reconcile(old(journal.View()), old(journal.pending), reports, now, writes)
  {
    hide Journal.Settle, Resolve;
    var snapshot := journal.pending;
    resolutions := [];
    for i := 0 to |snapshot|
      invariant journal.disk.file.Current?
      invariant (journal.View(), resolutions, Pass)
             == Reconcile(old(journal.View()), snapshot[..i], reports[..i], now, writes[..i])
    {
      PrefixOfPrefix(snapshot, reports, writes, i);
      var resolution := Resolve(snapshot[i], reports[i]);
      if resolution.Some? {
        var settled := journal.Settle(snapshot[i].tx.signature, resolution.value.cost, now, writes[i]);
        if settled.Fail? {
          ReconcileStops(old(journal.View()), snapshot, reports, now, writes, i + 1);
          return resolutions, settled;
        }
        resolutions := resolutions + [resolution.value];
      }
    }
    assert snapshot[..|snapshot|] == snapshot && reports[..|snapshot|] == reports && writes[..|snapshot|] == writes;
    return resolutions, Pass;
  }
}
