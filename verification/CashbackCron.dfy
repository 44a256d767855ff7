/**
 The payment of one plan as it runs: the statements of the transaction, the retry loop
 of the transaction helper and the retry loop around it.

 `committed` is what other connections see and `work` what the open transaction
 sees.  Transactions are SERIALIZABLE, so the ones that commit are modelled as
 running one after another; the transactions of other workers appear between
 attempts.  What the database and the other workers do is given by an environment
 argument, so every contract below is for all of them.
 */
module CashbackCron {
  import opened Options
  import opened CashbackDb
  import opened CashbackRuns

  datatype Error = SerializationFailure | OtherFailure | MaxRetriesExceeded

  /** A committed payment transaction; `own` tells ours from other workers'. */
  datatype Commit = Commit(own: bool, snap: Plan, period: int)

  /** What goes wrong in one transaction attempt.  Statement 0 is BEGIN. */
  datatype Fault =
    | NoFault
    | StatementFault(statement: nat, serialization: bool)
    | CommitFault(serialization: bool)
    | CommitAckLost

  datatype Attempt = Attempt(others: seq<Commit>, fault: Fault)

  datatype WalletLookup = LookupFails | Missing(openFails: bool) | Inactive | ActiveWallet

  /** What the reads before the transaction see. */
  datatype PreCheck = PreCheck(others: seq<Commit>, wallet: WalletLookup, existsFails: bool)

  datatype Env = Env(pre: nat -> PreCheck, attempt: nat -> Attempt)

  const MAX_RETRIES := 3
  const CRON_BATCH_SIZE := 50

  /** The database after a log of committed transactions, oldest first. */
  function Replayed(db: Db, log: seq<Commit>): (r: Db)
    ensures |r.plans| == |db.plans|
  {
    if |log| == 0 then db
    else
      var prev := Replayed(db, log[..|log| - 1]);
      var c := log[|log| - 1];
      if c.snap.id < |prev.plans| then Installment(prev, c.snap, c.period) else prev
  }

  function OwnCommits(log: seq<Commit>): nat {
    if |log| == 0 then 0 else OwnCommits(log[..|log| - 1]) + (if log[|log| - 1].own then 1 else 0)
  }

  lemma {:induction false} ReplayedAppend(db: Db, log: seq<Commit>, c: Commit)
    ensures Replayed(db, log + [c]) == (var prev := Replayed(db, log);
              if c.snap.id < |prev.plans| then Installment(prev, c.snap, c.period) else prev)
    ensures OwnCommits(log + [c]) == OwnCommits(log) + (if c.own then 1 else 0)
  { }

  /**
   The log of any mixture of workers keeps the books, as long as every transaction
   in it was started from a snapshot live in the current period.
   */
  lemma {:induction false} ReplayKeepsBooks(s: System, log: seq<Commit>)
    requires SystemInv(s)
    requires forall c :: c in log ==> c.snap in s.snapshots && c.period == s.period
    ensures SystemInv(s.(db := Replayed(s.db, log)))
  {
    if |log| > 0 {
      var front, c := log[..|log| - 1], log[|log| - 1];
      ReplayKeepsBooks(s, front);
      var prev := s.(db := Replayed(s.db, front));
      assert c in log && SnapshotOk(prev, c.snap);
      StepKeepsInv(prev, Pay(c.snap));
    }
  }

  lemma {:induction false} ReplayedConcat(db: Db, a: seq<Commit>, b: seq<Commit>)
    ensures Replayed(db, a + b) == Replayed(Replayed(db, a), b)
    ensures OwnCommits(a + b) == OwnCommits(a) + OwnCommits(b)
  {
    if |b| == 0 {
      assert a + b == a;
    } else {
      assert (a + b)[..|a + b| - 1] == a + b[..|b| - 1];
      ReplayedConcat(db, a, b[..|b| - 1]);
    }
  }

  /** What another worker did, whatever the environment calls it. */
  function Foreign(others: seq<Commit>): seq<Commit> {
    seq(|others|, i requires 0 <= i < |others| => others[i].(own := false))
  }

  lemma {:induction false} ForeignIsNotOwn(log: seq<Commit>)
    requires forall i :: 0 <= i < |log| ==> !log[i].own
    ensures OwnCommits(log) == 0
  {
    if |log| > 0 { ForeignIsNotOwn(log[..|log| - 1]); }
  }

  /**
   From `db` to `db'` exactly the transactions appended to the log were committed;
   `own` of them are ours, and ours pay `snap` for `period`.
   */
  ghost predicate Explains(db: Db, earlier: seq<Commit>, db': Db, later: seq<Commit>,
                           own: nat, snap: Plan, period: int) {
    && |earlier| <= |later| && later[..|earlier|] == earlier
    && var added := later[|earlier|..];
    && db' == Replayed(db, added)
    && OwnCommits(added) == own
    && forall i :: 0 <= i < |added| && added[i].own ==> added[i] == Commit(true, snap, period)
  }

  lemma {:induction false} ExplainsCompose(db0: Db, log0: seq<Commit>, db1: Db, log1: seq<Commit>,
                                           db2: Db, log2: seq<Commit>, a: nat, b: nat, snap: Plan, period: int)
    requires Explains(db0, log0, db1, log1, a, snap, period)
    requires Explains(db1, log1, db2, log2, b, snap, period)
    ensures Explains(db0, log0, db2, log2, a + b, snap, period)
  {
    var x, y := log1[|log0|..], log2[|log1|..];
    assert log2[|log0|..] == x + y;
    assert log2[..|log0|] == log2[..|log1|][..|log0|];
    ReplayedConcat(db0, x, y);
  }

  ghost predicate Quiet(env: Env, wallet: WalletLookup) {
    && (forall a :: env.attempt(a) == Attempt([], NoFault))
    && (forall a :: env.pre(a) == PreCheck([], wallet, false))
  }

  /** The tables when claim, post and mark have run. */
  function BeforeRefresh(db: Db, snap: Plan, period: int): Db
    requires snap.id < |db.plans|
  {
    var w := Written(db, snap, period);
    db.(payments := w.payments, ledger := w.ledger)
  }

  class Repository {
    var committed: Db
    var work: Db
    ghost var log: seq<Commit>

    constructor (db: Db)
      ensures committed == db && log == []
    {
      committed, work, log := db, db, [];
    }

    // ---- the statements of one payment ----

    /** A CHECK refuses the row before the unique key is looked at. */
    method ClaimPaymentPeriod(planId: nat, period: int, amount: int)
      returns (paymentId: nat, claimed: bool, refused: bool)
      modifies this`work
      ensures refused <==> !PaymentAccepted(old(work), period, amount)
      ensures claimed <==> !refused && !HasPayment(old(work).payments, planId, period)
      ensures claimed ==>
        && paymentId == |old(work).payments|
        && work == old(work).(payments := old(work).payments + [Payment(planId, period, amount, Scheduled, None)])
      ensures !claimed ==> work == old(work)
    {
      refused := !PaymentAccepted(work, period, amount);
      paymentId, claimed := 0, !refused && !HasPayment(work.payments, planId, period);
      if claimed {
        paymentId := |work.payments|;
        work := work.(payments := work.payments + [Payment(planId, period, amount, Scheduled, None)]);
      }
    }

    /** Returns the key's transaction: the original one, changing nothing, or a new balanced one. */
    method Post(planId: nat, n: int, userId: int, amount: int) returns (txnId: nat)
      modifies this`work
      ensures txnId < |work.ledger| && work.ledger[txnId].planId == planId && work.ledger[txnId].installment == n
      ensures HasTxn(old(work).ledger, planId, n) ==> work == old(work)
      ensures !HasTxn(old(work).ledger, planId, n) ==>
        work == old(work).(ledger := old(work).ledger + [Txn(planId, n, Posting(userId, amount))])
      ensures PostInTx(old(work).ledger, planId, n, userId, amount) == Posted(work.ledger, txnId)
    {
      var existing := TxnIndex(work.ledger, planId, n);
      if existing.Some? { return existing.value; }
      txnId := |work.ledger|;
      work := work.(ledger := work.ledger + [Txn(planId, n, Posting(userId, amount))]);
    }

    method MarkPaymentPaid(paymentId: nat, txnId: nat) returns (ok: bool)
      modifies this`work
      ensures ok == (paymentId < |old(work).payments|)
      ensures ok ==> work == old(work).(payments :=
        old(work).payments[paymentId := old(work).payments[paymentId].(status := Paid, ledgerTxn := Some(txnId))])
      ensures !ok ==> work == old(work)
    {
      ok := paymentId < |work.payments|;
      if ok {
        var row := work.payments[paymentId].(status := Paid, ledgerTxn := Some(txnId));
        work := work.(payments := work.payments[paymentId := row]);
      }
    }

    /** No result when the plan is missing or a CHECK refuses the new row. */
    method RefreshPaymentsMadeCache(planId: nat) returns (refreshed: bool, completed: bool)
      modifies this`work
      ensures refreshed == (planId < |old(work).plans|
        && RowAccepted(old(work).statuses, Refreshed(old(work).plans[planId], PaidCount(old(work).payments, planId))))
      ensures refreshed ==>
        && work == old(work).(plans := old(work).plans[planId :=
             Refreshed(old(work).plans[planId], PaidCount(old(work).payments, planId))])
        && completed == (work.plans[planId].paymentsMade >= work.plans[planId].terms.totalMonths)
      ensures !refreshed ==> work == old(work) && !completed
    {
      refreshed, completed := false, false;
      if planId < |work.plans| {
        var row := Refreshed(work.plans[planId], PaidCount(work.payments, planId));
        if RowAccepted(work.statuses, row) {
          work := work.(plans := work.plans[planId := row]);
          refreshed, completed := true, row.paymentsMade >= row.terms.totalMonths;
        }
      }
    }

    /** The body of the transaction: claim, post, mark, refresh. */
    method PayInTx(snap: Plan, period: int, fault: Fault) returns (err: Option<Error>, done: bool)
      requires snap.id < |work.plans| && DueAmount(snap) != 0
      modifies this`work
      ensures err.None? ==> work == Installment(old(work), snap, period)
      ensures err.None? ==> (WinsClaim(old(work), snap, period) ==> Lands(old(work), snap, period))
      ensures !fault.StatementFault? && PaymentAccepted(old(work), period, DueAmount(snap)) ==>
        (WinsClaim(old(work), snap, period) ==> Lands(old(work), snap, period)) ==> err.None?
      ensures !fault.StatementFault? && err.Some? ==> Installment(old(work), snap, period) == old(work)
      ensures err == Some(SerializationFailure) ==> fault.StatementFault? && fault.serialization
      ensures err != Some(MaxRetriesExceeded)
      ensures done ==> err.None?
    {
      err, done := None, false;
      var stop := if fault.StatementFault? then fault.statement else 5;
      var failure := if fault.StatementFault? && fault.serialization then SerializationFailure else OtherFailure;
      if stop == 1 { return Some(failure), false; }
      var paymentId, claimed, refused := ClaimPaymentPeriod(snap.id, period, DueAmount(snap));
      if refused { return Some(OtherFailure), false; }
      if !claimed { return; }
      if stop == 2 { return Some(failure), false; }
      var txnId := Post(snap.id, snap.paymentsMade + 1, snap.userId, DueAmount(snap));
      if stop == 3 { return Some(failure), false; }
      var marked := MarkPaymentPaid(paymentId, txnId);
      assert work == BeforeRefresh(old(work), snap, period);
      if stop == 4 { return Some(failure), false; }
      var refreshed, completed := RefreshPaymentsMadeCache(snap.id);
      if !refreshed { return Some(OtherFailure), false; }
      done := completed;
    }

    // ---- the two retry loops ----

    /** Transactions of other workers that commit while this one is between attempts. */
    method Interfere(others: seq<Commit>, ghost snap: Plan, ghost period: int)
      modifies this`committed, this`log
      ensures Explains(old(committed), old(log), committed, log, 0, snap, period)
      ensures |committed.plans| == |old(committed).plans|
      ensures others == [] ==> committed == old(committed)
    {
      committed := Replayed(committed, Foreign(others));
      log := log + Foreign(others);
      ForeignIsNotOwn(Foreign(others));
      assert log[|old(log)|..] == Foreign(others);
    }

    method CommitWork(snap: Plan, period: int)
      requires snap.id < |committed.plans| && work == Installment(committed, snap, period)
      modifies this`committed, this`log
      ensures committed == work
      ensures Explains(old(committed), old(log), committed, log, 1, snap, period)
    {
      committed := work;
      log := log + [Commit(true, snap, period)];
      assert log[|old(log)|..] == [Commit(true, snap, period)];
      ReplayedAppend(old(committed), [], Commit(true, snap, period));
      assert [] + [Commit(true, snap, period)] == [Commit(true, snap, period)];
    }

    /**
     The transaction helper: up to three attempts, retried on serialization failures
     only.  `base` numbers the attempts of the enclosing call.
     */
    method WithTx(snap: Plan, period: int, env: Env, base: nat)
      returns (err: Option<Error>, done: bool, used: nat, ghost own: nat)
      requires snap.id < |committed.plans| && DueAmount(snap) != 0
      modifies this
      ensures 1 <= used <= 3 && own <= 1
      ensures Explains(old(committed), old(log), committed, log, own, snap, period)
      ensures |committed.plans| == |old(committed).plans|
      ensures err.None? ==> own == 1
      ensures err.Some? && own == 1 ==> env.attempt(base + used - 1).fault == CommitAckLost
      ensures err == Some(SerializationFailure) ==> own == 0
      ensures err != Some(MaxRetriesExceeded)
      ensures (forall a :: env.attempt(a) == Attempt([], NoFault)) ==>
                && committed == Installment(old(committed), snap, period)
                && err != Some(SerializationFailure)
    {
      err, done, used, own := None, false, 0, 0;
      while used < MAX_RETRIES
        invariant used < MAX_RETRIES && own == 0  // the third attempt always returns
        invariant Explains(old(committed), old(log), committed, log, 0, snap, period)
        invariant |committed.plans| == |old(committed).plans|
        invariant (forall a :: env.attempt(a) == Attempt([], NoFault)) ==> used == 0 && committed == old(committed)
      {
        var now := env.attempt(base + used);
        used := used + 1;
        ghost var db1, log1 := committed, log;
        Interfere(now.others, snap, period);
        ExplainsCompose(old(committed), old(log), db1, log1, committed, log, 0, 0, snap, period);
        if now.fault.StatementFault? && now.fault.statement == 0 { return Some(OtherFailure), done, used, 0; }
        work := committed;
        var e, d := PayInTx(snap, period, now.fault);
        done := done || d;
        if e.Some? {
          if e.value == SerializationFailure && used < MAX_RETRIES { continue; }
          return e, done, used, 0;
        }
        if now.fault.CommitFault? {
          if now.fault.serialization && used < MAX_RETRIES { continue; }
          return Some(if now.fault.serialization then SerializationFailure else OtherFailure), done, used, 0;
        }
        ghost var db2, log2 := committed, log;
        CommitWork(snap, period);
        ExplainsCompose(old(committed), old(log), db2, log2, committed, log, 0, 1, snap, period);
        return if now.fault.CommitAckLost? then Some(OtherFailure) else None, done, used, 1;
      }
    }

    /** The reads before the transaction, then the transaction. */
    method PayOnePlanInTx(snap: Plan, period: int, env: Env, outer: nat, base: nat)
      returns (done: bool, err: Option<Error>, used: nat, ghost own: nat)
      requires snap.id < |committed.plans|
      modifies this
      ensures used <= 3 && own <= 1
      ensures Explains(old(committed), old(log), committed, log, own, snap, period)
      ensures |committed.plans| == |old(committed).plans|
      ensures err.Some? && own == 1 ==> used > 0 && env.attempt(base + used - 1).fault == CommitAckLost
      ensures err == Some(SerializationFailure) ==> own == 0
      ensures err != Some(MaxRetriesExceeded)
      ensures Quiet(env, ActiveWallet) || Quiet(env, Inactive) ==> err != Some(SerializationFailure)
      ensures Quiet(env, ActiveWallet) ==> committed == Installment(old(committed), snap, period)
      ensures Quiet(env, Inactive) ==> committed == old(committed)
    {
      done, err, used, own := true, None, 0, 0;
      var now := env.pre(outer);
      Interfere(now.others, snap, period);
      if DueAmount(snap) == 0 { return; }
      match now.wallet {
        case LookupFails => return false, Some(OtherFailure), 0, 0;
        case Missing(openFails) => if openFails { return false, Some(OtherFailure), 0, 0; }
        case Inactive => return;
        case ActiveWallet =>
      }
      if now.existsFails { return false, Some(OtherFailure), 0, 0; }
      if HasPayment(committed.payments, snap.id, period) { return; }
      ghost var db1, log1 := committed, log;
      err, done, used, own := WithTx(snap, period, env, base);
      ExplainsCompose(old(committed), old(log), db1, log1, committed, log, 0, own, snap, period);
    }

    /**
     One call for one listed plan.  Whatever fails and whoever else commits in
     between, at most nine transaction attempts are made, at most one of them
     commits, and an error is reported for a committed one only when its commit
     acknowledgement was lost.
     */
    method PayOnePlan(snap: Plan, period: int, env: Env)
      returns (err: Option<Error>, used: nat, ghost own: nat)
      requires snap.id < |committed.plans|
      modifies this
      ensures used <= 9 && own <= 1
      ensures Explains(old(committed), old(log), committed, log, own, snap, period)
      ensures |committed.plans| == |old(committed).plans|
      ensures err.Some? && own == 1 ==> used > 0 && env.attempt(used - 1).fault == CommitAckLost
      ensures err != Some(MaxRetriesExceeded)
      ensures Quiet(env, ActiveWallet) ==> committed == Installment(old(committed), snap, period)
      ensures Quiet(env, Inactive) ==> committed == old(committed)
    {
      err, used, own := None, 0, 0;
      var outer := 0;
      while outer < MAX_RETRIES
        invariant outer < MAX_RETRIES && used <= outer * MAX_RETRIES && own == 0
        invariant Explains(old(committed), old(log), committed, log, 0, snap, period)
        invariant |committed.plans| == |old(committed).plans|
        invariant Quiet(env, ActiveWallet) || Quiet(env, Inactive) ==> outer == 0 && committed == old(committed)
      {
        ghost var db1, log1 := committed, log;
        var done, e, u, o := PayOnePlanInTx(snap, period, env, outer, used);
        used, own := used + u, o;
        ExplainsCompose(old(committed), old(log), db1, log1, committed, log, 0, own, snap, period);
        if e.None? { return None, used, own; }
        outer := outer + 1;
        if e.value == SerializationFailure && outer < MAX_RETRIES { continue; }
        if done { return None, used, own; }
        return e, used, own;
      }
    }
  }
}
