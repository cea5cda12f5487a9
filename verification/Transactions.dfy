/**
 MySqlTransaction and the retry loop of the contact operations, over a connection whose every call
 may fail. Statements work on `working`; only a commit moves it to `committed`.
 */
module Transactions {

  const MAX_ATTEMPTS: nat := 3
  const DEADLOCK: int := 1213
  const LOCK_TIMEOUT: int := 1205

  /** What the body of a transaction does: it decides, or a statement throws midway with an error code. */
  datatype Body<D> = Decided(after: D, accept: bool) | Threw(code: int, partial: D)

  /** A failing commit may or may not have reached the server. */
  datatype CommitOutcome = Committed | Lost | Unknown

  /** Everything that can go wrong during one attempt, and the committed data it starts from. */
  datatype Attempt<D> = Attempt(start: D, setupOk: bool, body: Body<D>, commit: CommitOutcome,
                                rollbackOk: bool, resetOk: bool, secondResetOk: bool)

  class Connection<D> {
    var committed: D
    var working: D
    var autocommit: bool
    var inTransaction: bool
    var closed: bool
    ghost var commits: nat      // how often changes of this borrower became permanent

    constructor (data: D)
      ensures committed == data && Reusable() && !closed && commits == 0
    {
      committed, working, autocommit, inTransaction, closed, commits := data, data, true, false, false, 0;
    }

    /** What the pool may hand to the next borrower. */
    ghost predicate Reusable()
      reads this
    {
      !inTransaction && (closed || autocommit)
    }

    /** Closing ends an open transaction without effect. */
    method Close()
      modifies this`closed, this`inTransaction
      ensures closed && !inTransaction
    {
      closed, inTransaction := true, false;
    }

    /** A rollback of nothing is harmless. */
    method Rollback(works: bool) returns (ok: bool)
      modifies this`inTransaction
      ensures ok == (works && !closed)
      ensures inTransaction == (old(inTransaction) && !ok)
    {
      ok := works && !closed;
      if ok {
        inTransaction := false;
      }
    }

    /** Switching autocommit on commits an open transaction. */
    method SetAutoCommit(on: bool, works: bool) returns (ok: bool)
      modifies this`autocommit, this`inTransaction, this`committed, this`commits
      ensures ok == (works && !closed)
      ensures autocommit == if ok then on else old(autocommit)
      ensures inTransaction == if ok then !on else old(inTransaction)
      ensures !(ok && on && old(inTransaction)) ==> committed == old(committed) && commits == old(commits)
      ensures ok && on && old(inTransaction) ==> committed == working && commits == old(commits) + 1
    {
      ok := works && !closed;
      if ok {
        if on && inTransaction {
          committed, commits := working, commits + 1;
        }
        autocommit, inTransaction := on, !on;
      }
    }

    method Commit(outcome: CommitOutcome) returns (ok: bool)
      requires !closed && inTransaction
      modifies this`inTransaction, this`committed, this`commits
      ensures ok == outcome.Committed?
      ensures inTransaction == outcome.Lost?
      ensures committed == if outcome.Lost? then old(committed) else working
      ensures commits == if outcome.Lost? then old(commits) else old(commits) + 1
    {
      if !outcome.Lost? {
        committed, commits, inTransaction := working, commits + 1, false;
      }
      ok := outcome.Committed?;
    }

    /** The destructor of MySqlTransaction. */
    method Leave(finished: bool, rollbackOk: bool, resetOk: bool)
      requires finished ==> !inTransaction
      modifies this`closed, this`inTransaction, this`autocommit, this`committed, this`commits
      ensures Reusable() && committed == old(committed) && commits == old(commits)
      ensures closed == (old(closed) || !resetOk || !(finished || rollbackOk))
    {
      if !finished {
        var rolledBack := Rollback(rollbackOk);
        if !rolledBack {
          Close();
          return;
        }
      }
      var restored := SetAutoCommit(true, resetOk);
      if !restored {
        Close();
      }
    }

    /** MySqlTransaction::Rollback: both steps succeed, or the connection is closed. */
    method Abandon(rollbackOk: bool, resetOk: bool) returns (ok: bool)
      requires !closed
      modifies this`closed, this`inTransaction, this`autocommit, this`committed, this`commits
      ensures ok == (rollbackOk && resetOk) && Reusable() && closed == !ok
      ensures committed == old(committed) && commits == old(commits)
    {
      ok := Rollback(rollbackOk);
      if ok {
        ok := SetAutoCommit(true, resetOk);
      }
      if !ok {
        Close();
      }
    }

    /** One pass of the retry loop; on a closed connection its first call throws. */
    method Try(a: Attempt<D>, last: bool) returns (success: bool, retry: bool)
      requires Reusable() && committed == a.start
      modifies this
      ensures Reusable()
      ensures retry == (!old(closed) && SafeToRetry(a) && !last)
      ensures retry ==> closed == !a.secondResetOk
      ensures success == (!old(closed) && Accepts(a) && a.commit.Committed? && a.resetOk)
      ensures if !old(closed) && Accepts(a) && !a.commit.Lost?
              then committed == a.body.after && commits == old(commits) + 1
              else committed == a.start && commits == old(commits)
    {
      success, retry := false, false;
      var begun := SetAutoCommit(false, a.setupOk);
      if !begun {
        Close();
        return;
      }
      match a.body
      case Decided(after, accept) =>
        working := after;
        if !accept {
          Leave(false, a.rollbackOk, a.resetOk);
          return;
        }
        var reached := Commit(a.commit);
        if !reached {
          Leave(false, a.rollbackOk, a.resetOk);
          return;
        }
        success := SetAutoCommit(true, a.resetOk);
        Leave(true, a.rollbackOk, a.secondResetOk);
      case Threw(code, partial) =>
        working := partial;
        if (code == DEADLOCK || code == LOCK_TIMEOUT) && !last {
          retry := Abandon(a.rollbackOk, a.resetOk);
          Leave(a.rollbackOk, a.rollbackOk, a.secondResetOk);
        } else {
          Leave(false, a.rollbackOk, a.resetOk);
        }
    }

    /**
     RunContactTransaction. `used` is the number of attempts made, so `used - 1` is the last one.
     Whatever fails: the operation becomes permanent at most once and as a whole; success means
     exactly once; and the connection goes back to the pool either closed or in autocommit mode
     with nothing open. Between attempts other clients may commit, so each has its own start.
     */
    method Run(attempts: nat -> Attempt<D>) returns (ok: bool, used: nat)
      requires Reusable() && !closed && committed == attempts(0).start
      modifies this
      ensures Reusable()
      ensures 1 <= used <= MAX_ATTEMPTS
      ensures forall k: nat :: k < used - 1 ==> Begins(attempts, k) && SafeToRetry(attempts(k))
      ensures used < MAX_ATTEMPTS ==> !(Begins(attempts, used - 1) && SafeToRetry(attempts(used - 1)))
      ensures ok <==> Lands(attempts, used - 1) && attempts(used - 1).commit.Committed? && attempts(used - 1).resetOk
      ensures Lands(attempts, used - 1) ==> committed == attempts(used - 1).body.after && commits == old(commits) + 1
      ensures !Lands(attempts, used - 1) ==> committed == attempts(used - 1).start && commits == old(commits)
    {
      used := 0;
      while true
        invariant used < MAX_ATTEMPTS && Reusable() && commits == old(commits)
        invariant committed == attempts(used).start
        invariant closed == (used > 0 && !attempts(used - 1).secondResetOk)
        invariant forall k: nat :: k < used ==> Begins(attempts, k) && SafeToRetry(attempts(k))
        decreases MAX_ATTEMPTS - used
      {
        var last := used + 1 == MAX_ATTEMPTS;
        var success, retry := Try(attempts(used), last);
        used := used + 1;
        if !retry {
          return success, used;
        }
        committed := attempts(used).start;
      }
    }
  }

  /** The body ran to its end and wants its changes kept. */
  predicate Accepts<D>(a: Attempt<D>) {
    a.setupOk && a.body.Decided? && a.body.accept
  }

  /** A lock error before the commit was attempted, cleanly undone. */
  predicate SafeToRetry<D>(a: Attempt<D>) {
    && a.setupOk && a.body.Threw? && (a.body.code == DEADLOCK || a.body.code == LOCK_TIMEOUT)
    && a.rollbackOk && a.resetOk
  }

  /** The connection survived the attempt before. */
  predicate Begins<D>(attempts: nat -> Attempt<D>, k: nat) {
    k > 0 ==> attempts(k - 1).secondResetOk
  }

  /** The changes of attempt `k` become permanent, reported or not. */
  predicate Lands<D>(attempts: nat -> Attempt<D>, k: nat) {
    Begins(attempts, k) && Accepts(attempts(k)) && !attempts(k).commit.Lost?
  }
}
