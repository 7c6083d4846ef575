/** Block execution with batched privacy transactions.

    Consecutive privacy transactions are first prepared on a speculative copy of the state; a flush
    checks their proofs as one batch and applies them to the real state, falling back to executing
    them one at a time. The reference is plain one-at-a-time execution. */
module BatchExec {
  import opened Util
  import opened BatchSpec
  import opened BatchRuns
  import opened BatchGas

  class StateDB<S> {
    var st: S

    constructor (s: S)
      ensures st == s
    {
      st := s;
    }

    method Copy() returns (c: StateDB<S>)
      ensures fresh(c) && c.st == st
    {
      c := new StateDB(st);
    }
  }

  class Executor<S, T, P> {
    const block: Block<S, T, P>
    const db: StateDB<S>
    var pendingState: StateDB?<S>
    var pending: seq<Candidate<T, P>>
    var receipts: seq<Option<Receipt>>
    var gp: int
    var gas: nat

    ghost predicate Valid()
      reads this
    {
      && |receipts| == |block.items| && pendingState != db
      && (pendingState == null ==> pending == [])
      && forall k | 0 <= k < |pending| :: pending[k].index < |block.items|
    }

    ghost function State(): Exec<S, T, P>
      reads this, db, pendingState
    {
      Exec(db.st, if pendingState == null then None else Some(pendingState.st), pending, gp, gas, receipts)
    }

    constructor (env: Env<S, T, P>, db: StateDB<S>, gp: int, items: seq<Item<T>>)
      ensures block == Block(env, db.st, gp, items) && this.db == db
      ensures Valid() && pendingState == null && Some(State()) == Batched(block, 0)
    {
      block, this.db := Block(env, db.st, gp, items), db;
      pendingState, pending := null, [];
      receipts := seq(|items|, _ => None);
      this.gp, gas := gp, 0;
    }

    /** Applies a prepared transaction to one of the state databases; a failure is rolled back. */
    method ApplyPrepared(p: P, target: StateDB<S>) returns (ok: bool)
      modifies target
      ensures ok <==> block.env.settle(p, old(target.st)).Some?
      ensures target.st == if ok then block.env.settle(p, old(target.st)).value else old(target.st)
    {
      var next := block.env.settle(p, target.st);
      ok := next.Some?;
      if ok {
        target.st := next.value;
      }
    }

    /** Prepares, verifies, applies and records one transaction. */
    method ExecuteSingle(i: nat, tx: T)
      requires Valid() && i < |block.items|
      modifies this`receipts, db
      ensures Valid() && State() == Single(block.env, old(State()), i, tx)
    {
      var p := block.env.prepare(db.st, tx);
      var ok := p.Some? && block.env.verify(p.value);
      if ok {
        ok := ApplyPrepared(p.value, db);
      }
      receipts := receipts[i := Some(Receipt(block.env.txId(tx), i, ok, 0, gas))];
    }

    /** The accepted batch: re-prepare on the real state and apply without verifying again. Returns
        where to fall back from. */
    method ApplyBatch() returns (from: nat)
      requires Valid()
      modifies this`receipts, db
      ensures Valid() && from <= |pending| && (State(), from) == Unchecked(block.env, old(State()), 0)
    {
      from := 0;
      while from < |pending|
        invariant Valid() && from <= |pending|
        invariant Unchecked(block.env, State(), from) == Unchecked(block.env, old(State()), 0)
      {
        var c := pending[from];
        var p := block.env.prepare(db.st, c.tx);
        if p.None? {
          break;
        }
        var ok := ApplyPrepared(p.value, db);
        if !ok {
          break;
        }
        receipts := receipts[c.index := Some(Receipt(block.env.txId(c.tx), c.index, true, 0, gas))];
        from := from + 1;
      }
    }

    /** The fallback: execute the remaining candidates one at a time. */
    method ApplyRest(from: nat)
      requires Valid() && from <= |pending|
      modifies this`receipts, db
      ensures Valid() && State() == Singly(block.env, old(State()), from)
    {
      for k := from to |pending|
        invariant Valid() && Singly(block.env, State(), k) == Singly(block.env, old(State()), from)
      {
        ExecuteSingle(pending[k].index, pending[k].tx);
      }
    }

    /** Settles all candidates. The speculative copy is dropped only with a non-empty batch. */
    method Flush()
      requires Valid()
      modifies this`receipts, this`pending, this`pendingState, db
      ensures Valid() && State() == Flushed(block.env, old(State()))
      ensures pendingState == if old(pending) == [] then old(pendingState) else null
    {
      if |pending| == 0 {
        return;
      }
      var from := 0;
      if BatchAccepts(block.env, pending) {
        from := ApplyBatch();
      }
      ApplyRest(from);
      pending := [];
      pendingState := null;
    }

    /** Tries an item on the speculative copy, making the copy if there is none. */
    method Speculate(i: nat, tx: T) returns (ok: bool)
      requires Valid() && i < |block.items|
      modifies this`pending, this`pendingState, pendingState
      ensures Valid()
      ensures pendingState == old(pendingState) || (old(pendingState) == null && fresh(pendingState))
      ensures var e := old(State());
              var base := if e.copy.Some? then e.copy.value else e.st;
              var t := Tried(block.env, base, tx);
              && (ok <==> t.Some?)
              && State() == if ok then e.(copy := Some(t.value.1), cands := e.cands + [Candidate(i, tx, t.value.0)])
                            else e.(copy := Some(base))
    {
      if pendingState == null {
        pendingState := db.Copy();
      }
      var spec := pendingState;
      var prepared := block.env.prepare(spec.st, tx);
      if prepared.None? {
        return false;
      }
      ok := ApplyPrepared(prepared.value, spec);
      if ok {
        pending := pending + [Candidate(i, tx, prepared.value)];
      }
    }

    /** One privacy item: speculate if possible, otherwise flush and execute it alone. */
    method StepPrivacy(i: nat, tx: T)
      requires Valid() && i < |block.items| && block.items[i] == Priv(tx)
      modifies this`receipts, this`pending, this`pendingState, db, pendingState
      ensures Valid() && Some(State()) == StepOf(block, old(State()), i)
      ensures pendingState == null || pendingState == old(pendingState) || fresh(pendingState)
    {
      var ok := Speculate(i, tx);
      if !ok {
        Flush();
        ExecuteSingle(i, tx);
      }
    }

    /** One public item, after settling all candidates. A copy left over from a failed preparation is not refreshed. */
    method StepPublic(i: nat) returns (ok: bool)
      requires Valid() && i < |block.items| && block.items[i].Pub?
      modifies this`receipts, this`pending, this`pendingState, this`gp, this`gas, db
      ensures Valid() && (pendingState == null || pendingState == old(pendingState))
      ensures ok <==> StepOf(block, old(State()), i).Some?
      ensures ok ==> State() == StepOf(block, old(State()), i).value
    {
      Flush();
      var item := block.items[i];
      var r := block.env.public(db.st, item.id);
      if r.Rejected? {
        return false;
      }
      db.st := r.st;
      if item.gasLimit > gp || r.gasUsed > gp {
        return false;
      }
      gp := gp - r.gasUsed;
      gas := gas + r.gasUsed;
      receipts := receipts[i := Some(Receipt(item.id, i, !r.failed, r.gasUsed, gas))];
      return true;
    }

    /** One item of either kind. */
    method Step(i: nat) returns (ok: bool)
      requires Valid() && i < |block.items|
      modifies this`receipts, this`pending, this`pendingState, this`gp, this`gas, db, pendingState
      ensures Valid() && (pendingState == null || pendingState == old(pendingState) || fresh(pendingState))
      ensures ok <==> StepOf(block, old(State()), i).Some?
      ensures ok ==> State() == StepOf(block, old(State()), i).value
    {
      match block.items[i]
      case Priv(tx) =>
        StepPrivacy(i, tx);
        ok := true;
      case Pub(_, _) =>
        ok := StepPublic(i);
    }

    /** The whole block. If it is faithful then batching is invisible: same verdict, same final state, same receipts and
        gas as one-at-a-time execution, whichever proofs fail and wherever flushes fall. If it is not, and is not
        aborted, `wrong` was recorded as successful though it fails alone. It is aborted exactly at a public item that
        is rejected or does not fit into the gas pool. */
    method ExecuteTransactions() returns (ok: bool, ghost wrong: nat)
      requires Valid() && pendingState == null && Some(State()) == Batched(block, 0)
      modifies this, db
      ensures ok <==> Final(block).Some?
      ensures ok ==> State() == Final(block).value
      ensures !ok <==> exists i: nat :: i < |block.items| && FailsAt(block, i)
      ensures ok ==> AllMetered(block, receipts, |block.items|)
      ensures ok ==> gas == GasUpTo(receipts, |block.items|) && gas + gp == block.gp
      ensures Faithful(block) ==>
                if ok then DoneUpTo(block, |block.items|, db.st, gp, gas, receipts)
                    else Reference(block, |block.items|).None?
      ensures ok && !Faithful(block) ==>
                Diverged(block, wrong, receipts) && !DoneUpTo(block, |block.items|, db.st, gp, gas, receipts)
    {
      wrong := 0;
      ok := ExecuteAll();
      AbortsExactly(block);
      if ok { BlockMetered(block); }
      if Faithful(block) {
        FaithfulMeets(block);
      } else if ok {
        wrong := UnfaithfulDiffers(block);
      }
    }

    method ExecuteAll() returns (ok: bool)
      requires Valid() && pendingState == null && Some(State()) == Batched(block, 0)
      modifies this, db
      ensures ok <==> Final(block).Some?
      ensures ok ==> State() == Final(block).value
    {
      ghost var e := State();
      for i := 0 to |block.items|
        invariant Valid() && (pendingState == null || fresh(pendingState))
        invariant State() == e && Batched(block, i) == Some(e)
      {
        BatchedNext(block, i);
        ok := Step(i);
        e := State();
        if !ok {
          BatchedStops(block, i + 1, |block.items|);
          return;
        }
      }
      Flush();
      return true;
    }
  }
}
