/** Gas and receipts of every block that completes, faithful or not. */
module BatchGas {
  import opened Util
  import opened BatchSpec
  import opened BatchRuns

  /** The gas recorded in the first `n` receipts. */
  function GasUpTo(receipts: seq<Option<Receipt>>, n: nat): nat
    requires n <= |receipts|
  {
    if n == 0 then 0
    else GasUpTo(receipts, n - 1) + if receipts[n - 1].Some? then receipts[n - 1].value.gasUsed else 0
  }

  /** Item `j` has its own receipt. Privacy transactions use no gas; the gas limit and the gas used of a public one fit
      into what the ones before have left of the gas pool. */
  ghost predicate MeteredAt<S, T, P>(b: Block<S, T, P>, receipts: seq<Option<Receipt>>, j: nat)
    requires j < |b.items| == |receipts|
  {
    && receipts[j].Some? && receipts[j].value.index == j
    && receipts[j].value.cumulativeGasUsed == GasUpTo(receipts, j + 1)
    && match b.items[j]
       case Priv(tx) => receipts[j].value.id == b.env.txId(tx) && receipts[j].value.gasUsed == 0
       case Pub(id, gasLimit) =>
         receipts[j].value.id == id && Max(gasLimit, receipts[j].value.gasUsed) <= b.gp - GasUpTo(receipts, j)
  }

  ghost predicate AllMetered<S, T, P>(b: Block<S, T, P>, receipts: seq<Option<Receipt>>, m: nat) {
    m <= |b.items| == |receipts| && forall j: nat | j < m :: MeteredAt(b, receipts, j)
  }

  /** The first `m` items are recorded, and gas used and gas left make up the pool. */
  ghost predicate Metered<S, T, P>(b: Block<S, T, P>, m: nat, e: Exec<S, T, P>) {
    AllMetered(b, e.receipts, m) && e.gas == GasUpTo(e.receipts, m) && e.gas + e.gp == b.gp
  }

  lemma {:induction false} GasUpToKeeps(receipts: seq<Option<Receipt>>, m: nat, r: Receipt, n: nat)
    requires n <= m < |receipts|
    ensures GasUpTo(receipts[m := Some(r)], n) == GasUpTo(receipts, n)
  {
    if n > 0 {
      GasUpToKeeps(receipts, m, r, n - 1);
    }
  }

  lemma MeteredPut<S, T, P>(b: Block<S, T, P>, receipts: seq<Option<Receipt>>, m: nat, r: Receipt)
    requires AllMetered(b, receipts, m) && m < |b.items|
    requires r.index == m && r.cumulativeGasUsed == GasUpTo(receipts, m) + r.gasUsed
    requires match b.items[m]
             case Priv(tx) => r.id == b.env.txId(tx) && r.gasUsed == 0
             case Pub(id, gasLimit) => r.id == id && Max(gasLimit, r.gasUsed) <= b.gp - GasUpTo(receipts, m)
    ensures AllMetered(b, receipts[m := Some(r)], m + 1)
            && GasUpTo(receipts[m := Some(r)], m + 1) == r.cumulativeGasUsed
  {
    var more := receipts[m := Some(r)];
    GasUpToKeeps(receipts, m, r, m);
    forall j: nat | j < m + 1 ensures MeteredAt(b, more, j) {
      if j < m {
        assert MeteredAt(b, receipts, j);
        GasUpToKeeps(receipts, m, r, j);
        GasUpToKeeps(receipts, m, r, j + 1);
      }
    }
  }

  lemma MeteredNoted<S, T, P>(b: Block<S, T, P>, m: nat, e: Exec<S, T, P>, st: S, ok: bool)
    requires Metered(b, m, e) && m < |b.items| && b.items[m].Priv?
    ensures Metered(b, m + 1, Noted(b.env, e, m, b.items[m].tx, st, ok))
  {
    MeteredPut(b, e.receipts, m, Receipt(b.env.txId(b.items[m].tx), m, ok, 0, e.gas));
  }

  lemma MeteredPublished<S, T, P>(b: Block<S, T, P>, m: nat, f: Exec<S, T, P>)
    requires Metered(b, m, f) && m < |b.items| && b.items[m].Pub?
    ensures var r := Published(b.env, f, m, b.items[m].id, b.items[m].gasLimit);
            r.Some? ==> Metered(b, m + 1, r.value)
  {
    var id, gasLimit := b.items[m].id, b.items[m].gasLimit;
    var r := b.env.public(f.st, id);
    if Published(b.env, f, m, id, gasLimit).Some? {
      MeteredPut(b, f.receipts, m, Receipt(id, m, !r.failed, r.gasUsed, f.gas + r.gasUsed));
    }
  }

  lemma {:induction false} MeteredSingly<S, T, P>(b: Block<S, T, P>, m: nat, e: Exec<S, T, P>, k: nat)
    requires k <= |e.cands| && Metered(b, m + k, e) && Queued(b.items, m, e.cands)
    ensures Metered(b, m + |e.cands|, Singly(b.env, e, k))
    decreases |e.cands| - k
  {
    if k < |e.cands| {
      assert b.items[m + k] == Priv(e.cands[k].tx);
      var r := Alone(b.env, e.st, e.cands[k].tx);
      MeteredNoted(b, m + k, e, if r.Some? then r.value else e.st, r.Some?);
      MeteredSingly(b, m, Single(b.env, e, m + k, e.cands[k].tx), k + 1);
    }
  }

  lemma {:induction false} MeteredUnchecked<S, T, P>(b: Block<S, T, P>, m: nat, e: Exec<S, T, P>, k: nat)
    requires k <= |e.cands| && Metered(b, m + k, e) && Queued(b.items, m, e.cands)
    ensures var u := Unchecked(b.env, e, k); Metered(b, m + u.1, u.0)
    decreases |e.cands| - k
  {
    if k < |e.cands| && Tried(b.env, e.st, e.cands[k].tx).Some? {
      var tx := e.cands[k].tx;
      var next := Tried(b.env, e.st, tx).value.1;
      assert b.items[m + k] == Priv(tx);
      MeteredNoted(b, m + k, e, next, true);
      MeteredUnchecked(b, m, Noted(b.env, e, m + k, tx, next, true), k + 1);
    }
  }

  /** Items before the candidates are recorded. */
  ghost predicate MeteredUpTo<S, T, P>(b: Block<S, T, P>, i: nat, e: Exec<S, T, P>) {
    |e.cands| <= i && Queued(b.items, i - |e.cands|, e.cands) && Metered(b, i - |e.cands|, e)
  }

  lemma MeteredFlushed<S, T, P>(b: Block<S, T, P>, i: nat, e: Exec<S, T, P>)
    requires MeteredUpTo(b, i, e)
    ensures Metered(b, i, Flushed(b.env, e))
  {
    var m := i - |e.cands|;
    if BatchAccepts(b.env, e.cands) {
      MeteredUnchecked(b, m, e, 0);
      var u := Unchecked(b.env, e, 0);
      MeteredSingly(b, m, u.0, u.1);
    } else {
      MeteredSingly(b, m, e, 0);
    }
  }

  lemma MeteredCandidate<S, T, P>(b: Block<S, T, P>, e: Exec<S, T, P>, i: nat, copy: Option<S>, p: P)
    requires i < |b.items| && MeteredUpTo(b, i, e) && b.items[i].Priv?
    ensures MeteredUpTo(b, i + 1, e.(copy := copy, cands := e.cands + [Candidate(i, b.items[i].tx, p)]))
  {
    var c := Candidate(i, b.items[i].tx, p);
    QueuedMore(b.items, i - |e.cands|, e.cands, c);
    assert i + 1 - |e.cands + [c]| == i - |e.cands|;
  }

  lemma MeteredPrivate<S, T, P>(b: Block<S, T, P>, e: Exec<S, T, P>, i: nat)
    requires i < |b.items| && MeteredUpTo(b, i, e) && b.items[i].Priv?
    ensures StepOf(b, e, i).Some? && MeteredUpTo(b, i + 1, StepOf(b, e, i).value)
  {
    var before, tx := Before(b, e, i), b.items[i].tx;
    var t := Tried(b.env, before.copy.value, tx);
    if t.Some? {
      MeteredCandidate(b, e, i, Some(t.value.1), t.value.0);
    } else {
      var f := Flushed(b.env, before);
      assert MeteredUpTo(b, i, before);
      MeteredFlushed(b, i, before);
      var r := Alone(b.env, f.st, tx);
      MeteredNoted(b, i, f, if r.Some? then r.value else f.st, r.Some?);
    }
  }

  lemma MeteredPublic<S, T, P>(b: Block<S, T, P>, e: Exec<S, T, P>, i: nat)
    requires i < |b.items| && MeteredUpTo(b, i, e) && b.items[i].Pub?
    ensures StepOf(b, e, i).Some? ==> MeteredUpTo(b, i + 1, StepOf(b, e, i).value)
  {
    MeteredFlushed(b, i, e);
    MeteredPublished(b, i, Flushed(b.env, e));
  }

  lemma {:induction false} MeteredBatched<S, T, P>(b: Block<S, T, P>, n: nat)
    requires n <= |b.items| && Batched(b, n).Some?
    ensures MeteredUpTo(b, n, Batched(b, n).value)
  {
    if n > 0 {
      MeteredBatched(b, n - 1);
      var e := Batched(b, n - 1).value;
      BatchedNext(b, n - 1);
      if b.items[n - 1].Priv? {
        MeteredPrivate(b, e, n - 1);
      } else {
        MeteredPublic(b, e, n - 1);
      }
    }
  }

  /** A block that completes has a receipt for every item, in order; cumulative gas adds up, gas used and gas left make
      up the pool, and every public item fitted into what was left. */
  lemma BlockMetered<S, T, P>(b: Block<S, T, P>)
    requires Final(b).Some?
    ensures Metered(b, |b.items|, Final(b).value)
  {
    MeteredBatched(b, |b.items|);
    MeteredFlushed(b, |b.items|, Batched(b, |b.items|).value);
  }
}
