/** What batched execution does to any block, faithful or not, and how that compares with one-at-a-time execution. */
module BatchRuns {
  import opened Util
  import opened BatchSpec

  /** The executor between two items: the real state, the speculative copy with its candidates, and the books. */
  datatype Exec<S, T, P> = Exec(st: S, copy: Option<S>, cands: seq<Candidate<T, P>>, gp: int, gas: nat,
                                receipts: seq<Option<Receipt>>)

  function Put(receipts: seq<Option<Receipt>>, i: nat, r: Receipt): seq<Option<Receipt>> {
    if i < |receipts| then receipts[i := Some(r)] else receipts
  }

  /** A privacy item is recorded, leaving state `st`. */
  function Noted<S, T, P>(env: Env<S, T, P>, e: Exec<S, T, P>, i: nat, tx: T, st: S, ok: bool): Exec<S, T, P> {
    e.(st := st, receipts := Put(e.receipts, i, Receipt(env.txId(tx), i, ok, 0, e.gas)))
  }

  /** A privacy item is executed alone and recorded. */
  function Single<S, T, P>(env: Env<S, T, P>, e: Exec<S, T, P>, i: nat, tx: T): Exec<S, T, P> {
    var r := Alone(env, e.st, tx);
    Noted(env, e, i, tx, if r.Some? then r.value else e.st, r.Some?)
  }

  /** The candidates from `k` on are applied without a proof check, up to the first that cannot be. */
  function Unchecked<S, T, P>(env: Env<S, T, P>, e: Exec<S, T, P>, k: nat): (r: (Exec<S, T, P>, nat))
    requires k <= |e.cands|
    ensures k <= r.1 <= |e.cands| && r.0 == e.(st := r.0.st, receipts := r.0.receipts) && |r.0.receipts| == |e.receipts|
    decreases |e.cands| - k
  {
    if k == |e.cands| then (e, k)
    else
      var c := e.cands[k];
      var t := Tried(env, e.st, c.tx);
      if t.None? then (e, k) else Unchecked(env, Noted(env, e, c.index, c.tx, t.value.1, true), k + 1)
  }

  /** The candidates from `k` on are executed one at a time. */
  function Singly<S, T, P>(env: Env<S, T, P>, e: Exec<S, T, P>, k: nat): (r: Exec<S, T, P>)
    requires k <= |e.cands|
    ensures r == e.(st := r.st, receipts := r.receipts) && |r.receipts| == |e.receipts|
    decreases |e.cands| - k
  {
    if k == |e.cands| then e else Singly(env, Single(env, e, e.cands[k].index, e.cands[k].tx), k + 1)
  }

  /** The candidates are settled: as an accepted batch, or else one at a time. */
  function Settle<S, T, P>(env: Env<S, T, P>, e: Exec<S, T, P>): (r: Exec<S, T, P>)
    ensures r == e.(st := r.st, receipts := r.receipts) && |r.receipts| == |e.receipts|
  {
    var u := if BatchAccepts(env, e.cands) then Unchecked(env, e, 0) else (e, 0);
    Singly(env, u.0, u.1)
  }

  /** A flush; without candidates the copy stays. */
  function Flushed<S, T, P>(env: Env<S, T, P>, e: Exec<S, T, P>): (r: Exec<S, T, P>)
    ensures r.cands == [] && r.gp == e.gp && r.gas == e.gas && |r.receipts| == |e.receipts|
  {
    if |e.cands| == 0 then e else Settle(env, e).(copy := None, cands := [])
  }

  /** One candidate whose proof verifies on the copy is applied without a check. */
  lemma FlushOne<S, T, P>(env: Env<S, T, P>, e: Exec<S, T, P>)
    requires |e.cands| == 1 && env.verify(e.cands[0].prepared) && Tried(env, e.st, e.cands[0].tx).Some?
    ensures var c := e.cands[0];
            var noted := Noted(env, e, c.index, c.tx, Tried(env, e.st, c.tx).value.1, true);
            Flushed(env, e) == noted.(copy := None, cands := [])
  {
    var c := e.cands[0];
    var noted := Noted(env, e, c.index, c.tx, Tried(env, e.st, c.tx).value.1, true);
    assert Unchecked(env, e, 0) == Unchecked(env, noted, 1) == (noted, 1);
  }

  /** A public item is rejected, or does not fit into the gas pool. */
  predicate Unfit<S>(r: Outcome<S>, gasLimit: nat, gp: int) {
    r.Rejected? || gasLimit > gp || r.gasUsed > gp
  }

  /** A public item is executed and recorded; `None` aborts the block. */
  function Published<S, T, P>(env: Env<S, T, P>, f: Exec<S, T, P>, i: nat, id: nat,
                              gasLimit: nat): (r: Option<Exec<S, T, P>>)
    ensures r.Some? ==> |r.value.receipts| == |f.receipts|
  {
    var r := env.public(f.st, id);
    if Unfit(r, gasLimit, f.gp) then None
    else
      var gas := f.gas + r.gasUsed;
      Some(f.(st := r.st, gp := f.gp - r.gasUsed, gas := gas,
              receipts := Put(f.receipts, i, Receipt(id, i, !r.failed, r.gasUsed, gas))))
  }

  /** Item `i` of the block; a rejected public item aborts it. */
  function StepOf<S, T, P>(b: Block<S, T, P>, e: Exec<S, T, P>, i: nat): (r: Option<Exec<S, T, P>>)
    requires i < |b.items|
    ensures r.Some? ==> |r.value.receipts| == |e.receipts|
  {
    match b.items[i]
    case Priv(tx) =>
      var base := if e.copy.Some? then e.copy.value else e.st;
      var t := Tried(b.env, base, tx);
      if t.Some? then Some(e.(copy := Some(t.value.1), cands := e.cands + [Candidate(i, tx, t.value.0)]))
      else Some(Single(b.env, Flushed(b.env, e.(copy := Some(base))), i, tx))
    case Pub(id, gasLimit) => Published(b.env, Flushed(b.env, e), i, id, gasLimit)
  }

  /** Batched execution of the first `n` items. */
  function Batched<S, T, P>(b: Block<S, T, P>, n: nat): (r: Option<Exec<S, T, P>>)
    requires n <= |b.items|
    ensures r.Some? ==> |r.value.receipts| == |b.items|
  {
    if n == 0 then Some(Exec(b.start, None, [], b.gp, 0, seq(|b.items|, _ => None)))
    else
      var e := Batched(b, n - 1);
      if e.None? then None else StepOf(b, e.value, n - 1)
  }

  /** Batched execution of the whole block. */
  function Final<S, T, P>(b: Block<S, T, P>): (r: Option<Exec<S, T, P>>)
    ensures r.Some? ==> r.value.cands == [] && |r.value.receipts| == |b.items|
  {
    var e := Batched(b, |b.items|);
    if e.None? then None else Some(Flushed(b.env, e.value))
  }

  lemma {:induction false} BatchedStops<S, T, P>(b: Block<S, T, P>, n: nat, m: nat)
    requires n <= m <= |b.items| && Batched(b, n).None?
    ensures Batched(b, m).None?
    decreases m - n
  {
    if n < m {
      BatchedStops(b, n + 1, m);
    }
  }

  lemma BatchedNext<S, T, P>(b: Block<S, T, P>, n: nat)
    requires n < |b.items| && Batched(b, n).Some?
    ensures Batched(b, n + 1) == StepOf(b, Batched(b, n).value, n)
  {
  }

  // When a block is aborted.

  /** Public item `i` is reached and rejected, or does not fit. */
  predicate FailsAt<S, T, P>(b: Block<S, T, P>, i: nat) {
    && i < |b.items| && b.items[i].Pub? && Batched(b, i).Some?
    && var f := Flushed(b.env, Batched(b, i).value);
       var r := b.env.public(f.st, b.items[i].id);
       r.Rejected? || Max(b.items[i].gasLimit, r.gasUsed) > f.gp
  }

  lemma {:induction false} AbortsAt<S, T, P>(b: Block<S, T, P>, n: nat)
    requires n <= |b.items|
    ensures Batched(b, n).None? <==> exists i: nat :: i < n && FailsAt(b, i)
  {
    if n > 0 {
      AbortsAt(b, n - 1);
      if Batched(b, n).None? {
        if Batched(b, n - 1).Some? {
          assert FailsAt(b, n - 1);
        }
      } else {
        assert !FailsAt(b, n - 1);
      }
    }
  }

  /** A block is aborted exactly at a public item that is rejected or does not fit, whether it is faithful or not. */
  lemma AbortsExactly<S, T, P>(b: Block<S, T, P>)
    ensures Final(b).None? <==> exists i: nat :: i < |b.items| && FailsAt(b, i)
  {
    AbortsAt(b, |b.items|);
  }

  // In step with one-at-a-time execution.

  ghost predicate Done<S, T, P>(b: Block<S, T, P>, m: nat, e: Exec<S, T, P>) {
    DoneUpTo(b, m, e.st, e.gp, e.gas, e.receipts)
  }

  /** The first `i` items are processed: those before the candidates are done, and the candidates are the rest. */
  ghost predicate InStep<S, T, P>(b: Block<S, T, P>, i: nat, e: Exec<S, T, P>) {
    && |e.cands| <= i <= |b.items| && Reference(b, i).Some?
    && Done(b, i - |e.cands|, e) && Queued(b.items, i - |e.cands|, e.cands)
  }

  lemma SingleDone<S, T, P>(b: Block<S, T, P>, m: nat, e: Exec<S, T, P>)
    requires Done(b, m, e) && m < |b.items| && b.items[m].Priv?
    ensures Done(b, m + 1, Single(b.env, e, m, b.items[m].tx))
  {
    var r := Alone(b.env, e.st, b.items[m].tx);
    DoneOne(b, m, e.st, e.gp, e.gas, e.receipts, if r.Some? then r.value else e.st, r.Some?);
  }

  lemma {:induction false} SinglyDone<S, T, P>(b: Block<S, T, P>, m: nat, e: Exec<S, T, P>, k: nat)
    requires k <= |e.cands| && Done(b, m + k, e) && Queued(b.items, m, e.cands)
    ensures Done(b, m + |e.cands|, Singly(b.env, e, k))
    decreases |e.cands| - k
  {
    if k < |e.cands| {
      assert b.items[m + k] == Priv(e.cands[k].tx);
      SingleDone(b, m + k, e);
      SinglyDone(b, m, Single(b.env, e, m + k, e.cands[k].tx), k + 1);
    }
  }

  /** One candidate of a sound batch. */
  lemma NotedDone<S, T, P>(b: Block<S, T, P>, m: nat, e: Exec<S, T, P>, k: nat)
    requires k < |e.cands| && Done(b, m + k, e) && Queued(b.items, m, e.cands)
    requires Sound(b, m, m + |e.cands|) && AllApply(b, m, m + k) && Tried(b.env, e.st, e.cands[k].tx).Some?
    ensures AllApply(b, m, m + k + 1)
    ensures Done(b, m + k + 1, Noted(b.env, e, m + k, e.cands[k].tx, Tried(b.env, e.st, e.cands[k].tx).value.1, true))
  {
    assert AppliesAt(b, m + k);
    assert AllApply(b, m, m + k + 1);
    assert ProvenAt(b, m + k);
    AppliedProven(b, m + k, e.st, e.gp, e.gas, e.receipts);
  }

  /** A sound batch stays in step. */
  lemma {:induction false} UncheckedDone<S, T, P>(b: Block<S, T, P>, m: nat, e: Exec<S, T, P>, k: nat)
    requires k <= |e.cands| && Done(b, m + k, e) && Queued(b.items, m, e.cands)
    requires Sound(b, m, m + |e.cands|) && AllApply(b, m, m + k)
    ensures var u := Unchecked(b.env, e, k); Done(b, m + u.1, u.0)
    decreases |e.cands| - k
  {
    if k < |e.cands| && Tried(b.env, e.st, e.cands[k].tx).Some? {
      NotedDone(b, m, e, k);
      UncheckedDone(b, m, Noted(b.env, e, m + k, e.cands[k].tx, Tried(b.env, e.st, e.cands[k].tx).value.1, true),
                    k + 1);
    }
  }

  lemma FlushInStep<S, T, P>(b: Block<S, T, P>, i: nat, e: Exec<S, T, P>)
    requires InStep(b, i, e) && FlushSound(b, i, e.cands)
    ensures InStep(b, i, Flushed(b.env, e))
  {
    if |e.cands| > 0 {
      var m := i - |e.cands|;
      if BatchAccepts(b.env, e.cands) {
        UncheckedDone(b, m, e, 0);
        var u := Unchecked(b.env, e, 0);
        SinglyDone(b, m, u.0, u.1);
      } else {
        SinglyDone(b, m, e, 0);
      }
    }
  }

  // Out of step.

  /** Item `j` is recorded as successful though it fails alone, and no candidate will change that. */
  ghost predicate Strayed<S, T, P>(b: Block<S, T, P>, j: nat, e: Exec<S, T, P>) {
    Diverged(b, j, e.receipts) && forall k | 0 <= k < |e.cands| :: e.cands[k].index > j
  }

  lemma {:induction false} UncheckedKeeps<S, T, P>(env: Env<S, T, P>, e: Exec<S, T, P>, k: nat, j: nat)
    requires k <= |e.cands| && j < |e.receipts| && forall l | k <= l < |e.cands| :: e.cands[l].index > j
    ensures Unchecked(env, e, k).0.receipts[j] == e.receipts[j]
    decreases |e.cands| - k
  {
    if k < |e.cands| && Tried(env, e.st, e.cands[k].tx).Some? {
      UncheckedKeeps(env, Noted(env, e, e.cands[k].index, e.cands[k].tx, Tried(env, e.st, e.cands[k].tx).value.1, true),
                     k + 1, j);
    }
  }

  lemma {:induction false} SinglyKeeps<S, T, P>(env: Env<S, T, P>, e: Exec<S, T, P>, k: nat, j: nat)
    requires k <= |e.cands| && j < |e.receipts| && forall l | k <= l < |e.cands| :: e.cands[l].index > j
    ensures Singly(env, e, k).receipts[j] == e.receipts[j]
    decreases |e.cands| - k
  {
    if k < |e.cands| {
      SinglyKeeps(env, Single(env, e, e.cands[k].index, e.cands[k].tx), k + 1, j);
    }
  }

  lemma FlushKeeps<S, T, P>(env: Env<S, T, P>, e: Exec<S, T, P>, j: nat)
    requires j < |e.receipts| && forall l | 0 <= l < |e.cands| :: e.cands[l].index > j
    ensures Flushed(env, e).receipts[j] == e.receipts[j]
  {
    UncheckedKeeps(env, e, 0, j);
    var u := if BatchAccepts(env, e.cands) then Unchecked(env, e, 0) else (e, 0);
    SinglyKeeps(env, u.0, u.1, j);
  }

  /** One candidate applied without a check: in step if it is proven, and wrong if not. */
  lemma NotedEither<S, T, P>(b: Block<S, T, P>, m: nat, e: Exec<S, T, P>, k: nat)
    requires k < |e.cands| && Done(b, m + k, e) && Queued(b.items, m, e.cands)
             && Tried(b.env, e.st, e.cands[k].tx).Some?
    ensures var t := Tried(b.env, e.st, e.cands[k].tx).value;
            var next := Noted(b.env, e, m + k, e.cands[k].tx, t.1, true);
            if b.env.verify(t.0) then AppliesAt(b, m + k) && ProvenAt(b, m + k) && Done(b, m + k + 1, next)
            else Diverged(b, m + k, next.receipts)
  {
    assert b.items[m + k] == Priv(e.cands[k].tx);
    if b.env.verify(Tried(b.env, e.st, e.cands[k].tx).value.0) {
      AppliedProven(b, m + k, e.st, e.gp, e.gas, e.receipts);
    } else {
      AppliedUnproven(b, m + k, e.st, e.gp, e.gas, e.receipts);
    }
  }

  lemma CannotApply<S, T, P>(b: Block<S, T, P>, m: nat, e: Exec<S, T, P>, k: nat)
    requires k < |e.cands| && Done(b, m + k, e) && Queued(b.items, m, e.cands)
             && Tried(b.env, e.st, e.cands[k].tx).None?
    ensures !AppliesAt(b, m + k)
  {
  }

  /** As long as everything is proven, a batch that is not sound has a next candidate to apply. */
  lemma SoundOrNext<S, T, P>(b: Block<S, T, P>, m: nat, e: Exec<S, T, P>, k: nat)
    requires k <= |e.cands| && Done(b, m + k, e) && Queued(b.items, m, e.cands) && AllProven(b, m, m + k)
    ensures Sound(b, m, m + |e.cands|) || (k < |e.cands| && Tried(b.env, e.st, e.cands[k].tx).Some?)
  {
    if k == |e.cands| {
      ProvenSound(b, m, m + k, m + |e.cands|);
    } else if Tried(b.env, e.st, e.cands[k].tx).None? {
      CannotApply(b, m, e, k);
      ProvenSound(b, m, m + k, m + |e.cands|);
    }
  }

  /** An accepted batch that is not sound goes wrong somewhere. */
  lemma {:induction false} UncheckedStrays<S, T, P>(b: Block<S, T, P>, m: nat, e: Exec<S, T, P>, k: nat)
    returns (j: nat)
    requires k <= |e.cands| && Done(b, m + k, e) && Queued(b.items, m, e.cands)
    requires !Sound(b, m, m + |e.cands|) && AllProven(b, m, m + k)
    ensures var u := Unchecked(b.env, e, k);
            j < m + u.1 && Diverged(b, j, u.0.receipts)
    decreases |e.cands| - k
  {
    SoundOrNext(b, m, e, k);
    NotedEither(b, m, e, k);
    var t := Tried(b.env, e.st, e.cands[k].tx).value;
    var next := Noted(b.env, e, m + k, e.cands[k].tx, t.1, true);
    if b.env.verify(t.0) {
      j := UncheckedStrays(b, m, next, k + 1);
    } else {
      j := m + k;
      UncheckedKeeps(b.env, next, k + 1, j);
    }
  }

  lemma FlushStrays<S, T, P>(b: Block<S, T, P>, i: nat, e: Exec<S, T, P>) returns (j: nat)
    requires InStep(b, i, e) && !FlushSound(b, i, e.cands)
    ensures j < i && Strayed(b, j, Flushed(b.env, e))
  {
    var m := i - |e.cands|;
    j := UncheckedStrays(b, m, e, 0);
    var u := Unchecked(b.env, e, 0);
    SinglyKeeps(b.env, u.0, u.1, j);
  }

  // Over the whole block.

  /** Copy and candidates are those that the reference states lead to. */
  ghost predicate Tracks<S, T, P>(b: Block<S, T, P>, i: nat, e: Exec<S, T, P>) {
    InStep(b, i, e) && ShadowAt(b, i) == Shadow(e.copy, e.cands)
  }

  /** The flush that item `i` forces, if any, starts from here. */
  function Before<S, T, P>(b: Block<S, T, P>, e: Exec<S, T, P>, i: nat): Exec<S, T, P>
    requires i < |b.items|
  {
    if b.items[i].Pub? || e.copy.Some? then e else e.(copy := Some(e.st))
  }

  lemma QueuedMore<T, P>(items: seq<Item<T>>, m: nat, cands: seq<Candidate<T, P>>, c: Candidate<T, P>)
    requires Queued(items, m, cands) && m + |cands| < |items|
    requires items[m + |cands|] == Priv(c.tx) && c.index == m + |cands|
    ensures Queued(items, m, cands + [c])
  {
  }

  lemma InStepMore<S, T, P>(b: Block<S, T, P>, i: nat, e: Exec<S, T, P>, copy: Option<S>, c: Candidate<T, P>)
    requires i < |b.items| && InStep(b, i, e) && b.items[i] == Priv(c.tx) && c.index == i
    ensures Reference(b, i + 1).Some? && InStep(b, i + 1, e.(copy := copy, cands := e.cands + [c]))
  {
    RefPriv(b, i);
    QueuedMore(b.items, i - |e.cands|, e.cands, c);
    assert i + 1 - |e.cands + [c]| == i - |e.cands|;
  }

  lemma CandidateTracks<S, T, P>(b: Block<S, T, P>, e: Exec<S, T, P>, i: nat)
    requires i < |b.items| && Tracks(b, i, e) && !Flushes(b, i)
    ensures Reference(b, i + 1).Some? && StepOf(b, e, i).Some? && Tracks(b, i + 1, StepOf(b, e, i).value)
  {
    var tx := b.items[i].tx;
    assert Before(b, e, i).copy == Some(Base(b, ShadowAt(b, i), i));
    var t := Tried(b.env, Before(b, e, i).copy.value, tx).value;
    InStepMore(b, i, e, Some(t.1), Candidate(i, tx, t.0));
  }

  lemma FlushedShadow<S, T, P>(env: Env<S, T, P>, e: Exec<S, T, P>)
    ensures Shadow(Flushed(env, e).copy, Flushed(env, e).cands) == Dropped(Shadow(e.copy, e.cands))
  {
  }

  lemma SingleInStep<S, T, P>(b: Block<S, T, P>, f: Exec<S, T, P>, i: nat)
    requires i < |b.items| && InStep(b, i, f) && f.cands == [] && b.items[i].Priv?
    ensures InStep(b, i + 1, Single(b.env, f, i, b.items[i].tx))
  {
    SingleDone(b, i, f);
  }

  lemma PublishedInStep<S, T, P>(b: Block<S, T, P>, f: Exec<S, T, P>, i: nat)
    requires i < |b.items| && InStep(b, i, f) && f.cands == [] && b.items[i].Pub?
    ensures var r := Published(b.env, f, i, b.items[i].id, b.items[i].gasLimit);
            && (r.None? <==> Reference(b, i + 1).None?)
            && (r.Some? ==> InStep(b, i + 1, r.value) && r.value.copy == f.copy && r.value.cands == [])
  {
    DonePublic(b, i, f.st, f.gp, f.gas, f.receipts);
  }

  lemma AloneTracks<S, T, P>(b: Block<S, T, P>, e: Exec<S, T, P>, i: nat)
    requires i < |b.items| && Tracks(b, i, e) && b.items[i].Priv? && Flushes(b, i) && FaithfulAt(b, i)
    ensures Reference(b, i + 1).Some? && StepOf(b, e, i).Some? && Tracks(b, i + 1, StepOf(b, e, i).value)
  {
    var before := Before(b, e, i);
    assert InStep(b, i, before);
    FlushInStep(b, i, before);
    FlushedShadow(b.env, before);
    SingleInStep(b, Flushed(b.env, before), i);
  }

  lemma PublicTracks<S, T, P>(b: Block<S, T, P>, e: Exec<S, T, P>, i: nat)
    requires i < |b.items| && Tracks(b, i, e) && b.items[i].Pub? && FaithfulAt(b, i)
    ensures StepOf(b, e, i).None? <==> Reference(b, i + 1).None?
    ensures StepOf(b, e, i).Some? ==> Tracks(b, i + 1, StepOf(b, e, i).value)
  {
    FlushInStep(b, i, e);
    FlushedShadow(b.env, e);
    PublishedInStep(b, Flushed(b.env, e), i);
  }

  /** An item whose flush is sound keeps in step. */
  lemma StepTracks<S, T, P>(b: Block<S, T, P>, e: Exec<S, T, P>, i: nat)
    requires i < |b.items| && Tracks(b, i, e) && FaithfulAt(b, i)
    ensures StepOf(b, e, i).None? <==> Reference(b, i + 1).None?
    ensures StepOf(b, e, i).Some? ==> Tracks(b, i + 1, StepOf(b, e, i).value)
  {
    if !Flushes(b, i) {
      CandidateTracks(b, e, i);
    } else if b.items[i].Priv? {
      AloneTracks(b, e, i);
    } else {
      PublicTracks(b, e, i);
    }
  }

  lemma {:induction false} BatchedTracks<S, T, P>(b: Block<S, T, P>, n: nat)
    requires n <= |b.items| && forall i: nat | i < n :: FaithfulAt(b, i)
    ensures Batched(b, n).None? <==> Reference(b, n).None?
    ensures Batched(b, n).Some? ==> Tracks(b, n, Batched(b, n).value)
  {
    if n > 0 {
      BatchedTracks(b, n - 1);
      if Batched(b, n - 1).Some? {
        StepTracks(b, Batched(b, n - 1).value, n - 1);
      }
    }
  }

  /** Once astray, always astray. */
  lemma StepStrayed<S, T, P>(b: Block<S, T, P>, e: Exec<S, T, P>, i: nat, j: nat)
    requires i < |b.items| && j < i && Strayed(b, j, e) && StepOf(b, e, i).Some?
    ensures Strayed(b, j, StepOf(b, e, i).value)
  {
    FlushKeeps(b.env, Before(b, e, i), j);
  }

  /** The first flush that is not sound leads astray. */
  lemma StepStrays<S, T, P>(b: Block<S, T, P>, e: Exec<S, T, P>, i: nat) returns (j: nat)
    requires i < |b.items| && Tracks(b, i, e) && !FaithfulAt(b, i) && StepOf(b, e, i).Some?
    ensures j < i && Strayed(b, j, StepOf(b, e, i).value)
  {
    j := FlushStrays(b, i, Before(b, e, i));
  }

  lemma StrayNext<S, T, P>(b: Block<S, T, P>, n: nat, j: nat)
    requires n < |b.items| && j < n && Batched(b, n).Some? && Batched(b, n + 1).Some?
             && Strayed(b, j, Batched(b, n).value)
    ensures Strayed(b, j, Batched(b, n + 1).value)
  {
    StepStrayed(b, Batched(b, n).value, n, j);
  }

  lemma StrayFirst<S, T, P>(b: Block<S, T, P>, n: nat) returns (j: nat)
    requires n < |b.items| && !FaithfulAt(b, n) && forall i: nat | i < n :: FaithfulAt(b, i)
    requires Batched(b, n + 1).Some?
    ensures j < n && Strayed(b, j, Batched(b, n + 1).value)
  {
    BatchedTracks(b, n);
    j := StepStrays(b, Batched(b, n).value, n);
  }

  lemma {:induction false} BatchedStrays<S, T, P>(b: Block<S, T, P>, first: nat, n: nat) returns (j: nat)
    requires first < n <= |b.items| && !FaithfulAt(b, first) && forall i: nat | i < first :: FaithfulAt(b, i)
    requires Batched(b, n).Some?
    ensures j < n && Strayed(b, j, Batched(b, n).value)
  {
    if n == first + 1 {
      j := StrayFirst(b, first);
    } else {
      j := BatchedStrays(b, first, n - 1);
      StrayNext(b, n - 1, j);
    }
  }

  lemma {:induction false} FirstUnfaithful<S, T, P>(b: Block<S, T, P>, n: nat) returns (first: nat)
    requires n <= |b.items| && !FaithfulAt(b, n)
    ensures first <= n && !FaithfulAt(b, first) && forall i: nat | i < first :: FaithfulAt(b, i)
  {
    if j: nat :| j < n && !FaithfulAt(b, j) {
      first := FirstUnfaithful(b, j);
    } else {
      first := n;
    }
  }

  /** A faithful block has the verdict and the outcome of one-at-a-time execution. */
  lemma FaithfulMeets<S, T, P>(b: Block<S, T, P>)
    requires Faithful(b)
    ensures if Final(b).Some? then Done(b, |b.items|, Final(b).value) else Reference(b, |b.items|).None?
  {
    var n := |b.items|;
    BatchedTracks(b, n);
    if Batched(b, n).Some? {
      assert FaithfulAt(b, n);
      FlushInStep(b, n, Batched(b, n).value);
    }
  }

  /** A block that is not faithful has not, unless it is aborted: an item that fails alone is recorded as successful. */
  lemma UnfaithfulDiffers<S, T, P>(b: Block<S, T, P>) returns (j: nat)
    requires !Faithful(b) && Final(b).Some?
    ensures Diverged(b, j, Final(b).value.receipts) && !Done(b, |b.items|, Final(b).value)
  {
    var n := |b.items|;
    var some: nat :| some <= n && !FaithfulAt(b, some);
    var first := FirstUnfaithful(b, some);
    var e := Batched(b, n).value;
    if first == n {
      BatchedTracks(b, n);
      j := FlushStrays(b, n, e);
    } else {
      j := BatchedStrays(b, first, n);
      FlushKeeps(b.env, e, j);
    }
    var f := Final(b).value;
    DivergedNotDone(b, j, f.st, f.gp, f.gas, f.receipts);
  }
}
