/** Blocks that mix public and privacy transactions: one-at-a-time execution, and what batching adds to it.

    What preparing, verifying and applying mean is left open: the argument needs only that a proof check looks at
    nothing but the prepared record. */
module BatchSpec {
  import opened Util

  /** An item of a block. A public transaction has a gas limit. */
  datatype Item<T> = Priv(tx: T) | Pub(id: nat, gasLimit: nat)

  datatype Outcome<S> = Rejected | Executed(st: S, gasUsed: nat, failed: bool)

  datatype Receipt = Receipt(id: nat, index: nat, success: bool, gasUsed: nat, cumulativeGasUsed: nat)

  /** `settle` applies a prepared transaction and pays its fee, or reports a failure. */
  datatype Env<!S, !T, !P> = Env(prepare: (S, T) -> Option<P>, verify: P -> bool, settle: (P, S) -> Option<S>,
                                 public: (S, nat) -> Outcome<S>, txId: T -> nat)

  /** What is executed: the items, from a state and with a gas pool. */
  datatype Block<!S, !T, !P> = Block(env: Env<S, T, P>, start: S, gp: int, items: seq<Item<T>>)

  /** One privacy transaction executed alone. */
  function Alone<S, T, P>(env: Env<S, T, P>, s: S, tx: T): Option<S> {
    var p := env.prepare(s, tx);
    if p.None? || !env.verify(p.value) then None else env.settle(p.value, s)
  }

  /** The block so far: state, gas left, gas used, receipts. */
  datatype Progress<S> = Progress(st: S, gp: int, gas: nat, receipts: seq<Receipt>)

  /** Reference semantics of one item; a rejected public transaction aborts the block. */
  function RefStep<S, T, P>(env: Env<S, T, P>, p: Progress<S>, item: Item<T>): Option<Progress<S>> {
    match item
    case Priv(tx) =>
      var r := Alone(env, p.st, tx);
      Some(p.(st := if r.Some? then r.value else p.st,
              receipts := p.receipts + [Receipt(env.txId(tx), |p.receipts|, r.Some?, 0, p.gas)]))
    case Pub(id, gasLimit) =>
      var r := env.public(p.st, id);
      if r.Rejected? || gasLimit > p.gp || r.gasUsed > p.gp then None
      else Some(Progress(r.st, p.gp - r.gasUsed, p.gas + r.gasUsed,
                         p.receipts + [Receipt(id, |p.receipts|, !r.failed, r.gasUsed, p.gas + r.gasUsed)]))
  }

  /** One-at-a-time execution of the first `n` items. */
  function Reference<S, T, P>(b: Block<S, T, P>, n: nat): (r: Option<Progress<S>>)
    requires n <= |b.items|
    ensures r.Some? ==> |r.value.receipts| == n
  {
    if n == 0 then Some(Progress(b.start, b.gp, 0, []))
    else
      var p := Reference(b, n - 1);
      if p.None? then None else RefStep(b.env, p.value, b.items[n - 1])
  }

  /** The state in which item `n` is executed. */
  function RefState<S, T, P>(b: Block<S, T, P>, n: nat): S
    requires n <= |b.items|
  {
    if Reference(b, n).Some? then Reference(b, n).value.st else b.start
  }

  lemma {:induction false} ReferenceStops<S, T, P>(b: Block<S, T, P>, n: nat, m: nat)
    requires n <= m <= |b.items| && Reference(b, n).None?
    ensures Reference(b, m).None?
    decreases m - n
  {
    if n < m {
      ReferenceStops(b, n + 1, m);
    }
  }

  lemma RefPriv<S, T, P>(b: Block<S, T, P>, n: nat)
    requires n < |b.items| && Reference(b, n).Some? && b.items[n].Priv?
    ensures var r := Alone(b.env, RefState(b, n), b.items[n].tx);
            && Reference(b, n + 1).Some? && RefState(b, n + 1) == (if r.Some? then r.value else RefState(b, n))
            && Reference(b, n + 1).value.gp == Reference(b, n).value.gp
            && Reference(b, n + 1).value.receipts[n].success == r.Some?
  {
  }

  lemma RefPub<S, T, P>(b: Block<S, T, P>, n: nat)
    requires n < |b.items| && Reference(b, n).Some? && b.items[n].Pub?
    ensures var r := b.env.public(RefState(b, n), b.items[n].id);
            r.Executed? && b.items[n].gasLimit <= Reference(b, n).value.gp && r.gasUsed <= Reference(b, n).value.gp ==>
              Reference(b, n + 1).Some? && RefState(b, n + 1) == r.st
                  && Reference(b, n + 1).value.gp == Reference(b, n).value.gp - r.gasUsed
  {
  }

  /** Receipts, once written, stay. */
  lemma {:induction false} ReferenceKeeps<S, T, P>(b: Block<S, T, P>, n: nat, m: nat)
    requires n <= m <= |b.items| && Reference(b, m).Some?
    ensures Reference(b, n).Some? && Reference(b, n).value.receipts <= Reference(b, m).value.receipts
  {
    if n < m {
      ReferenceKeeps(b, n, m - 1);
    }
  }

  /** `m` items are done: state, gas and receipts are those of the reference. */
  ghost predicate DoneUpTo<S, T, P>(b: Block<S, T, P>, m: nat, st: S, gp: int, gas: nat,
                                    receipts: seq<Option<Receipt>>) {
    && m <= |b.items| == |receipts|
    && var ref := Reference(b, m);
       && ref.Some? && ref.value.st == st && ref.value.gp == gp && ref.value.gas == gas
       && forall j | 0 <= j < m :: receipts[j] == Some(ref.value.receipts[j])
  }

  /** Executing one more privacy item alone advances the reference by one. */
  lemma DoneOne<S, T, P>(b: Block<S, T, P>, m: nat, st: S, gp: int, gas: nat, receipts: seq<Option<Receipt>>, st': S,
                         ok: bool)
    requires DoneUpTo(b, m, st, gp, gas, receipts) && m < |b.items| && b.items[m].Priv?
    requires var r := Alone(b.env, st, b.items[m].tx);
             ok == r.Some? && st' == if ok then r.value else st
    ensures DoneUpTo(b, m + 1, st', gp, gas, receipts[m := Some(Receipt(b.env.txId(b.items[m].tx), m, ok, 0, gas))])
  {
  }

  lemma DonePublic<S, T, P>(b: Block<S, T, P>, m: nat, st: S, gp: int, gas: nat, receipts: seq<Option<Receipt>>)
    requires DoneUpTo(b, m, st, gp, gas, receipts) && m < |b.items| && b.items[m].Pub?
    ensures var r := b.env.public(st, b.items[m].id);
            if r.Rejected? || b.items[m].gasLimit > gp || r.gasUsed > gp then Reference(b, m + 1).None?
            else DoneUpTo(b, m + 1, r.st, gp - r.gasUsed, gas + r.gasUsed,
                          receipts[m := Some(Receipt(b.items[m].id, m, !r.failed, r.gasUsed, gas + r.gasUsed))])
  {
  }

  // What batching looks at beside the real state: a speculative copy, on which the candidates of the next batch were
  // prepared.

  datatype Candidate<T, P> = Candidate(index: nat, tx: T, prepared: P)

  /** The batch verifier accepts iff every item verifies on its own. */
  predicate BatchAccepts<S, T, P>(env: Env<S, T, P>, cands: seq<Candidate<T, P>>) {
    forall k | 0 <= k < |cands| :: env.verify(cands[k].prepared)
  }

  /** Candidates are the items from position `m` on. */
  ghost predicate Queued<T, P>(items: seq<Item<T>>, m: nat, cands: seq<Candidate<T, P>>) {
    && m + |cands| <= |items|
    && forall k | 0 <= k < |cands| :: items[m + k] == Priv(cands[k].tx) && cands[k].index == m + k
  }

  /** Preparing and applying without a proof check. */
  function Tried<S, T, P>(env: Env<S, T, P>, s: S, tx: T): Option<(P, S)> {
    var p := env.prepare(s, tx);
    if p.None? then None
    else
      var next := env.settle(p.value, s);
      if next.None? then None else Some((p.value, next.value))
  }

  datatype Shadow<S, T, P> = Shadow(copy: Option<S>, cands: seq<Candidate<T, P>>)

  /** A flush drops the copy, but only together with a non-empty batch. */
  function Dropped<S, T, P>(sh: Shadow<S, T, P>): Shadow<S, T, P> {
    if |sh.cands| == 0 then sh else Shadow(None, [])
  }

  /** The state on which the next candidate is prepared: the copy, made from the real state if there is none. */
  function Base<S, T, P>(b: Block<S, T, P>, sh: Shadow<S, T, P>, i: nat): S
    requires i <= |b.items|
  {
    if sh.copy.Some? then sh.copy.value else RefState(b, i)
  }

  /** Copy and candidates when item `i` is reached, as long as the real state is the reference's. */
  function ShadowAt<S, T, P>(b: Block<S, T, P>, i: nat): (r: Shadow<S, T, P>)
    requires i <= |b.items|
    ensures |r.cands| <= i && Queued(b.items, i - |r.cands|, r.cands)
    ensures r.copy.None? ==> r.cands == []
  {
    if i == 0 then Shadow(None, []) else ShadowStep(b, ShadowAt(b, i - 1), i - 1)
  }

  function ShadowStep<S, T, P>(b: Block<S, T, P>, sh: Shadow<S, T, P>, i: nat): Shadow<S, T, P>
    requires i < |b.items|
  {
    match b.items[i]
    case Pub(_, _) => Dropped(sh)
    case Priv(tx) =>
      var base := Base(b, sh, i);
      var t := Tried(b.env, base, tx);
      if t.Some? then Shadow(Some(t.value.1), sh.cands + [Candidate(i, tx, t.value.0)])
      else Dropped(Shadow(Some(base), sh.cands))
  }

  /** Item `i` forces a flush, and so does the end of the block. */
  predicate Flushes<S, T, P>(b: Block<S, T, P>, i: nat)
    requires i <= |b.items|
  {
    i == |b.items| || b.items[i].Pub? || Tried(b.env, Base(b, ShadowAt(b, i), i), b.items[i].tx).None?
  }

  /** In its turn, privacy item `j` can be prepared and applied. */
  predicate AppliesAt<S, T, P>(b: Block<S, T, P>, j: nat) {
    j < |b.items| && b.items[j].Priv? && Tried(b.env, RefState(b, j), b.items[j].tx).Some?
  }

  /** In its turn, the proof of item `j` verifies. */
  predicate ProvenAt<S, T, P>(b: Block<S, T, P>, j: nat) {
    && j < |b.items| && b.items[j].Priv?
    && var p := b.env.prepare(RefState(b, j), b.items[j].tx);
       p.Some? && b.env.verify(p.value)
  }

  ghost predicate AllApply<S, T, P>(b: Block<S, T, P>, m: nat, n: nat) {
    forall j: nat | m <= j < n :: AppliesAt(b, j)
  }

  /** Items `m` up to `n` can be applied without a proof check until the first that cannot be applied at all. */
  ghost predicate Sound<S, T, P>(b: Block<S, T, P>, m: nat, n: nat) {
    forall j: nat {:trigger ProvenAt(b, j)} | m <= j < n && AllApply(b, m, j + 1) :: ProvenAt(b, j)
  }

  /** If a batch settled before item `i` was accepted on the copies, its proofs also verify in their turn. */
  ghost predicate FaithfulAt<S, T, P>(b: Block<S, T, P>, i: nat)
    requires i <= |b.items|
  {
    Flushes(b, i) && Reference(b, i).Some? ==> FlushSound(b, i, ShadowAt(b, i).cands)
  }

  ghost predicate FlushSound<S, T, P>(b: Block<S, T, P>, i: nat, cands: seq<Candidate<T, P>>) {
    BatchAccepts(b.env, cands) ==> |cands| <= i && Sound(b, i - |cands|, i)
  }

  ghost predicate Faithful<S, T, P>(b: Block<S, T, P>) {
    forall i: nat | i <= |b.items| :: FaithfulAt(b, i)
  }

  /** Item `j` was recorded as successful though it fails in its turn. */
  ghost predicate Diverged<S, T, P>(b: Block<S, T, P>, j: nat, receipts: seq<Option<Receipt>>) {
    && j < |b.items| == |receipts| && receipts[j].Some? && receipts[j].value.success
    && Reference(b, j + 1).Some? && !Reference(b, j + 1).value.receipts[j].success
  }

  lemma DivergedNotDone<S, T, P>(b: Block<S, T, P>, j: nat, st: S, gp: int, gas: nat, receipts: seq<Option<Receipt>>)
    requires Diverged(b, j, receipts)
    ensures !DoneUpTo(b, |b.items|, st, gp, gas, receipts)
  {
    if Reference(b, |b.items|).Some? {
      ReferenceKeeps(b, j + 1, |b.items|);
    }
  }

  /** Applying item `m` without a check, when its proof verifies. */
  lemma AppliedProven<S, T, P>(b: Block<S, T, P>, m: nat, st: S, gp: int, gas: nat, receipts: seq<Option<Receipt>>)
    requires DoneUpTo(b, m, st, gp, gas, receipts) && m < |b.items| && b.items[m].Priv?
    requires Tried(b.env, st, b.items[m].tx).Some? && b.env.verify(Tried(b.env, st, b.items[m].tx).value.0)
    ensures AppliesAt(b, m) && ProvenAt(b, m)
    ensures DoneUpTo(b, m + 1, Tried(b.env, st, b.items[m].tx).value.1, gp, gas,
                     receipts[m := Some(Receipt(b.env.txId(b.items[m].tx), m, true, 0, gas))])
  {
    DoneOne(b, m, st, gp, gas, receipts, Tried(b.env, st, b.items[m].tx).value.1, true);
  }

  /** And when it does not. */
  lemma AppliedUnproven<S, T, P>(b: Block<S, T, P>, m: nat, st: S, gp: int, gas: nat, receipts: seq<Option<Receipt>>)
    requires DoneUpTo(b, m, st, gp, gas, receipts) && m < |b.items| && b.items[m].Priv?
    requires Tried(b.env, st, b.items[m].tx).Some? && !b.env.verify(Tried(b.env, st, b.items[m].tx).value.0)
    ensures AppliesAt(b, m) && !ProvenAt(b, m)
    ensures Diverged(b, m, receipts[m := Some(Receipt(b.env.txId(b.items[m].tx), m, true, 0, gas))])
  {
  }

  /** Items `m` up to `n` are done, each applied and proven in its turn. */
  ghost predicate AllProven<S, T, P>(b: Block<S, T, P>, m: nat, n: nat) {
    forall j: nat | m <= j < n :: AppliesAt(b, j) && ProvenAt(b, j)
  }

  /** A batch is sound if all its items are settled, or those before one that cannot be applied. */
  lemma ProvenSound<S, T, P>(b: Block<S, T, P>, m: nat, k: nat, n: nat)
    requires m <= k <= n && AllProven(b, m, k) && (k < n ==> !AppliesAt(b, k))
    ensures Sound(b, m, n)
  {
    forall j: nat | m <= j < n && AllApply(b, m, j + 1) ensures ProvenAt(b, j) {
      assert k < n && k <= j ==> AppliesAt(b, k);
    }
  }

  // When batching is faithful.

  /** No public item changes the state while a copy without candidates is left over. */
  ghost predicate Quiet<S, T, P>(b: Block<S, T, P>) {
    forall i: nat | i < |b.items| :: QuietAt(b, i)
  }

  ghost predicate QuietAt<S, T, P>(b: Block<S, T, P>, i: nat)
    requires i < |b.items|
  {
    b.items[i].Pub? && |ShadowAt(b, i).cands| == 0 && ShadowAt(b, i).copy.Some? && Reference(b, i + 1).Some?
    ==> RefState(b, i + 1) == RefState(b, i)
  }

  /** In a quiet block, as long as every candidate verifies, the copy is the reference state and every candidate is
      proven in its turn. */
  lemma {:induction false} QuietCopy<S, T, P>(b: Block<S, T, P>, i: nat)
    requires Quiet(b) && i <= |b.items| && Reference(b, i).Some? && BatchAccepts(b.env, ShadowAt(b, i).cands)
    ensures InTurn(b, i)
  {
    if i > 0 {
      ReferenceKeeps(b, i - 1, i);
      assert QuietAt(b, i - 1);
      if |ShadowAt(b, i).cands| > 0 {
        AcceptsBefore(b, i - 1);
        QuietCopy(b, i - 1);
        InTurnMore(b, i - 1);
      } else if |ShadowAt(b, i - 1).cands| == 0 {
        QuietCopy(b, i - 1);
        InTurnIdle(b, i - 1);
      } else {
        InTurnDropped(b, i - 1);
      }
    }
  }

  ghost predicate InTurn<S, T, P>(b: Block<S, T, P>, i: nat)
    requires i <= |b.items|
  {
    var sh := ShadowAt(b, i);
    && (sh.copy.Some? ==> sh.copy.value == RefState(b, i))
    && forall j: nat | i - |sh.cands| <= j < i :: ProvenAt(b, j)
  }

  lemma AcceptsBefore<S, T, P>(b: Block<S, T, P>, i: nat)
    requires i < |b.items| && |ShadowAt(b, i + 1).cands| > 0 && BatchAccepts(b.env, ShadowAt(b, i + 1).cands)
    ensures BatchAccepts(b.env, ShadowAt(b, i).cands)
  {
    var sh, next := ShadowAt(b, i).cands, ShadowAt(b, i + 1).cands;
    assert forall k | 0 <= k < |sh| :: next[k] == sh[k];
  }

  /** One more candidate that verifies. */
  lemma InTurnMore<S, T, P>(b: Block<S, T, P>, i: nat)
    requires i < |b.items| && Reference(b, i).Some? && InTurn(b, i)
    requires |ShadowAt(b, i + 1).cands| > 0 && BatchAccepts(b.env, ShadowAt(b, i + 1).cands)
    ensures InTurn(b, i + 1)
  {
    var sh, next := ShadowAt(b, i), ShadowAt(b, i + 1);
    assert next.cands[|sh.cands|].prepared == Tried(b.env, RefState(b, i), b.items[i].tx).value.0;
    assert ProvenAt(b, i);
  }

  /** No candidate before or after. */
  lemma InTurnIdle<S, T, P>(b: Block<S, T, P>, i: nat)
    requires i < |b.items| && Reference(b, i + 1).Some? && Reference(b, i).Some? && InTurn(b, i) && QuietAt(b, i)
    requires |ShadowAt(b, i).cands| == 0 && |ShadowAt(b, i + 1).cands| == 0
    ensures InTurn(b, i + 1)
  {
  }

  /** The candidates are settled. */
  lemma InTurnDropped<S, T, P>(b: Block<S, T, P>, i: nat)
    requires i < |b.items| && |ShadowAt(b, i).cands| > 0 && |ShadowAt(b, i + 1).cands| == 0
    ensures InTurn(b, i + 1)
  {
  }

  /** In a quiet block batching is faithful. */
  lemma QuietFaithful<S, T, P>(b: Block<S, T, P>)
    requires Quiet(b)
    ensures Faithful(b)
  {
    forall i: nat | i <= |b.items| ensures FaithfulAt(b, i) {
      if Reference(b, i).Some? && BatchAccepts(b.env, ShadowAt(b, i).cands) {
        QuietCopy(b, i);
      }
    }
  }

  lemma {:induction false} CopyAfterPrivacy<S, T, P>(b: Block<S, T, P>, i: nat)
    requires i <= |b.items| && ShadowAt(b, i).copy.Some?
    ensures exists j :: 0 <= j < i && b.items[j].Priv?
  {
    if b.items[i - 1].Pub? {
      CopyAfterPrivacy(b, i - 1);
    }
  }

  /** So it is when no public item follows a privacy one. */
  lemma PrivacyLastFaithful<S, T, P>(b: Block<S, T, P>)
    requires forall i, j | 0 <= i < j < |b.items| && b.items[i].Priv? :: b.items[j].Priv?
    ensures Faithful(b)
  {
    forall i: nat | i < |b.items| ensures QuietAt(b, i) {
      if ShadowAt(b, i).copy.Some? {
        CopyAfterPrivacy(b, i);
      }
    }
    QuietFaithful(b);
  }

  /** Privacy transactions executed one after another by `one`, and which of them succeeded. */
  function Serial<S, T>(one: (S, T) -> Option<S>, s: S, txs: seq<T>, n: nat): (r: (S, seq<bool>))
    requires n <= |txs|
    ensures |r.1| == n
  {
    if n == 0 then (s, [])
    else
      var p := Serial(one, s, txs, n - 1);
      var r := one(p.0, txs[n - 1]);
      (if r.Some? then r.value else p.0, p.1 + [r.Some?])
  }

  /** On privacy items the reference is that. */
  lemma {:induction false} SerialIsReference<S(!new), T(!new), P>(b: Block<S, T, P>, one: (S, T) -> Option<S>,
      txs: seq<T>, n: nat)
    requires n <= |txs| == |b.items| && forall i | 0 <= i < |txs| :: b.items[i] == Priv(txs[i])
    requires forall s, tx :: Alone(b.env, s, tx) == one(s, tx)
    ensures var ref := Reference(b, n);
            var ser := Serial(one, b.start, txs, n);
            && ref.Some? && ref.value.st == ser.0 && ref.value.gas == 0
            && forall i | 0 <= i < n :: ref.value.receipts[i] == Receipt(b.env.txId(txs[i]), i, ser.1[i], 0, 0)
  {
    if n > 0 {
      SerialIsReference(b, one, txs, n - 1);
    }
  }
}
