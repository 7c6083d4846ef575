/** Privacy nonces over whole runs and whole blocks: no privacy transaction is executed twice. */
module PrivacyNonces {
  import opened Util
  import opened Privacy
  import opened PrivacyRules
  import opened BatchSpec
  import opened BatchRuns
  import opened PrivacyExec

  // One after another.

  /** How many of the first `n` transactions were sent by `a` and succeeded. */
  function Spent(txs: seq<Tx>, ok: seq<bool>, n: nat, a: Addr): nat
    requires n <= |txs| && n <= |ok|
  {
    if n == 0 then 0 else Spent(txs, ok, n - 1, a) + if ok[n - 1] && txs[n - 1].from == a then 1 else 0
  }

  lemma {:induction false} SpentSame(txs: seq<Tx>, ok: seq<bool>, more: seq<bool>, n: nat, a: Addr)
    requires n <= |txs| && n <= |ok| <= |more| && ok == more[..|ok|]
    ensures Spent(txs, ok, n, a) == Spent(txs, more, n, a)
  {
    if n > 0 {
      SpentSame(txs, ok, more, n - 1, a);
      assert ok[n - 1] == more[n - 1];
    }
  }

  lemma {:induction false} SpentGrows(txs: seq<Tx>, ok: seq<bool>, m: nat, n: nat, a: Addr)
    requires m <= n <= |txs| && n <= |ok|
    ensures Spent(txs, ok, m, a) <= Spent(txs, ok, n, a)
  {
    if m < n {
      SpentGrows(txs, ok, m, n - 1, a);
    }
  }

  /** Every transaction that succeeds has the nonce its sender has reached by then. */
  ghost predicate InOrder(s: State, txs: seq<Tx>, ok: seq<bool>) {
    |ok| <= |txs| &&
    forall i: nat | i < |ok| && ok[i] :: txs[i].nonce == NonceAt(s, txs[i].from) + Spent(txs, ok, i, txs[i].from)
  }

  lemma SerialStep(one: (State, Tx) -> Option<State>, s: State, txs: seq<Tx>, n: nat)
    requires StepTakes(one) && n < |txs|
    ensures var before, after := Serial(one, s, txs, n), Serial(one, s, txs, n + 1);
            && after.1[..n] == before.1
            && if after.1[n] then TakesNonce(txs[n], before.0, after.0) else after.0 == before.0
  {
  }

  lemma OrderMore(s: State, txs: seq<Tx>, ok: seq<bool>, more: seq<bool>)
    requires InOrder(s, txs, ok) && |more| == |ok| + 1 <= |txs| && more[..|ok|] == ok
    requires more[|ok|] ==> var tx := txs[|ok|]; tx.nonce == NonceAt(s, tx.from) + Spent(txs, ok, |ok|, tx.from)
    ensures InOrder(s, txs, more)
  {
    forall i: nat | i < |more| && more[i]
      ensures txs[i].nonce == NonceAt(s, txs[i].from) + Spent(txs, more, i, txs[i].from) {
      SpentSame(txs, ok, more, i, txs[i].from);
      assert i < |ok| ==> ok[i];
    }
  }

  /** From `s` to `s'` the nonce of every account rises by the number of its transactions that succeeded. */
  ghost predicate Tally(s: State, txs: seq<Tx>, ok: seq<bool>, s': State) {
    |ok| <= |txs| &&
    forall a: Addr {:trigger NonceAt(s', a)} :: NonceAt(s', a) == NonceAt(s, a) + Spent(txs, ok, |ok|, a)
  }

  lemma TallyMore(s: State, txs: seq<Tx>, ok: seq<bool>, s1: State, more: seq<bool>, s2: State)
    requires Tally(s, txs, ok, s1) && |more| == |ok| + 1 <= |txs| && more[..|ok|] == ok
    requires if more[|ok|] then TakesNonce(txs[|ok|], s1, s2) else s2 == s1
    ensures Tally(s, txs, more, s2)
    ensures more[|ok|] ==> var tx := txs[|ok|]; tx.nonce == NonceAt(s, tx.from) + Spent(txs, ok, |ok|, tx.from)
  {
    forall a: Addr ensures NonceAt(s2, a) == NonceAt(s, a) + Spent(txs, more, |more|, a) {
      SpentSame(txs, ok, more, |ok|, a);
      assert NonceAt(s1, a) == NonceAt(s, a) + Spent(txs, ok, |ok|, a);
    }
  }

  /** In every run the nonce of an account is what it was plus the number of its transactions that succeeded, and each
      of these had the nonce reached by then. */
  lemma {:induction false} SerialNonces(one: (State, Tx) -> Option<State>, s: State, txs: seq<Tx>, n: nat)
    requires StepTakes(one) && n <= |txs|
    ensures var r := Serial(one, s, txs, n); Tally(s, txs, r.1, r.0) && InOrder(s, txs, r.1)
  {
    if n > 0 {
      SerialNonces(one, s, txs, n - 1);
      SerialStep(one, s, txs, n - 1);
      var before, after := Serial(one, s, txs, n - 1), Serial(one, s, txs, n);
      TallyMore(s, txs, before.1, before.0, after.1, after.0);
      OrderMore(s, txs, before.1, after.1);
    }
  }

  lemma AloneTakes(chainId: nat, coinbase: Addr)
    ensures StepTakes(OneAlone(chainId, coinbase))
  {
    forall s: State, tx: Tx ensures ExecOne(chainId, s, tx, coinbase).Some? ==>
                                      TakesNonce(tx, s, ExecOne(chainId, s, tx, coinbase).value) {
      if ExecOne(chainId, s, tx, coinbase).Some? {
        ExecOneNonce(chainId, s, tx, coinbase);
      }
    }
  }

  /** So what one sender gets through has rising nonces, and no transaction gets through twice. */
  lemma SerialRises(chainId: nat, coinbase: Addr, s: State, txs: seq<Tx>, i: nat, j: nat)
    requires i < j < |txs|
    ensures var ok := Serial(OneAlone(chainId, coinbase), s, txs, |txs|).1;
            ok[i] && ok[j] ==> txs[i] != txs[j] && (txs[i].from == txs[j].from ==> txs[i].nonce < txs[j].nonce)
  {
    var ok := Serial(OneAlone(chainId, coinbase), s, txs, |txs|).1;
    AloneTakes(chainId, coinbase);
    SerialNonces(OneAlone(chainId, coinbase), s, txs, |txs|);
    SpentGrows(txs, ok, i + 1, j, txs[i].from);
  }

  // In a block.

  /** Whatever is applied takes its nonce. */
  ghost predicate TakesNonces(env: Env<State, Tx, Prepared>) {
    forall s: State, tx: Tx {:trigger Tried(env, s, tx)} ::
      Tried(env, s, tx).Some? ==> TakesNonce(tx, s, Tried(env, s, tx).value.1)
  }

  lemma PrivacyTakesNonces(chainId: nat, coinbase: Addr, public: (State, nat) -> Outcome<State>)
    ensures TakesNonces(PrivacyEnv(chainId, coinbase, public))
  {
    var env := PrivacyEnv(chainId, coinbase, public);
    forall s: State, tx: Tx ensures Tried(env, s, tx).Some? ==> TakesNonce(tx, s, Tried(env, s, tx).value.1) {
      if Tried(env, s, tx).Some? {
        SettledNonce(chainId, s, tx, coinbase);
      }
    }
  }

  type PrivacyRun = Exec<State, Tx, Prepared>

  /** Privacy item `j` has a successful receipt. */
  predicate Succeeded(items: seq<Item<Tx>>, receipts: seq<Option<Receipt>>, j: nat) {
    j < |items| && j < |receipts| && items[j].Priv? && receipts[j].Some? && receipts[j].value.success
  }

  /** Successful items of one sender have rising nonces. */
  ghost predicate Rising(items: seq<Item<Tx>>, receipts: seq<Option<Receipt>>) {
    forall i: nat, j: nat {:trigger Succeeded(items, receipts, i), Succeeded(items, receipts, j)} |
      i < j && Succeeded(items, receipts, i) && Succeeded(items, receipts, j) ::
      items[i].tx.from == items[j].tx.from ==> items[i].tx.nonce < items[j].tx.nonce
  }

  /** Only items before `m` have succeeded, and their senders are past their nonces. */
  ghost predicate Past(items: seq<Item<Tx>>, receipts: seq<Option<Receipt>>, m: nat, s: State) {
    forall j: nat {:trigger Succeeded(items, receipts, j)} | Succeeded(items, receipts, j) ::
      j < m && items[j].tx.nonce < NonceAt(s, items[j].tx.from)
  }

  ghost predicate Kept(b: Block<State, Tx, Prepared>, m: nat, e: PrivacyRun) {
    |e.receipts| == |b.items| && Rising(b.items, e.receipts) && Past(b.items, e.receipts, m, e.st)
  }

  ghost predicate NeverLower(s: State, s': State) {
    forall a: Addr {:trigger NonceAt(s', a)} :: NonceAt(s, a) <= NonceAt(s', a)
  }

  lemma KeptNoted(b: Block<State, Tx, Prepared>, m: nat, e: PrivacyRun, tx: Tx, s': State, ok: bool)
    requires Kept(b, m, e) && m < |b.items| && b.items[m] == Priv(tx)
    requires if ok then TakesNonce(tx, e.st, s') else s' == e.st
    ensures Kept(b, m + 1, Noted(b.env, e, m, tx, s', ok))
  {
    var receipts := Noted(b.env, e, m, tx, s', ok).receipts;
    forall j: nat | Succeeded(b.items, receipts, j)
      ensures j < m + 1 && b.items[j].tx.nonce < NonceAt(s', b.items[j].tx.from) {
      assert j != m ==> Succeeded(b.items, e.receipts, j);
    }
    forall i: nat, j: nat | i < j && Succeeded(b.items, receipts, i) && Succeeded(b.items, receipts, j)
      ensures b.items[i].tx.from == b.items[j].tx.from ==> b.items[i].tx.nonce < b.items[j].tx.nonce {
      assert i != m ==> Succeeded(b.items, e.receipts, i);
      assert j != m ==> Succeeded(b.items, e.receipts, j);
    }
  }

  lemma KeptPublished(b: Block<State, Tx, Prepared>, m: nat, f: PrivacyRun)
    requires Kept(b, m, f) && m < |b.items| && b.items[m].Pub?
    requires b.env.public(f.st, b.items[m].id).Executed? ==>
               NeverLower(f.st, b.env.public(f.st, b.items[m].id).st)
    ensures var r := Published(b.env, f, m, b.items[m].id, b.items[m].gasLimit);
            r.Some? ==> Kept(b, m + 1, r.value)
  {
    var r := Published(b.env, f, m, b.items[m].id, b.items[m].gasLimit);
    if r.Some? {
      forall j: nat ensures Succeeded(b.items, r.value.receipts, j) == Succeeded(b.items, f.receipts, j) {
      }
    }
  }

  lemma KeptSingle(b: Block<State, Tx, Prepared>, m: nat, e: PrivacyRun)
    requires TakesNonces(b.env)
    requires Kept(b, m, e) && m < |b.items| && b.items[m].Priv?
    ensures Kept(b, m + 1, Single(b.env, e, m, b.items[m].tx))
  {
    var tx := b.items[m].tx;
    var r := Alone(b.env, e.st, tx);
    assert r.Some? ==> Tried(b.env, e.st, tx).Some?;
    KeptNoted(b, m, e, tx, if r.Some? then r.value else e.st, r.Some?);
  }

  lemma {:induction false} KeptSingly(b: Block<State, Tx, Prepared>, m: nat,
                                      e: PrivacyRun, k: nat)
    requires TakesNonces(b.env)
    requires k <= |e.cands| && Kept(b, m + k, e) && Queued(b.items, m, e.cands)
    ensures Kept(b, m + |e.cands|, Singly(b.env, e, k))
    decreases |e.cands| - k
  {
    if k < |e.cands| {
      assert b.items[m + k] == Priv(e.cands[k].tx);
      KeptSingle(b, m + k, e);
      KeptSingly(b, m, Single(b.env, e, m + k, e.cands[k].tx), k + 1);
    }
  }

  lemma {:induction false} KeptUnchecked(b: Block<State, Tx, Prepared>, m: nat,
                                         e: PrivacyRun, k: nat)
    requires TakesNonces(b.env)
    requires k <= |e.cands| && Kept(b, m + k, e) && Queued(b.items, m, e.cands)
    ensures var u := Unchecked(b.env, e, k); Kept(b, m + u.1, u.0)
    decreases |e.cands| - k
  {
    if k < |e.cands| && Tried(b.env, e.st, e.cands[k].tx).Some? {
      var tx := e.cands[k].tx;
      var next := Tried(b.env, e.st, tx).value.1;
      assert b.items[m + k] == Priv(tx);
      KeptNoted(b, m + k, e, tx, next, true);
      KeptUnchecked(b, m, Noted(b.env, e, m + k, tx, next, true), k + 1);
    }
  }

  /** The first `i` items are processed, and those not yet settled are the candidates. */
  ghost predicate KeptUpTo(b: Block<State, Tx, Prepared>, i: nat, e: PrivacyRun) {
    |e.cands| <= i && Queued(b.items, i - |e.cands|, e.cands) && Kept(b, i - |e.cands|, e)
  }

  lemma KeptFlushed(b: Block<State, Tx, Prepared>, i: nat, e: PrivacyRun)
    requires TakesNonces(b.env) && KeptUpTo(b, i, e)
    ensures Kept(b, i, Flushed(b.env, e))
  {
    var m := i - |e.cands|;
    if BatchAccepts(b.env, e.cands) {
      KeptUnchecked(b, m, e, 0);
      var u := Unchecked(b.env, e, 0);
      KeptSingly(b, m, u.0, u.1);
    } else {
      KeptSingly(b, m, e, 0);
    }
  }

  /** Public item `i`, when it is reached, lowers no privacy nonce. */
  ghost predicate PublicKeepsAt(b: Block<State, Tx, Prepared>, i: nat)
    requires i < |b.items|
  {
    b.items[i].Pub? && Batched(b, i).Some? ==>
      var s := Flushed(b.env, Batched(b, i).value).st;
      var r := b.env.public(s, b.items[i].id);
      r.Executed? ==> NeverLower(s, r.st)
  }

  ghost predicate PublicKeepsNonces(b: Block<State, Tx, Prepared>) {
    forall i: nat | i < |b.items| :: PublicKeepsAt(b, i)
  }

  lemma KeptCandidate(b: Block<State, Tx, Prepared>, e: PrivacyRun, i: nat, copy: Option<State>, p: Prepared)
    requires i < |b.items| && KeptUpTo(b, i, e) && b.items[i].Priv?
    ensures KeptUpTo(b, i + 1, e.(copy := copy, cands := e.cands + [Candidate(i, b.items[i].tx, p)]))
  {
    var c := Candidate(i, b.items[i].tx, p);
    QueuedMore(b.items, i - |e.cands|, e.cands, c);
    assert i + 1 - |e.cands + [c]| == i - |e.cands|;
  }

  lemma KeptPrivate(b: Block<State, Tx, Prepared>, e: PrivacyRun, i: nat)
    requires TakesNonces(b.env) && i < |b.items| && KeptUpTo(b, i, e) && b.items[i].Priv?
    ensures StepOf(b, e, i).Some? && KeptUpTo(b, i + 1, StepOf(b, e, i).value)
  {
    var before := Before(b, e, i);
    var t := Tried(b.env, before.copy.value, b.items[i].tx);
    if t.Some? {
      KeptCandidate(b, e, i, Some(t.value.1), t.value.0);
    } else {
      assert KeptUpTo(b, i, before);
      KeptFlushed(b, i, before);
      KeptSingle(b, i, Flushed(b.env, before));
    }
  }

  lemma KeptPublic(b: Block<State, Tx, Prepared>, e: PrivacyRun, i: nat)
    requires TakesNonces(b.env) && i < |b.items| && KeptUpTo(b, i, e) && b.items[i].Pub?
    requires var s := Flushed(b.env, e).st;
             var r := b.env.public(s, b.items[i].id);
             r.Executed? ==> NeverLower(s, r.st)
    ensures StepOf(b, e, i).Some? ==> KeptUpTo(b, i + 1, StepOf(b, e, i).value)
  {
    KeptFlushed(b, i, e);
    KeptPublished(b, i, Flushed(b.env, e));
  }

  ghost predicate KeptRun(b: Block<State, Tx, Prepared>, n: nat)
    requires n <= |b.items|
  {
    Batched(b, n).Some? ==> KeptUpTo(b, n, Batched(b, n).value)
  }

  lemma KeptStart(b: Block<State, Tx, Prepared>)
    ensures KeptRun(b, 0)
  {
    forall j: nat ensures !Succeeded(b.items, Batched(b, 0).value.receipts, j) {
    }
  }

  lemma KeptNext(b: Block<State, Tx, Prepared>, n: nat)
    requires TakesNonces(b.env) && n < |b.items| && PublicKeepsAt(b, n) && KeptRun(b, n)
    ensures KeptRun(b, n + 1)
  {
    if Batched(b, n).Some? {
      BatchedNext(b, n);
      if b.items[n].Priv? {
        KeptPrivate(b, Batched(b, n).value, n);
      } else {
        KeptPublic(b, Batched(b, n).value, n);
      }
    }
  }

  lemma {:induction false} KeptBatched(b: Block<State, Tx, Prepared>, n: nat)
    requires TakesNonces(b.env) && PublicKeepsNonces(b) && n <= |b.items|
    ensures KeptRun(b, n)
  {
    if n == 0 {
      KeptStart(b);
    } else {
      KeptBatched(b, n - 1);
      assert PublicKeepsAt(b, n - 1);
      KeptNext(b, n - 1);
    }
  }

  /** In every block that is not aborted, faithful or not, the successful privacy items of one sender have rising
      nonces, so that no two are equal. */
  lemma BlockRises(b: Block<State, Tx, Prepared>, chainId: nat, coinbase: Addr)
    requires b.env == PrivacyEnv(chainId, coinbase, b.env.public) && PublicKeepsNonces(b) && Final(b).Some?
    ensures Rising(b.items, Final(b).value.receipts)
    ensures forall i: nat, j: nat {:trigger b.items[i], b.items[j]} | i < j < |b.items| && b.items[i] == b.items[j] ::
              !(Succeeded(b.items, Final(b).value.receipts, i) && Succeeded(b.items, Final(b).value.receipts, j))
  {
    PrivacyTakesNonces(chainId, coinbase, b.env.public);
    KeptBatched(b, |b.items|);
    KeptFlushed(b, |b.items|, Batched(b, |b.items|).value);
  }
}
