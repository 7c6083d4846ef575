/** Replaying the pool's privacy transactions on a copy of the state, round after round, until no
    further one applies. */
module PrivacyReplay {
  import opened Util
  import opened Privacy
  import opened PrivacyRules

  /** One transaction as the pool applies it: without terminal rules, and without crediting the fee. */
  function ApplyTx(chainId: nat, s: State, tx: Tx): Option<State> {
    var p := PrepareCore(chainId, s, tx);
    if p.None? || !VerifyProofs(p.value) then None
    else
      var r := Applied(p.value, s);
      if r.None? then None else Some(r.value.0)
  }

  lemma ApplyTxNonce(chainId: nat, s: State, tx: Tx)
    requires ApplyTx(chainId, s, tx).Some?
    ensures TakesNonce(tx, s, ApplyTx(chainId, s, tx).value)
  {
    if tx.Transfer? {
      TransferNonce(chainId, s, tx);
    } else if tx.Shield? {
      ShieldNonce(chainId, s, tx);
    } else {
      UnshieldNonce(chainId, s, tx);
    }
  }

  /** How many transactions are left. */
  function Left<T>(rem: seq<Option<T>>): nat {
    if rem == [] then 0 else Left(rem[..|rem| - 1]) + (if rem[|rem| - 1].Some? then 1 else 0)
  }

  lemma {:induction false} LeftUpdate<T>(rem: seq<Option<T>>, i: nat)
    requires i < |rem| && rem[i].Some?
    ensures Left(rem[i := None]) == Left(rem) - 1
  {
    var front := rem[..|rem| - 1];
    if i < |rem| - 1 {
      LeftUpdate(front, i);
      assert rem[i := None][..|rem| - 1] == front[i := None];
    } else {
      assert rem[i := None][..|rem| - 1] == front;
    }
  }

  /** `done` is an order in which transactions were applied, each at most once, starting from `s0` and
      ending in `s`; `rem` holds exactly the others. */
  ghost predicate Applies<S, T>(step: (S, T) -> Option<S>, s0: S, txs: seq<T>, done: seq<nat>, s: S,
                                rem: seq<Option<T>>) {
    && |rem| == |txs|
    && (forall i | 0 <= i < |txs| :: rem[i] == if i in done then None else Some(txs[i]))
    && (forall i, j | 0 <= i < j < |done| :: done[i] != done[j])
    && (forall k | 0 <= k < |done| :: done[k] < |txs|)
    && Fold(step, s0, txs, done) == Some(s)
  }

  /** Applying the transactions listed in `done`, in that order. */
  function Fold<S, T>(step: (S, T) -> Option<S>, s0: S, txs: seq<T>, done: seq<nat>): Option<S>
    requires forall k | 0 <= k < |done| :: done[k] < |txs|
  {
    if done == [] then Some(s0)
    else
      var mid := Fold(step, s0, txs, done[..|done| - 1]);
      if mid.None? then None else step(mid.value, txs[done[|done| - 1]])
  }

  lemma FoldPush<S, T>(step: (S, T) -> Option<S>, s0: S, txs: seq<T>, done: seq<nat>, i: nat)
    requires forall k | 0 <= k < |done| :: done[k] < |txs|
    requires i < |txs| && Fold(step, s0, txs, done).Some?
    ensures Fold(step, s0, txs, done + [i]) == step(Fold(step, s0, txs, done).value, txs[i])
  {
    assert (done + [i])[..|done + [i]| - 1] == done;
  }

  /** One round over what remains; without progress everything that remains fails. */
  method Round<S, T(==)>(step: (S, T) -> Option<S>, ghost s0: S, txs: seq<T>, s': S, remaining': seq<Option<T>>,
                         ghost done': seq<nat>)
      returns (s: S, remaining: seq<Option<T>>, progress: bool, ghost done: seq<nat>)
    requires Applies(step, s0, txs, done', s', remaining')
    ensures Applies(step, s0, txs, done, s, remaining)
    ensures if progress then Left(remaining) < Left(remaining') else Left(remaining) == Left(remaining')
    ensures !progress ==> forall i | 0 <= i < |txs| && remaining[i].Some? :: step(s, txs[i]).None?
  {
    s, remaining, progress, done := s', remaining', false, done';
    var i := 0;
    while i < |remaining|
      invariant 0 <= i <= |remaining| && Applies(step, s0, txs, done, s, remaining)
      invariant if progress then Left(remaining) < Left(remaining') else Left(remaining) == Left(remaining')
      invariant !progress ==> forall j | 0 <= j < i && remaining[j].Some? :: step(s, txs[j]).None?
    {
      if remaining[i].Some? {
        var next := step(s, remaining[i].value);
        if next.Some? {
          FoldPush(step, s0, txs, done, i);
          LeftUpdate(remaining, i);
          s, done := next.value, done + [i];
          remaining := remaining[i := None];
          progress := true;
        }
      }
      i := i + 1;
    }
  }

  /** Tries every remaining transaction, in rounds, until a round makes no progress. Whatever the
      transactions do to each other: each is applied at most once, the result is reached by applying
      some of them in some order, and every one left over fails on the final state. */
  method Replay<S, T(==)>(step: (S, T) -> Option<S>, s0: S, txs: seq<T>)
    returns (s: S, remaining: seq<Option<T>>, ghost done: seq<nat>)
    ensures Applies(step, s0, txs, done, s, remaining)
    ensures forall i | 0 <= i < |txs| && remaining[i].Some? :: step(s, txs[i]).None?
  {
    s, done := s0, [];
    remaining := seq(|txs|, i requires 0 <= i < |txs| => Some(txs[i]));
    var progress := true;
    while progress
      invariant Applies(step, s0, txs, done, s, remaining)
      invariant !progress ==> forall i | 0 <= i < |txs| && remaining[i].Some? :: step(s, txs[i]).None?
      decreases Left(remaining), progress
    {
      s, remaining, progress, done := Round(step, s0, txs, s, remaining, done);
    }
  }

  /** A pool transaction is known by its sender and private nonce. */
  datatype Key = Key(addr: Addr, nonce: nat)

  datatype Batch<T> = Batch(existing: map<Key, T>, accepted: map<Key, T>)

  function Accept<T>(b: Batch<T>, key: Key, tx: T): Batch<T> {
    b.(accepted := b.accepted[key := tx])
  }

  /** A round starts from everything known so far and accepts separately. */
  function Fork<T>(b: Batch<T>): Batch<T> {
    Batch(b.existing + b.accepted, map[])
  }

  /** Own transactions at or after the new one are not replayed before it. */
  predicate Precedes(k: Key, key: Key) {
    !(k.addr == key.addr && k.nonce >= key.nonce)
  }

  /** The transactions replayed to build the state for `key`: existing ones not overridden by an
      accepted one, and accepted ones. */
  function Candidates<T>(b: Batch<T>, key: Key): map<Key, T> {
    (map k | k in b.existing && k !in b.accepted && Precedes(k, key) :: b.existing[k]) +
    (map k | k in b.accepted && Precedes(k, key) :: b.accepted[k])
  }

  /** Forking is invisible: whatever is accepted afterwards on either side, the same transactions are
      replayed. */
  lemma {:induction false} ForkInvisible<T>(b: Batch<T>, news: seq<(Key, T)>, key: Key)
    ensures Candidates(AcceptAll(Fork(b), news), key) == Candidates(AcceptAll(b, news), key)
  {
    AcceptAllView(b, news);
    AcceptAllView(Fork(b), news);
    assert View(Fork(b)) == View(b);
    CandidatesView(AcceptAll(b, news), key);
    CandidatesView(AcceptAll(Fork(b), news), key);
  }

  function AcceptAll<T>(b: Batch<T>, news: seq<(Key, T)>): Batch<T> {
    if news == [] then b
    else Accept(AcceptAll(b, news[..|news| - 1]), news[|news| - 1].0, news[|news| - 1].1)
  }

  /** What is known: accepted transactions take precedence. */
  function View<T>(b: Batch<T>): map<Key, T> { b.existing + b.accepted }

  lemma CandidatesView<T>(b: Batch<T>, key: Key)
    ensures Candidates(b, key) == map k | k in View(b) && Precedes(k, key) :: View(b)[k]
  {
  }

  /** Later transactions override earlier ones under the same key. */
  function Overlay<T>(m: map<Key, T>, news: seq<(Key, T)>): map<Key, T> {
    if news == [] then m else Overlay(m, news[..|news| - 1])[news[|news| - 1].0 := news[|news| - 1].1]
  }

  lemma AcceptView<T>(b: Batch<T>, key: Key, tx: T)
    ensures View(Accept(b, key, tx)) == View(b)[key := tx]
  {
  }

  lemma {:induction false} AcceptAllView<T>(b: Batch<T>, news: seq<(Key, T)>)
    ensures View(AcceptAll(b, news)) == Overlay(View(b), news)
  {
    if news != [] {
      AcceptAllView(b, news[..|news| - 1]);
      AcceptView(AcceptAll(b, news[..|news| - 1]), news[|news| - 1].0, news[|news| - 1].1);
    }
  }

  function PoolStep(chainId: nat): (State, Tx) -> Option<State> {
    (s, tx) => ApplyTx(chainId, s, tx)
  }

  /** What is applied for one sender has rising nonces. */
  ghost predicate Rising(txs: seq<Tx>, done: seq<nat>)
    requires forall k | 0 <= k < |done| :: done[k] < |txs|
  {
    forall k, l | 0 <= k < l < |done| && txs[done[k]].from == txs[done[l]].from ::
      txs[done[k]].nonce < txs[done[l]].nonce
  }

  lemma {:induction false} FoldRises(step: (State, Tx) -> Option<State>, s0: State, txs: seq<Tx>, done: seq<nat>,
                                     s: State)
    requires StepTakes(step) && forall k | 0 <= k < |done| :: done[k] < |txs|
    requires Fold(step, s0, txs, done) == Some(s)
    ensures Rising(txs, done) && forall k | 0 <= k < |done| :: txs[done[k]].nonce < NonceAt(s, txs[done[k]].from)
  {
    if done != [] {
      var front := done[..|done| - 1];
      FoldRises(step, s0, txs, front, Fold(step, s0, txs, front).value);
    }
  }

  lemma PoolTakesNonces(chainId: nat)
    ensures StepTakes(PoolStep(chainId))
  {
    forall s: State, tx: Tx ensures PoolStep(chainId)(s, tx).Some? ==>
        TakesNonce(tx, s, PoolStep(chainId)(s, tx).value) {
      if ApplyTx(chainId, s, tx).Some? {
        ApplyTxNonce(chainId, s, tx);
      }
    }
  }

  /** The pool's replay of privacy transactions. */
  method ReplayPrivacyTxs(chainId: nat, s0: State, txs: seq<Tx>)
    returns (s: State, remaining: seq<Option<Tx>>, ghost done: seq<nat>)
    ensures Applies(PoolStep(chainId), s0, txs, done, s, remaining)
    ensures forall i | 0 <= i < |txs| && remaining[i].Some? :: ApplyTx(chainId, s, txs[i]).None?
    ensures Rising(txs, done)
  {
    s, remaining, done := Replay(PoolStep(chainId), s0, txs);
    assert forall i | 0 <= i < |txs| && remaining[i].Some? :: PoolStep(chainId)(s, txs[i]).None?;
    PoolTakesNonces(chainId);
    FoldRises(PoolStep(chainId), s0, txs, done, s);
  }
}
