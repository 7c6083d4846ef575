/** How batched execution changes the total value, for every block, faithful or not. */
module PrivacyDrift {
  import opened Util
  import opened Privacy
  import opened BatchSpec
  import opened BatchRuns
  import opened PrivacyExec
  import PL = PrivacyLedger
  import PB = PrivacyBlocks

  /** What applying a prepared transaction adds to the total: nothing if the balance it claims is the actual one, else
      the difference; and a transfer to oneself keeps the credit and loses the debit. */
  function Drift(p: Prepared): int {
    match p
    case PreparedTransfer(tx, _, _, newSender, feePaid, _, _) =>
      if !tx.Transfer? then 0
      else if tx.from == tx.to then Scale(Worth(tx.commitment) + feePaid)
      else Scale(Worth(tx.source) - Worth(newSender.commitment))
    case PreparedShield(tx, _, _, _, _) =>
      if tx.Shield? then Scale(Worth(tx.commitment) - tx.amount) else 0
    case PreparedUnshield(tx, _, _, zeroed, _, _, _) =>
      if tx.Unshield? then Scale(Worth(tx.source) - Worth(zeroed.commitment)) else 0
  }

  /** Replacing two accounts, which may be the same, and raising a nonce. */
  lemma TwoAccounts(s: State, from: Addr, debit: Account, to: Addr, credit: Account)
    requires IncrementNonce(SetAccount(SetAccount(s, from, debit), to, credit), from).Some?
    ensures var s' := IncrementNonce(SetAccount(SetAccount(s, from, debit), to, credit), from).value;
            PL.Total(s') == PL.Total(s) + Scale(Worth(credit.ct.commitment) - Held(s, to))
                            + if from == to then 0 else Scale(Worth(debit.ct.commitment) - Held(s, from))
  {
    var s1 := SetAccount(s, from, debit);
    PL.TotalSetAccount(s, from, debit);
    PL.TotalSetAccount(s1, to, credit);
    PL.TotalIncrementNonce(SetAccount(s1, to, credit), from);
  }

  /** What a transfer writes. */
  function Debit(p: Prepared, sender: Account): Option<Account>
    requires p.PreparedTransfer? && p.tx.Transfer?
  {
    var ct := Ciphertext(p.tx.source, p.newSender.handle);
    var refunded := if p.feeRefund > 0 then AddScalar(ct, p.feeRefund) else Some(ct);
    if refunded.None? then None else Some(Account(refunded.value, sender.version + 1, sender.nonce))
  }

  function Credit(tx: Tx, receiver: Account): Option<Account>
    requires tx.Transfer?
  {
    var credited := AddCiphertexts(receiver.ct, Ciphertext(tx.commitment, tx.receiverHandle));
    if credited.None? then None else Some(Account(credited.value, receiver.version + 1, receiver.nonce))
  }

  lemma TransferWrites(chainId: nat, s: State, tx: Tx)
    requires tx.Transfer? && PrepareTransfer(chainId, s, tx).Some?
    requires Applied(PrepareTransfer(chainId, s, tx).value, s).Some?
    ensures var p := PrepareTransfer(chainId, s, tx).value;
            var debit, credit := Debit(p, AccountOf(s, tx.from)), Credit(tx, AccountOf(s, tx.to));
            && p.PreparedTransfer? && p.tx == tx && debit.Some? && credit.Some?
            && IncrementNonce(SetAccount(SetAccount(s, tx.from, debit.value), tx.to, credit.value), tx.from).Some?
            && Applied(p, s).value == (IncrementNonce(SetAccount(SetAccount(s, tx.from, debit.value), tx.to,
                credit.value),
                                                      tx.from).value, UnomiToTomi(p.feePaid))
  {
  }

  /** The amounts: what the sender keeps, what the receiver gets, and the fee. */
  lemma TransferAmounts(chainId: nat, s: State, tx: Tx)
    requires tx.Transfer? && PrepareTransfer(chainId, s, tx).Some?
    ensures var p := PrepareTransfer(chainId, s, tx).value;
            && p.feePaid + p.feeRefund == tx.feeLimit
            && Worth(p.newSender.commitment) == Held(s, tx.from) - Worth(tx.commitment) - tx.feeLimit
            && (Debit(p, AccountOf(s, tx.from)).Some? ==>
                  Worth(Debit(p, AccountOf(s, tx.from)).value.ct.commitment) == Worth(tx.source) + p.feeRefund)
            && (Credit(tx, AccountOf(s, tx.to)).Some? ==>
                  Worth(Credit(tx, AccountOf(s, tx.to)).value.ct.commitment) == Held(s, tx.to)
                      + Worth(tx.commitment))
  {
  }

  lemma TransferDrift(chainId: nat, s: State, tx: Tx)
    requires tx.Transfer? && PrepareTransfer(chainId, s, tx).Some?
    requires Applied(PrepareTransfer(chainId, s, tx).value, s).Some?
    ensures var p := PrepareTransfer(chainId, s, tx).value;
            var (s', fee) := Applied(p, s).value;
            PL.Total(s') + fee == PL.Total(s) + Drift(p)
  {
    var p := PrepareTransfer(chainId, s, tx).value;
    TransferWrites(chainId, s, tx);
    TransferAmounts(chainId, s, tx);
    var debit, credit := Debit(p, AccountOf(s, tx.from)).value, Credit(tx, AccountOf(s, tx.to)).value;
    TwoAccounts(s, tx.from, debit, tx.to, credit);
  }

  /** Paying publicly, replacing an account and raising a nonce. */
  lemma PaidAccount(s: State, from: Addr, cost: int, recipient: Addr, credit: Account)
    requires IncrementNonce(SetAccount(AddBalance(s, from, 0 - cost), recipient, credit), from).Some?
    ensures var s' := IncrementNonce(SetAccount(AddBalance(s, from, 0 - cost), recipient, credit), from).value;
            PL.Total(s') == PL.Total(s) - cost + Scale(Worth(credit.ct.commitment) - Held(s, recipient))
  {
    var s1 := AddBalance(s, from, 0 - cost);
    PL.TotalAddBalance(s, from, 0 - cost);
    PL.TotalSetAccount(s1, recipient, credit);
    PL.TotalIncrementNonce(SetAccount(s1, recipient, credit), from);
  }

  lemma ShieldDrift(chainId: nat, s: State, tx: Tx)
    requires tx.Shield? && PrepareShield(chainId, s, tx).Some? && Applied(PrepareShield(chainId, s, tx).value, s).Some?
    ensures var p := PrepareShield(chainId, s, tx).value;
            var (s', fee) := Applied(p, s).value;
            PL.Total(s') + fee == PL.Total(s) + Drift(p)
  {
    var p := PrepareShield(chainId, s, tx).value;
    var recipient := AccountOf(s, tx.recipient);
    var credited := AddCiphertexts(recipient.ct, Ciphertext(tx.commitment, tx.handle)).value;
    PaidAccount(s, tx.from, p.totalCost, tx.recipient, Account(credited, recipient.version + 1, recipient.nonce));
  }

  /** Replacing one account, raising its nonce and paying out. */
  lemma OneAccount(s: State, from: Addr, left: Account, recipient: Addr, net: int)
    requires IncrementNonce(SetAccount(s, from, left), from).Some?
    ensures var s' := AddBalance(IncrementNonce(SetAccount(s, from, left), from).value, recipient, net);
            PL.Total(s') == PL.Total(s) + Scale(Worth(left.ct.commitment) - Held(s, from)) + net
  {
    var s1 := SetAccount(s, from, left);
    PL.TotalSetAccount(s, from, left);
    PL.TotalIncrementNonce(s1, from);
    PL.TotalAddBalance(IncrementNonce(s1, from).value, recipient, net);
  }

  lemma UnshieldDrift(chainId: nat, s: State, tx: Tx)
    requires tx.Unshield? && PrepareUnshield(chainId, s, tx).Some?
    requires Applied(PrepareUnshield(chainId, s, tx).value, s).Some?
    ensures var p := PrepareUnshield(chainId, s, tx).value;
            var (s', fee) := Applied(p, s).value;
            PL.Total(s') + fee == PL.Total(s) + Drift(p)
  {
    var p := PrepareUnshield(chainId, s, tx).value;
    var acct := AccountOf(s, tx.from);
    var left := Account(Ciphertext(tx.source, p.zeroed.handle), acct.version + 1, acct.nonce);
    OneAccount(s, tx.from, left, tx.recipient, p.amountTomi - p.feeTomi);
  }

  /** Applied without a proof check, a transaction changes the total by exactly its drift. */
  lemma SettledDrift(chainId: nat, s: State, tx: Tx, coinbase: Addr)
    requires Prepare(chainId, s, tx).Some? && Settled(Prepare(chainId, s, tx).value, s, coinbase).Some?
    ensures var p := Prepare(chainId, s, tx).value;
            PL.Total(Settled(p, s, coinbase).value) == PL.Total(s) + Drift(p)
  {
    var p := Prepare(chainId, s, tx).value;
    if tx.Transfer? {
      TransferDrift(chainId, s, tx);
    } else if tx.Shield? {
      ShieldDrift(chainId, s, tx);
    } else {
      UnshieldDrift(chainId, s, tx);
    }
    var (s', fee) := Applied(p, s).value;
    PL.TotalAddBalance(s', coinbase, fee);
  }

  /** With its proof verified, only a transfer to oneself drifts. */
  lemma ProvenDrift(chainId: nat, s: State, tx: Tx)
    requires Prepare(chainId, s, tx).Some? && VerifyProofs(Prepare(chainId, s, tx).value)
    ensures Drift(Prepare(chainId, s, tx).value) == PL.Created(tx)
  {
  }

  // Summed up over a block. Each privacy transaction that is applied, alone or in a batch, adds the drift of the record
  // prepared on the state that it is applied to; a public one adds what it creates.

  type PrivacyEnvironment = Env<State, Tx, Prepared>
  type PrivacyRun = Exec<State, Tx, Prepared>

  function SingleDrift(env: PrivacyEnvironment, e: PrivacyRun, tx: Tx): int {
    if Alone(env, e.st, tx).Some? then Drift(env.prepare(e.st, tx).value) else 0
  }

  function UncheckedDrift(env: PrivacyEnvironment, e: PrivacyRun, k: nat): int
    requires k <= |e.cands|
    decreases |e.cands| - k
  {
    if k == |e.cands| then 0
    else
      var c := e.cands[k];
      var t := Tried(env, e.st, c.tx);
      if t.None? then 0 else Drift(t.value.0) + UncheckedDrift(env, Noted(env, e, c.index, c.tx, t.value.1, true),
                                                               k + 1)
  }

  function SinglyDrift(env: PrivacyEnvironment, e: PrivacyRun, k: nat): int
    requires k <= |e.cands|
    decreases |e.cands| - k
  {
    if k == |e.cands| then 0
    else SingleDrift(env, e, e.cands[k].tx) + SinglyDrift(env, Single(env, e, e.cands[k].index, e.cands[k].tx), k + 1)
  }

  function FlushDrift(env: PrivacyEnvironment, e: PrivacyRun): int {
    if |e.cands| == 0 then 0
    else if BatchAccepts(env, e.cands) then
      var u := Unchecked(env, e, 0);
      UncheckedDrift(env, e, 0) + SinglyDrift(env, u.0, u.1)
    else SinglyDrift(env, e, 0)
  }

  ghost function PublicDrift(env: PrivacyEnvironment, f: PrivacyRun, id: nat): int {
    var r := env.public(f.st, id);
    if r.Rejected? then 0 else PL.Total(r.st) - PL.Total(f.st)
  }

  ghost function ItemDrift(b: PB.PrivacyBlock, e: PrivacyRun, i: nat): int
    requires i < |b.items|
  {
    var before := Before(b, e, i);
    match b.items[i]
    case Priv(tx) =>
      if Tried(b.env, before.copy.value, tx).Some? then 0
      else FlushDrift(b.env, before) + SingleDrift(b.env, Flushed(b.env, before), tx)
    case Pub(id, _) => FlushDrift(b.env, before) + PublicDrift(b.env, Flushed(b.env, before), id)
  }

  ghost function RunDrift(b: PB.PrivacyBlock, n: nat): int
    requires n <= |b.items|
  {
    if n == 0 || Batched(b, n - 1).None? then 0 else RunDrift(b, n - 1) + ItemDrift(b, Batched(b, n - 1).value, n - 1)
  }

  ghost function BlockDrift(b: PB.PrivacyBlock): int {
    var e := Batched(b, |b.items|);
    RunDrift(b, |b.items|) + if e.Some? then FlushDrift(b.env, e.value) else 0
  }

  /** Whatever is applied changes the total by its drift. */
  ghost predicate Drifts(env: PrivacyEnvironment) {
    forall s: State, tx: Tx {:trigger Tried(env, s, tx)} :: Tried(env, s, tx).Some? ==>
      PL.Total(Tried(env, s, tx).value.1) == PL.Total(s) + Drift(Tried(env, s, tx).value.0)
  }

  lemma PrivacyDrifts(env: PrivacyEnvironment, chainId: nat, coinbase: Addr)
    requires env == PrivacyEnv(chainId, coinbase, env.public)
    ensures Drifts(env)
  {
    forall s: State, tx: Tx | Tried(env, s, tx).Some?
      ensures PL.Total(Tried(env, s, tx).value.1) == PL.Total(s) + Drift(Tried(env, s, tx).value.0) {
      SettledDrift(chainId, s, tx, coinbase);
    }
  }

  lemma SingleTotal(env: PrivacyEnvironment, e: PrivacyRun, i: nat, tx: Tx)
    requires Drifts(env)
    ensures PL.Total(Single(env, e, i, tx).st) == PL.Total(e.st) + SingleDrift(env, e, tx)
  {
    assert Alone(env, e.st, tx).Some? ==> Tried(env, e.st, tx).Some?;
  }

  lemma {:induction false} UncheckedTotal(env: PrivacyEnvironment, e: PrivacyRun, k: nat)
    requires Drifts(env) && k <= |e.cands|
    ensures PL.Total(Unchecked(env, e, k).0.st) == PL.Total(e.st) + UncheckedDrift(env, e, k)
    decreases |e.cands| - k
  {
    if k < |e.cands| && Tried(env, e.st, e.cands[k].tx).Some? {
      var c := e.cands[k];
      UncheckedTotal(env, Noted(env, e, c.index, c.tx, Tried(env, e.st, c.tx).value.1, true), k + 1);
    }
  }

  lemma {:induction false} SinglyTotal(env: PrivacyEnvironment, e: PrivacyRun, k: nat)
    requires Drifts(env) && k <= |e.cands|
    ensures PL.Total(Singly(env, e, k).st) == PL.Total(e.st) + SinglyDrift(env, e, k)
    decreases |e.cands| - k
  {
    if k < |e.cands| {
      SingleTotal(env, e, e.cands[k].index, e.cands[k].tx);
      SinglyTotal(env, Single(env, e, e.cands[k].index, e.cands[k].tx), k + 1);
    }
  }

  lemma FlushTotal(env: PrivacyEnvironment, e: PrivacyRun)
    requires Drifts(env)
    ensures PL.Total(Flushed(env, e).st) == PL.Total(e.st) + FlushDrift(env, e)
  {
    UncheckedTotal(env, e, 0);
    var u := if BatchAccepts(env, e.cands) then Unchecked(env, e, 0) else (e, 0);
    SinglyTotal(env, u.0, u.1);
  }

  lemma StepTotal(b: PB.PrivacyBlock, e: PrivacyRun, i: nat)
    requires Drifts(b.env) && i < |b.items| && StepOf(b, e, i).Some?
    ensures PL.Total(StepOf(b, e, i).value.st) == PL.Total(e.st) + ItemDrift(b, e, i)
  {
    var before := Before(b, e, i);
    FlushTotal(b.env, before);
    if b.items[i].Priv? {
      SingleTotal(b.env, Flushed(b.env, before), i, b.items[i].tx);
    }
  }

  /** Up to item `n`, the total is off by the drift so far. */
  ghost predicate OffByDrift(b: PB.PrivacyBlock, n: nat)
    requires n <= |b.items|
  {
    Batched(b, n).Some? ==> PL.Total(Batched(b, n).value.st) == PL.Total(b.start) + RunDrift(b, n)
  }

  lemma StartTotal(b: PB.PrivacyBlock)
    ensures OffByDrift(b, 0)
  {
    assert Batched(b, 0).value.st == b.start && RunDrift(b, 0) == 0;
  }

  lemma ItemTotal(b: PB.PrivacyBlock, n: nat)
    requires Drifts(b.env) && n < |b.items| && OffByDrift(b, n)
    ensures OffByDrift(b, n + 1)
  {
    if Batched(b, n).Some? && Batched(b, n + 1).Some? {
      var e := Batched(b, n).value;
      BatchedNext(b, n);
      StepTotal(b, e, n);
      assert RunDrift(b, n + 1) == RunDrift(b, n) + ItemDrift(b, e, n);
    }
  }

  lemma {:induction false} BatchedTotal(b: PB.PrivacyBlock, n: nat)
    requires Drifts(b.env) && n <= |b.items|
    ensures OffByDrift(b, n)
  {
    if n == 0 {
      StartTotal(b);
    } else {
      BatchedTotal(b, n - 1);
      ItemTotal(b, n - 1);
    }
  }

  /** Every block that is not aborted changes the total by exactly its drift, and so conserves it iff that is zero. */
  lemma FinalTotal(b: PB.PrivacyBlock, chainId: nat, coinbase: Addr)
    requires PB.OnChain(b, chainId, coinbase) && Final(b).Some?
    ensures PL.Total(Final(b).value.st) == PL.Total(b.start) + BlockDrift(b)
  {
    PrivacyDrifts(b.env, chainId, coinbase);
    BatchedTotal(b, |b.items|);
    FlushTotal(b.env, Batched(b, |b.items|).value);
  }
}
