/** Conservation of value across public and private balances. */
module PrivacyLedger {
  import opened Util
  import opened Sums
  import opened Privacy
  import BatchSpec
  import PrivacyExec

  /** The private balance of every account. */
  ghost function PrivateBalances(s: State): map<nat, int> {
    map a | a in s.accounts :: Worth(s.accounts[a].ct.commitment)
  }

  /** All value in existence, in public units. */
  ghost function Total(s: State): int {
    Sum(s.balances) + Scale(Sum(PrivateBalances(s)))
  }

  /** No balance is negative, and every stored ciphertext decodes. */
  ghost predicate Sound(s: State) {
    && (forall a | a in s.balances :: s.balances[a] >= 0)
    && (forall a | a in s.accounts :: GoodAccount(s.accounts[a]))
  }

  predicate GoodAccount(a: Account) {
    a.ct.commitment.Some? && a.ct.commitment.value >= 0 && a.ct.handle.Some?
  }

  lemma TotalAddBalance(s: State, a: Addr, v: int)
    ensures Total(AddBalance(s, a, v)) == Total(s) + v
  {
    SumUpdate(s.balances, a, Balance(s, a) + v);
    assert PrivateBalances(AddBalance(s, a, v)) == PrivateBalances(s);
  }

  lemma TotalSetAccount(s: State, a: Addr, acct: Account)
    ensures Total(SetAccount(s, a, acct)) == Total(s)
            + Scale(Worth(acct.ct.commitment) - Worth(AccountOf(s, a).ct.commitment))
  {
    var pb := PrivateBalances(s);
    SumUpdate(pb, a, Worth(acct.ct.commitment));
    assert PrivateBalances(SetAccount(s, a, acct)) == pb[a := Worth(acct.ct.commitment)];
    assert At(pb, a) == Worth(AccountOf(s, a).ct.commitment);
  }

  /** Raising a nonce moves no value. */
  lemma TotalIncrementNonce(s: State, a: Addr)
    requires IncrementNonce(s, a).Some?
    ensures Total(IncrementNonce(s, a).value) == Total(s)
    ensures Sound(s) ==> Sound(IncrementNonce(s, a).value)
  {
    var acct := AccountOf(s, a);
    TotalSetAccount(s, a, acct.(nonce := acct.nonce + 1));
  }

  lemma SoundAddBalance(s: State, a: Addr, v: int)
    requires Sound(s) && Balance(s, a) + v >= 0
    ensures Sound(AddBalance(s, a, v))
  {
  }

  lemma SoundSetAccount(s: State, a: Addr, acct: Account)
    requires Sound(s) && GoodAccount(acct)
    ensures Sound(SetAccount(s, a, acct))
  {
  }

  lemma SoundAccountOf(s: State, a: Addr)
    requires Sound(s)
    ensures GoodAccount(AccountOf(s, a))
  {
  }

  /** Setting an account and raising a nonce. */
  lemma CreditTotal(s: State, a: Addr, acct: Account, from: Addr)
    requires IncrementNonce(SetAccount(s, a, acct), from).Some?
    ensures var s' := IncrementNonce(SetAccount(s, a, acct), from).value;
            && Total(s') == Total(s) + Scale(Worth(acct.ct.commitment) - Worth(AccountOf(s, a).ct.commitment))
            && (Sound(s) && GoodAccount(acct) ==> Sound(s'))
  {
    TotalSetAccount(s, a, acct);
    if Sound(s) && GoodAccount(acct) {
      SoundSetAccount(s, a, acct);
    }
    TotalIncrementNonce(SetAccount(s, a, acct), from);
  }

  /** An account after a change of its balance and handle. */
  function Changed(acct: Account, amount: int, handle: int): Account {
    Account(Ciphertext(Some(Worth(acct.ct.commitment) + amount), Some(Worth(acct.ct.handle) + handle)),
            acct.version + 1, acct.nonce)
  }

  function TransferDebit(s: State, tx: Tx): Account
    requires tx.Transfer?
  {
    Changed(AccountOf(s, tx.from), -Worth(tx.commitment) - Max(tx.fee, UNO_BASE_FEE), -Worth(tx.senderHandle))
  }

  function TransferCredit(s: State, tx: Tx): Account
    requires tx.Transfer?
  {
    Changed(AccountOf(s, tx.to), Worth(tx.commitment), Worth(tx.receiverHandle))
  }

  function ShieldCredit(s: State, tx: Tx): Account
    requires tx.Shield?
  {
    Changed(AccountOf(s, tx.recipient), tx.amount, Worth(tx.handle))
  }

  function UnshieldDebit(s: State, tx: Tx): Account
    requires tx.Unshield?
  {
    Changed(AccountOf(s, tx.from), 0 - tx.amount, 0)
  }

  // Each kind of transaction, first what its checks establish, then what it does to the total.

  lemma TransferFacts(chainId: nat, s: State, tx: Tx)
    requires tx.Transfer? && Sound(s)
    requires var p := PrepareTransfer(chainId, s, tx); p.Some? && VerifyProofs(p.value) && Applied(p.value, s).Some?
    ensures var sender, receiver := AccountOf(s, tx.from), AccountOf(s, tx.to);
            var (s', fee) := Applied(PrepareTransfer(chainId, s, tx).value, s).value;
            var paid := Max(tx.fee, UNO_BASE_FEE);
            var a1, a2 := TransferDebit(s, tx), TransferCredit(s, tx);
              && GoodAccount(a1) && GoodAccount(a2) && fee == Scale(paid) && tx.commitment.Some?
                  && tx.commitment.value >= 0
              && a1.ct.commitment.value == sender.ct.commitment.value - tx.commitment.value - paid
              && a2.ct.commitment.value == receiver.ct.commitment.value + tx.commitment.value
              && IncrementNonce(SetAccount(SetAccount(s, tx.from, a1), tx.to, a2), tx.from) == Some(s')
  {
    var p := PrepareTransfer(chainId, s, tx).value;
    var sender, receiver := AccountOf(s, tx.from), AccountOf(s, tx.to);
    SoundAccountOf(s, tx.from);
    SoundAccountOf(s, tx.to);
    assert GoodAccount(TransferDebit(s, tx)) && GoodAccount(TransferCredit(s, tx));
  }

  lemma TransferTotal(chainId: nat, s: State, tx: Tx)
    requires tx.Transfer? && Sound(s)
    requires var p := PrepareTransfer(chainId, s, tx); p.Some? && VerifyProofs(p.value) && Applied(p.value, s).Some?
    ensures var (s', fee) := Applied(PrepareTransfer(chainId, s, tx).value, s).value;
            Sound(s') && fee >= 0 && Total(s') + fee == Total(s) + Created(tx) && Worth(tx.commitment) >= 0
  {
    TransferFacts(chainId, s, tx);
    var (s', fee) := Applied(PrepareTransfer(chainId, s, tx).value, s).value;
    var sender, receiver := AccountOf(s, tx.from), AccountOf(s, tx.to);
    var paid := Max(tx.fee, UNO_BASE_FEE);
    var a1, a2 := TransferDebit(s, tx), TransferCredit(s, tx);
    SoundAccountOf(s, tx.from);
    SoundAccountOf(s, tx.to);
    TotalSetAccount(s, tx.from, a1);
    SoundSetAccount(s, tx.from, a1);
    CreditTotal(SetAccount(s, tx.from, a1), tx.to, a2, tx.from);
  }

  lemma ShieldFacts(chainId: nat, s: State, tx: Tx)
    requires tx.Shield? && Sound(s)
    requires var p := PrepareShield(chainId, s, tx); p.Some? && VerifyProofs(p.value) && Applied(p.value, s).Some?
    ensures var cost := UnomiToTomi(tx.amount) + UnomiToTomi(tx.fee);
            var recipient := AccountOf(s, tx.recipient);
            var (s', fee) := Applied(PrepareShield(chainId, s, tx).value, s).value;
            var acct := ShieldCredit(s, tx);
              && GoodAccount(acct) && fee == UnomiToTomi(tx.fee) && Balance(s, tx.from) >= cost
              && acct.ct.commitment.value == recipient.ct.commitment.value + tx.amount
              && IncrementNonce(SetAccount(AddBalance(s, tx.from, 0 - cost), tx.recipient, acct), tx.from) == Some(s')
  {
    var recipient := AccountOf(s, tx.recipient);
    SoundAccountOf(s, tx.recipient);
    assert GoodAccount(ShieldCredit(s, tx));
  }

  /** Paying `cost` publicly and crediting an account privately. */
  lemma ShieldMoves(s: State, from: Addr, cost: nat, recipient: Addr, acct: Account)
    requires Sound(s) && GoodAccount(acct) && Balance(s, from) >= cost
    requires IncrementNonce(SetAccount(AddBalance(s, from, 0 - cost), recipient, acct), from).Some?
    ensures var s' := IncrementNonce(SetAccount(AddBalance(s, from, 0 - cost), recipient, acct), from).value;
            && Sound(s')
            && Total(s') == Total(s) - cost
                + Scale(Worth(acct.ct.commitment) - Worth(AccountOf(s, recipient).ct.commitment))
  {
    TotalAddBalance(s, from, 0 - cost);
    SoundAddBalance(s, from, 0 - cost);
    CreditTotal(AddBalance(s, from, 0 - cost), recipient, acct, from);
  }

  lemma ShieldTotal(chainId: nat, s: State, tx: Tx)
    requires tx.Shield? && Sound(s)
    requires var p := PrepareShield(chainId, s, tx); p.Some? && VerifyProofs(p.value) && Applied(p.value, s).Some?
    ensures var (s', fee) := Applied(PrepareShield(chainId, s, tx).value, s).value;
            Sound(s') && fee >= 0 && Total(s') + fee == Total(s)
  {
    ShieldFacts(chainId, s, tx);
    var (s', fee) := Applied(PrepareShield(chainId, s, tx).value, s).value;
    ShieldBalance(s, tx.from, tx.recipient, ShieldCredit(s, tx), tx.amount, tx.fee, s');
  }

  lemma ShieldBalance(s: State, from: Addr, recipient: Addr, acct: Account, amount: nat, fee: nat, s': State)
    requires Sound(s) && GoodAccount(acct) && Balance(s, from) >= UnomiToTomi(amount) + UnomiToTomi(fee)
    requires acct.ct.commitment.value == AccountOf(s, recipient).ct.commitment.value + amount
    requires IncrementNonce(SetAccount(AddBalance(s, from, 0 - (UnomiToTomi(amount) + UnomiToTomi(fee))), recipient,
                                       acct), from) == Some(s')
    ensures Sound(s') && Total(s') + UnomiToTomi(fee) == Total(s)
  {
    SoundAccountOf(s, recipient);
    ShieldMoves(s, from, UnomiToTomi(amount) + UnomiToTomi(fee), recipient, acct);
  }

  lemma UnshieldFacts(chainId: nat, s: State, tx: Tx)
    requires tx.Unshield? && Sound(s)
    requires var p := PrepareUnshield(chainId, s, tx); p.Some? && VerifyProofs(p.value) && Applied(p.value, s).Some?
    ensures var net := UnomiToTomi(tx.amount) - UnomiToTomi(tx.fee);
            var (s', fee) := Applied(PrepareUnshield(chainId, s, tx).value, s).value;
            var acct := UnshieldDebit(s, tx);
              && GoodAccount(acct) && fee == UnomiToTomi(tx.fee) && Balance(s, tx.recipient) + net >= 0
              && acct.ct.commitment.value == AccountOf(s, tx.from).ct.commitment.value - tx.amount
              && IncrementNonce(SetAccount(s, tx.from, acct), tx.from).Some?
              && s' == AddBalance(IncrementNonce(SetAccount(s, tx.from, acct), tx.from).value, tx.recipient, net)
  {
    var p := PrepareUnshield(chainId, s, tx).value;
    var acct := AccountOf(s, tx.from);
    SoundAccountOf(s, tx.from);
    assert GoodAccount(UnshieldDebit(s, tx));
  }

  lemma UnshieldTotal(chainId: nat, s: State, tx: Tx)
    requires tx.Unshield? && Sound(s)
    requires var p := PrepareUnshield(chainId, s, tx); p.Some? && VerifyProofs(p.value) && Applied(p.value, s).Some?
    ensures var (s', fee) := Applied(PrepareUnshield(chainId, s, tx).value, s).value;
            Sound(s') && fee >= 0 && Total(s') + fee == Total(s)
  {
    UnshieldFacts(chainId, s, tx);
    var net := UnomiToTomi(tx.amount) - UnomiToTomi(tx.fee);
    var (s', fee) := Applied(PrepareUnshield(chainId, s, tx).value, s).value;
    var acct := UnshieldDebit(s, tx);
    SoundAccountOf(s, tx.from);
    CreditTotal(s, tx.from, acct, tx.from);
    var s1 := IncrementNonce(SetAccount(s, tx.from, acct), tx.from).value;
    TotalAddBalance(s1, tx.recipient, net);
    SoundAddBalance(s1, tx.recipient, net);
  }

  /** The value a successful execution creates: none, except that a transfer to oneself keeps the
      credit and loses the debit. */
  ghost function Created(tx: Tx): int {
    if tx.Transfer? && tx.from == tx.to then Scale(Worth(tx.commitment) + Max(tx.fee, UNO_BASE_FEE)) else 0
  }

  /** Settling pays the fee to the coinbase: only what a self-transfer creates is added, and no
      balance goes negative. */
  lemma ExecOneTotal(chainId: nat, s: State, tx: Tx, coinbase: Addr)
    requires Sound(s) && ExecOne(chainId, s, tx, coinbase).Some?
    ensures var s' := ExecOne(chainId, s, tx, coinbase).value;
            Sound(s') && Total(s') == Total(s) + Created(tx)
    ensures Created(tx) >= 0 && (Created(tx) == 0 <==> !(tx.Transfer? && tx.from == tx.to))
  {
    var p := Prepare(chainId, s, tx).value;
    if tx.Transfer? {
      TransferTotal(chainId, s, tx);
    } else if tx.Shield? {
      ShieldTotal(chainId, s, tx);
    } else {
      UnshieldTotal(chainId, s, tx);
    }
    var (s1, fee) := Applied(p, s).value;
    TotalAddBalance(s1, coinbase, fee);
    SoundAddBalance(s1, coinbase, fee);
  }

  /** An accepted transfer to oneself, at position `i` of a run. */
  ghost predicate SelfTransferAt(chainId: nat, coinbase: Addr, s: State, txs: seq<Tx>, n: nat, i: nat)
    requires n <= |txs|
  {
    i < n && txs[i].Transfer? && txs[i].from == txs[i].to
        && BatchSpec.Serial(PrivacyExec.OneAlone(chainId, coinbase), s, txs, n).1[i]
  }

  ghost predicate AnySelfTransfer(chainId: nat, coinbase: Addr, s: State, txs: seq<Tx>, n: nat)
    requires n <= |txs|
  {
    exists i: nat :: SelfTransferAt(chainId, coinbase, s, txs, n, i)
  }

  /** Later transactions do not change who was accepted before them. */
  lemma AcceptedBefore(chainId: nat, coinbase: Addr, s: State, txs: seq<Tx>, n: nat)
    requires 0 < n <= |txs|
    ensures var prev, last := BatchSpec.Serial(PrivacyExec.OneAlone(chainId, coinbase), s, txs, n - 1),
            BatchSpec.Serial(PrivacyExec.OneAlone(chainId, coinbase), s, txs, n);
            && last.1[..n - 1] == prev.1
            && last.1[n - 1] == ExecOne(chainId, prev.0, txs[n - 1], coinbase).Some?
            && last.0 == (if last.1[n - 1] then ExecOne(chainId, prev.0, txs[n - 1], coinbase).value else prev.0)
  {
  }

  lemma SelfTransfersBefore(chainId: nat, coinbase: Addr, s: State, txs: seq<Tx>, n: nat)
    requires 0 < n <= |txs|
    ensures AnySelfTransfer(chainId, coinbase, s, txs, n) <==>
              AnySelfTransfer(chainId, coinbase, s, txs, n - 1) || SelfTransferAt(chainId, coinbase, s, txs, n, n - 1)
  {
    AcceptedBefore(chainId, coinbase, s, txs, n);
    var last := BatchSpec.Serial(PrivacyExec.OneAlone(chainId, coinbase), s, txs, n).1;
    forall i: nat | i < n - 1
      ensures SelfTransferAt(chainId, coinbase, s, txs, n, i) == SelfTransferAt(chainId, coinbase, s, txs, n - 1, i)
    {
      assert last[..n - 1][i] == last[i];
    }
    if AnySelfTransfer(chainId, coinbase, s, txs, n - 1) {
      var i: nat :| SelfTransferAt(chainId, coinbase, s, txs, n - 1, i);
      assert SelfTransferAt(chainId, coinbase, s, txs, n, i);
    }
  }

  /** Over every run of privacy transactions, whichever of them are accepted, no balance goes
      negative and the total never falls; it is conserved exactly when no transfer to oneself was
      accepted. */
  lemma {:induction false} RunConserves(chainId: nat, coinbase: Addr, s: State, txs: seq<Tx>, n: nat)
    requires Sound(s) && n <= |txs|
    ensures var s' := BatchSpec.Serial(PrivacyExec.OneAlone(chainId, coinbase), s, txs, n).0;
            && Sound(s') && Total(s') >= Total(s)
            && (Total(s') == Total(s) <==> !AnySelfTransfer(chainId, coinbase, s, txs, n))
  {
    if n > 0 {
      RunConserves(chainId, coinbase, s, txs, n - 1);
      AcceptedBefore(chainId, coinbase, s, txs, n);
      SelfTransfersBefore(chainId, coinbase, s, txs, n);
      var prev := BatchSpec.Serial(PrivacyExec.OneAlone(chainId, coinbase), s, txs, n - 1).0;
      if ExecOne(chainId, prev, txs[n - 1], coinbase).Some? {
        ExecOneTotal(chainId, prev, txs[n - 1], coinbase);
      }
    }
  }

  // A transfer to oneself that is accepted: account 1 holds 10 and sends 3 to itself with a fee of 1; it ends with 13.

  const SELF_STATE := State(map[], map[1 := Account(Ciphertext(Some(10), Some(0)), 0, 0)], map[], map[], map[])

  function SelfTransfer(chainId: nat): Tx {
    var ct := Ciphertext(Some(3), Some(0));
    var ctx := TransferCtx(chainId, 0, 1, 1, 1, 1, ct, ct, Some(6), 0);
    Transfer(0, 1, 1, Some(3), Some(0), Some(0), Some(6), 1, 1, 0, 0, true, Auditor(0, 0), Terminal(0, 0),
             {CtValidity(Some(3), Some(0), Some(0), 1, 1, ctx),
              CommitmentEq(1, Ciphertext(Some(6), Some(0)), Some(6), ctx),
              InRange(Some(6)), InRange(Some(3))})
  }

  lemma SelfTransferCreates(chainId: nat, coinbase: Addr)
    ensures Sound(SELF_STATE) && AnySelfTransfer(chainId, coinbase, SELF_STATE, [SelfTransfer(chainId)], 1)
    ensures var one, txs := PrivacyExec.OneAlone(chainId, coinbase), [SelfTransfer(chainId)];
            var s' := BatchSpec.Serial(one, SELF_STATE, txs, 1).0;
            && AccountOf(s', 1).ct.commitment == Some(13) && Balance(s', coinbase) == Scale(1)
            && Total(s') == Total(SELF_STATE) + Scale(4)
  {
    var tx := SelfTransfer(chainId);
    var p := Prepare(chainId, SELF_STATE, tx);
    assert p.Some? && VerifyProofs(p.value);
    ExecOneTotal(chainId, SELF_STATE, tx, coinbase);
    AcceptedBefore(chainId, coinbase, SELF_STATE, [tx], 1);
    assert SelfTransferAt(chainId, coinbase, SELF_STATE, [tx], 1, 0);
  }
}
