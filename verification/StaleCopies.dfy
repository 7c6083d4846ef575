/** A block that batching gets wrong. A transaction that cannot be prepared leaves a speculative copy behind; a public
    one and a shield that only succeeds alone then change the real state; and a transfer whose proof holds on the copy
    is applied to the real state, where it does not. */
module StaleCopies {
  import opened Util
  import opened Sums
  import opened Privacy
  import opened BatchSpec
  import opened BatchRuns
  import opened BatchExec
  import opened PrivacyExec
  import PL = PrivacyLedger
  import PB = PrivacyBlocks

  const COINBASE: Addr := 0

  /** Account 9 has 6 units in public, account 2 has 10 in private. */
  const START := State(map[9 := Scale(6)], map[2 := Account(Ciphertext(Some(10), Some(0)), 0, 0)], map[], map[], map[])

  /** Account 1 was paid 6 units by account 9. */
  const FUNDED := AddBalance(AddBalance(START, 9, 0 - Scale(6)), 1, Scale(6))

  /** Account 1 shielded 5 of them for account 2. */
  const SHIELDED := State(map[9 := 0, 1 := 0, COINBASE := Scale(1)],
                          map[2 := Account(Ciphertext(Some(15), Some(0)), 1, 0), 1 := Account(ZERO_CT, 0, 1)],
                          map[], map[], map[])

  /** Account 2 sent 3 to account 3, as if it had held 10. */
  const LOST := State(map[9 := 0, 1 := 0, COINBASE := Scale(2)],
                      map[2 := Account(Ciphertext(Some(6), Some(0)), 2, 1), 1 := Account(ZERO_CT, 0, 1),
                          3 := Account(Ciphertext(Some(3), Some(0)), 1, 0)], map[], map[], map[])

  function Payment(): (State, nat) -> Outcome<State> {
    (s: State, id: nat) =>
      if Balance(s, 9) < Scale(6) then Rejected
          else Executed(AddBalance(AddBalance(s, 9, 0 - Scale(6)), 1, Scale(6)), 0, false)
  }

  function Unsigned(): Tx {
    Shield(0, 1, 2, Some(0), Some(0), 0, 1, 0, false, Auditor(0, 0), Terminal(0, 0), {})
  }

  function Deposit(chainId: nat): Tx {
    var ctx := ShieldCtx(chainId, 0, 1, 5, 1, Some(5), Some(0), 0);
    Shield(1, 1, 2, Some(5), Some(0), 5, 1, 0, true, Auditor(0, 0), Terminal(0, 0),
           {Opens(Some(5), Some(0), 2, 5, ctx), InRange(Some(5))})
  }

  /** Proves a balance of 10. */
  function Spend(chainId: nat): Tx {
    var ct := Ciphertext(Some(3), Some(0));
    var ctx := TransferCtx(chainId, 0, 1, 1, 2, 3, ct, ct, Some(6), 0);
    Transfer(2, 2, 3, Some(3), Some(0), Some(0), Some(6), 1, 1, 0, 0, true, Auditor(0, 0), Terminal(0, 0),
             {CtValidity(Some(3), Some(0), Some(0), 2, 3, ctx),
              CommitmentEq(2, Ciphertext(Some(6), Some(0)), Some(6), ctx),
              InRange(Some(6)), InRange(Some(3))})
  }

  function Items(chainId: nat): seq<Item<Tx>> {
    [Priv(Unsigned()), Pub(7, 0), Priv(Deposit(chainId)), Priv(Spend(chainId))]
  }

  function TheBlock(chainId: nat): PB.PrivacyBlock {
    Block(PrivacyEnv(chainId, COINBASE, Payment()), START, 0, Items(chainId))
  }

  // Transaction by transaction.

  lemma UnsignedFails(chainId: nat)
    ensures Prepare(chainId, START, Unsigned()).None?
  {
  }

  lemma DepositFailsOnCopy(chainId: nat)
    ensures Prepare(chainId, START, Deposit(chainId)).None?
  {
  }

  lemma DepositAlone(chainId: nat)
    ensures ExecOne(chainId, FUNDED, Deposit(chainId), COINBASE) == Some(SHIELDED)
  {
    var tx := Deposit(chainId);
    var p := Prepare(chainId, FUNDED, tx);
    assert p.Some? && VerifyProofs(p.value);
    var r := Applied(p.value, FUNDED);
    assert r.Some? && r.value.1 == Scale(1);
    var s := AddBalance(r.value.0, COINBASE, Scale(1));
    assert s.balances == SHIELDED.balances;
    assert s.accounts == SHIELDED.accounts;
  }

  lemma SpendOnCopy(chainId: nat)
    ensures var t := Tried(PrivacyEnv(chainId, COINBASE, Payment()), START, Spend(chainId));
            t.Some? && VerifyProofs(t.value.0)
  {
    var p := Prepare(chainId, START, Spend(chainId));
    assert p.Some? && p.value.newSender == Ciphertext(Some(6), Some(0));
  }

  lemma SpendInTurn(chainId: nat)
    ensures Alone(PrivacyEnv(chainId, COINBASE, Payment()), SHIELDED, Spend(chainId)).None?
    ensures var t := Tried(PrivacyEnv(chainId, COINBASE, Payment()), SHIELDED, Spend(chainId));
            t.Some? && t.value.1 == LOST
  {
    var p := Prepare(chainId, SHIELDED, Spend(chainId));
    assert p.Some? && p.value.newSender == Ciphertext(Some(11), Some(0));
    assert !VerifyProofs(p.value);
    var r := Applied(p.value, SHIELDED);
    assert r.Some? && r.value.1 == Scale(1);
    var s := AddBalance(r.value.0, COINBASE, Scale(1));
    assert s.balances == LOST.balances;
    assert s.accounts == LOST.accounts;
  }

  // Executed in batches.

  /** Between items: the real state, and the copy from the start without candidates. */
  predicate Idle(e: Option<Exec<State, Tx, Prepared>>, s: State) {
    e.Some? && e.value.st == s && e.value.copy == Some(START) && e.value.cands == [] && e.value.gp == 0
  }

  lemma AfterUnsigned(chainId: nat)
    ensures Idle(Batched(TheBlock(chainId), 1), START)
  {
    UnsignedFails(chainId);
    assert Batched(TheBlock(chainId), 0).Some?;
  }

  lemma AfterPayment(chainId: nat)
    ensures Idle(Batched(TheBlock(chainId), 2), FUNDED)
  {
    AfterUnsigned(chainId);
  }

  lemma AfterDeposit(chainId: nat)
    ensures Idle(Batched(TheBlock(chainId), 3), SHIELDED)
  {
    AfterPayment(chainId);
    DepositFailsOnCopy(chainId);
    DepositAlone(chainId);
    PrivacyEnvAlone(chainId, COINBASE, Payment(), FUNDED, Deposit(chainId));
  }

  /** The transfer becomes a candidate. */
  lemma AfterSpend(chainId: nat)
    ensures var e := Batched(TheBlock(chainId), 4);
            && e.Some? && e.value.st == SHIELDED && |e.value.cands| == 1
            && e.value.cands[0].index == 3 && e.value.cands[0].tx == Spend(chainId)
                && VerifyProofs(e.value.cands[0].prepared)
  {
    AfterDeposit(chainId);
    SpendOnCopy(chainId);
  }

  /** It is settled without a check. */
  lemma AfterFlush(chainId: nat)
    ensures var f := Final(TheBlock(chainId));
            f.Some? && f.value.st == LOST && f.value.receipts[3].Some? && f.value.receipts[3].value.success
  {
    var b := TheBlock(chainId);
    AfterSpend(chainId);
    SpendInTurn(chainId);
    FlushOne(b.env, Batched(b, 4).value);
  }

  // Executed one at a time.

  lemma UpToPayment(chainId: nat)
    ensures var b := TheBlock(chainId);
            && Reference(b, 1).Some? && RefState(b, 1) == START && Reference(b, 2).Some? && RefState(b, 2) == FUNDED
  {
    var b := TheBlock(chainId);
    UnsignedFails(chainId);
    PrivacyEnvAlone(chainId, COINBASE, Payment(), START, Unsigned());
    assert RefState(b, 0) == START && Reference(b, 0).value.gp == 0;
    RefPriv(b, 0);
    RefPub(b, 1);
  }

  lemma InTurn(chainId: nat)
    ensures var b := TheBlock(chainId);
            && Reference(b, 3).Some? && RefState(b, 3) == SHIELDED
            && Reference(b, 4).Some? && RefState(b, 4) == SHIELDED && !Reference(b, 4).value.receipts[3].success
  {
    var b := TheBlock(chainId);
    UpToPayment(chainId);
    DepositAlone(chainId);
    PrivacyEnvAlone(chainId, COINBASE, Payment(), FUNDED, Deposit(chainId));
    RefPriv(b, 2);
    SpendInTurn(chainId);
    RefPriv(b, 3);
  }

  // The value lost.

  lemma StartTotal()
    ensures PL.Sound(START) && PL.Total(START) == Scale(16)
  {
    SumUpdate(map[], 9, Scale(6));
    SumUpdate(map[], 2, 10);
    assert START.balances == map[][9 := Scale(6)];
    assert PL.PrivateBalances(START) == map[][2 := 10];
  }

  lemma FundedTotal()
    ensures PL.Sound(FUNDED) && PL.Total(FUNDED) == PL.Total(START)
  {
    PL.TotalAddBalance(START, 9, 0 - Scale(6));
    PL.TotalAddBalance(AddBalance(START, 9, 0 - Scale(6)), 1, Scale(6));
  }

  lemma LostTotal()
    ensures PL.Total(LOST) == Scale(11)
  {
    var none: map<nat, int> := map[];
    SumUpdate(none, 9, 0);
    SumUpdate(none[9 := 0], 1, 0);
    SumUpdate(none[9 := 0][1 := 0], COINBASE, Scale(2));
    assert LOST.balances == none[9 := 0][1 := 0][COINBASE := Scale(2)];
    SumUpdate(none, 2, 6);
    SumUpdate(none[2 := 6], 1, 0);
    SumUpdate(none[2 := 6][1 := 0], 3, 3);
    assert PL.PrivateBalances(LOST) == none[2 := 6][1 := 0][3 := 3];
  }

  lemma PaymentMoves(chainId: nat)
    ensures PB.PublicMoves(TheBlock(chainId))
  {
    UpToPayment(chainId);
    FundedTotal();
    forall i: nat | i < 4 ensures PB.PublicMovesAt(TheBlock(chainId), i) {
      assert i == 1 || TheBlock(chainId).items[i].Priv?;
    }
  }

  lemma NoSelfTransfer(chainId: nat, receipts: seq<Option<Receipt>>)
    ensures !PB.AnySelfTransfer(Items(chainId), receipts)
  {
    forall i: nat ensures !PB.SelfTransferAt(Items(chainId), receipts, i) {
      assert i >= 4 || i == 0 || i == 1 || i == 2 || i == 3;
    }
  }

  lemma TotalFalls(chainId: nat)
    ensures Final(TheBlock(chainId)).Some? && PL.Total(Final(TheBlock(chainId)).value.st) == PL.Total(START) - Scale(5)
  {
    AfterFlush(chainId);
    StartTotal();
    LostTotal();
  }

  lemma WrongReceipt(chainId: nat)
    ensures Final(TheBlock(chainId)).Some? && Diverged(TheBlock(chainId), 3, Final(TheBlock(chainId)).value.receipts)
  {
    AfterFlush(chainId);
    InTurn(chainId);
  }

  /** The block is not faithful. No transfer to oneself is in it and public items only move value, but the total falls
      by 5 units, and the transfer is recorded as successful though it fails in its turn. */
  lemma StaleCopyLoses(chainId: nat)
    ensures var b := TheBlock(chainId);
            && PB.OnChain(b, chainId, COINBASE) && PB.PublicMoves(b) && PL.Sound(b.start) && !Faithful(b)
                && Final(b).Some?
            && Diverged(b, 3, Final(b).value.receipts) && !PB.AnySelfTransfer(b.items, Final(b).value.receipts)
            && PL.Total(Final(b).value.st) == PL.Total(b.start) - Scale(5)
  {
    var b := TheBlock(chainId);
    TotalFalls(chainId);
    WrongReceipt(chainId);
    StartTotal();
    PaymentMoves(chainId);
    NoSelfTransfer(chainId, Final(b).value.receipts);
    if Faithful(b) {
      PB.FaithfulConserves(b, chainId, COINBASE);
    }
  }

  /** What the executor does with it. */
  method ExecuteStale(chainId: nat) returns (db: StateDB<State>, receipts: seq<Option<Receipt>>)
    ensures fresh(db) && PL.Total(db.st) == PL.Total(START) - Scale(5)
    ensures |receipts| == 4 && receipts[3].Some? && receipts[3].value.success
  {
    db := new StateDB(START);
    var ok;
    ok, receipts := PB.ExecuteBlock(chainId, COINBASE, Payment(), db, 0, Items(chainId));
    StaleCopyLoses(chainId);
  }
}
