/** Conservation of value by block execution, where privacy transactions are batched. */
module PrivacyBlocks {
  import opened Util
  import opened Privacy
  import opened BatchSpec
  import opened BatchRuns
  import opened BatchExec
  import opened PrivacyExec
  import PL = PrivacyLedger
  import PN = PrivacyNonces

  type PrivacyBlock = Block<State, Tx, Prepared>

  /** A block of this chain. */
  ghost predicate OnChain(b: PrivacyBlock, chainId: nat, coinbase: Addr) {
    b.env == PrivacyEnv(chainId, coinbase, b.env.public)
  }

  /** The public items of a block only move value, and nobody into debt. */
  ghost predicate PublicMoves(b: PrivacyBlock) {
    forall i: nat | i < |b.items| :: PublicMovesAt(b, i)
  }

  ghost predicate PublicMovesAt(b: PrivacyBlock, i: nat)
    requires i < |b.items|
  {
    b.items[i].Pub? && Reference(b, i + 1).Some? && PL.Sound(RefState(b, i)) ==>
      PL.Sound(RefState(b, i + 1)) && PL.Total(RefState(b, i + 1)) == PL.Total(RefState(b, i))
  }

  /** A transfer to oneself with a successful receipt. */
  predicate SelfTransferAt(items: seq<Item<Tx>>, receipts: seq<Option<Receipt>>, i: nat) {
    && i < |items| && items[i].Priv? && items[i].tx.Transfer? && items[i].tx.from == items[i].tx.to
    && i < |receipts| && receipts[i].Some? && receipts[i].value.success
  }

  ghost predicate AnySelfTransfer(items: seq<Item<Tx>>, receipts: seq<Option<Receipt>>) {
    exists i: nat :: SelfTransferAt(items, receipts, i)
  }

  /** The same among the first `n` items executed one at a time. */
  predicate RefSelfTransfer(b: PrivacyBlock, n: nat, i: nat)
    requires n <= |b.items|
  {
    && i < n && b.items[i].Priv? && b.items[i].tx.Transfer? && b.items[i].tx.from == b.items[i].tx.to
    && Reference(b, n).Some? && Reference(b, n).value.receipts[i].success
  }

  ghost predicate AnyRefSelfTransfer(b: PrivacyBlock, n: nat)
    requires n <= |b.items|
  {
    exists i: nat :: RefSelfTransfer(b, n, i)
  }

  lemma SelfTransfersBefore(b: PrivacyBlock, n: nat)
    requires 0 < n <= |b.items| && Reference(b, n).Some?
    ensures Reference(b, n - 1).Some?
    ensures AnyRefSelfTransfer(b, n) <==> AnyRefSelfTransfer(b, n - 1) || RefSelfTransfer(b, n, n - 1)
  {
    ReferenceKeeps(b, n - 1, n);
    var before, after := Reference(b, n - 1).value.receipts, Reference(b, n).value.receipts;
    forall i: nat | i < n - 1 ensures RefSelfTransfer(b, n, i) == RefSelfTransfer(b, n - 1, i) {
      assert before[i] == after[i];
    }
    if AnyRefSelfTransfer(b, n - 1) {
      var i: nat :| RefSelfTransfer(b, n - 1, i);
      assert RefSelfTransfer(b, n, i);
    }
  }

  /** One privacy item executed alone. */
  lemma ItemTotal(b: PrivacyBlock, chainId: nat, coinbase: Addr, n: nat)
    requires OnChain(b, chainId, coinbase) && n < |b.items| && b.items[n].Priv?
    requires Reference(b, n).Some? && PL.Sound(RefState(b, n))
    ensures Reference(b, n + 1).Some? && PL.Sound(RefState(b, n + 1))
            && PL.Total(RefState(b, n + 1)) >= PL.Total(RefState(b, n))
    ensures PL.Total(RefState(b, n + 1)) == PL.Total(RefState(b, n)) <==> !RefSelfTransfer(b, n + 1, n)
  {
    var s, tx := RefState(b, n), b.items[n].tx;
    PrivacyEnvAlone(chainId, coinbase, b.env.public, s, tx);
    assert Reference(b, n + 1).value.receipts[n].success == ExecOne(chainId, s, tx, coinbase).Some?;
    if ExecOne(chainId, s, tx, coinbase).Some? {
      PL.ExecOneTotal(chainId, s, tx, coinbase);
    }
  }

  /** Executed one at a time, a block keeps every balance non-negative, and its total exactly if no transfer to oneself
      succeeds. */
  lemma {:induction false} ReferenceConserves(b: PrivacyBlock, chainId: nat, coinbase: Addr, n: nat)
    requires OnChain(b, chainId, coinbase) && PublicMoves(b) && PL.Sound(b.start) && n <= |b.items|
             && Reference(b, n).Some?
    ensures PL.Sound(RefState(b, n)) && PL.Total(RefState(b, n)) >= PL.Total(b.start)
    ensures PL.Total(RefState(b, n)) == PL.Total(b.start) <==> !AnyRefSelfTransfer(b, n)
  {
    if n > 0 {
      SelfTransfersBefore(b, n);
      ReferenceConserves(b, chainId, coinbase, n - 1);
      if b.items[n - 1].Priv? {
        ItemTotal(b, chainId, coinbase, n - 1);
      } else {
        assert PublicMovesAt(b, n - 1);
      }
    }
  }

  lemma SelfTransfersAgree(b: PrivacyBlock, st: State, gp: int, gas: nat, receipts: seq<Option<Receipt>>)
    requires DoneUpTo(b, |b.items|, st, gp, gas, receipts)
    ensures AnySelfTransfer(b.items, receipts) <==> AnyRefSelfTransfer(b, |b.items|)
  {
    forall i: nat ensures SelfTransferAt(b.items, receipts, i) == RefSelfTransfer(b, |b.items|, i) {
    }
    if AnyRefSelfTransfer(b, |b.items|) {
      var i: nat :| RefSelfTransfer(b, |b.items|, i);
      assert SelfTransferAt(b.items, receipts, i);
    }
    if AnySelfTransfer(b.items, receipts) {
      var i: nat :| SelfTransferAt(b.items, receipts, i);
      assert RefSelfTransfer(b, |b.items|, i);
    }
  }

  /** Executed in batches, a faithful block that is not aborted does the same. */
  lemma FaithfulConserves(b: PrivacyBlock, chainId: nat, coinbase: Addr)
    requires OnChain(b, chainId, coinbase) && PublicMoves(b) && PL.Sound(b.start) && Faithful(b) && Final(b).Some?
    ensures var f := Final(b).value;
            && PL.Sound(f.st) && PL.Total(f.st) >= PL.Total(b.start)
            && (PL.Total(f.st) == PL.Total(b.start) <==> !AnySelfTransfer(b.items, f.receipts))
  {
    var f := Final(b).value;
    FaithfulMeets(b);
    ReferenceConserves(b, chainId, coinbase, |b.items|);
    SelfTransfersAgree(b, f.st, f.gp, f.gas, f.receipts);
  }

  /** Executes a block. */
  method ExecuteBlock(chainId: nat, coinbase: Addr, public: (State, nat) -> Outcome<State>, db: StateDB<State>, gp: int,
                      items: seq<Item<Tx>>)
    returns (ok: bool, receipts: seq<Option<Receipt>>)
    modifies db
    ensures var b := Block(PrivacyEnv(chainId, coinbase, public), old(db.st), gp, items);
            && (ok <==> Final(b).Some?)
            && (ok ==> db.st == Final(b).value.st && receipts == Final(b).value.receipts)
            && (ok && Faithful(b) && PublicMoves(b) && PL.Sound(old(db.st)) ==>
                  && PL.Sound(db.st) && PL.Total(db.st) >= PL.Total(old(db.st))
                  && (PL.Total(db.st) == PL.Total(old(db.st)) <==> !AnySelfTransfer(items, receipts)))
            && (ok && PN.PublicKeepsNonces(b) ==> PN.Rising(items, receipts))
  {
    var ex := new Executor(PrivacyEnv(chainId, coinbase, public), db, gp, items);
    ghost var b := ex.block;
    ghost var wrong;
    ok, wrong := ex.ExecuteTransactions();
    receipts := ex.receipts;
    if ok && PN.PublicKeepsNonces(b) {
      PN.BlockRises(b, chainId, coinbase);
    }
    if ok && Faithful(b) && PublicMoves(b) && PL.Sound(b.start) {
      FaithfulConserves(b, chainId, coinbase);
    }
  }
}
