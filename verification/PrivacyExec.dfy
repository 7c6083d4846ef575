/** Privacy transactions applied in place to a state database, alone and in blocks. */
module PrivacyExec {
  import opened Util
  import opened Privacy
  import opened PrivacyRules
  import opened BatchSpec
  import opened BatchExec

  /** Applies a prepared transaction, writing as it goes; a failure may leave partial writes. */
  method ApplyState(p: Prepared, db: StateDB<State>) returns (ok: bool, fee: nat)
    modifies db
    ensures ok <==> Applied(p, old(db.st)).Some?
    ensures ok ==> Applied(p, old(db.st)) == Some((db.st, fee))
  {
    fee := 0;
    match p
    case PreparedTransfer(tx, inSender, inReceiver, newSender, feePaid, feeRefund, _) =>
      if !tx.Transfer? {
        return false, 0;
      }
      var sender := AccountOf(db.st, tx.from);
      if sender != inSender {
        return false, 0;
      }
      var receiver := AccountOf(db.st, tx.to);
      if receiver != inReceiver {
        return false, 0;
      }
      var ct := Ciphertext(tx.source, newSender.handle);
      if feeRefund > 0 {
        var refunded := AddScalar(ct, feeRefund);
        if refunded.None? {
          return false, 0;
        }
        ct := refunded.value;
      }
      db.st := SetAccount(db.st, tx.from, Account(ct, sender.version + 1, sender.nonce));
      var credited := AddCiphertexts(receiver.ct, Ciphertext(tx.commitment, tx.receiverHandle));
      if credited.None? {
        return false, 0;
      }
      db.st := SetAccount(db.st, tx.to, Account(credited.value, receiver.version + 1, receiver.nonce));
      var next := IncrementNonce(db.st, tx.from);
      if next.None? {
        return false, 0;
      }
      db.st := next.value;
      return true, UnomiToTomi(feePaid);
    case PreparedShield(tx, inBalance, inRecipient, totalCost, _) =>
      if !tx.Shield? || Balance(db.st, tx.from) != inBalance {
        return false, 0;
      }
      var recipient := AccountOf(db.st, tx.recipient);
      if recipient != inRecipient {
        return false, 0;
      }
      db.st := AddBalance(db.st, tx.from, 0 - totalCost);
      var credited := AddCiphertexts(recipient.ct, Ciphertext(tx.commitment, tx.handle));
      if credited.None? {
        return false, 0;
      }
      db.st := SetAccount(db.st, tx.recipient, Account(credited.value, recipient.version + 1, recipient.nonce));
      var next := IncrementNonce(db.st, tx.from);
      if next.None? {
        return false, 0;
      }
      db.st := next.value;
      return true, UnomiToTomi(tx.fee);
    case PreparedUnshield(tx, inAccount, inBalance, zeroed, amountTomi, feeTomi, _) =>
      if !tx.Unshield? {
        return false, 0;
      }
      var acct := AccountOf(db.st, tx.from);
      if acct != inAccount || Balance(db.st, tx.recipient) != inBalance {
        return false, 0;
      }
      db.st := SetAccount(db.st, tx.from, Account(Ciphertext(tx.source, zeroed.handle), acct.version + 1, acct.nonce));
      var next := IncrementNonce(db.st, tx.from);
      if next.None? {
        return false, 0;
      }
      db.st := AddBalance(next.value, tx.recipient, amountTomi - feeTomi);
      return true, feeTomi;
  }

  /** Applies and credits the fee, or restores the snapshot. */
  method ApplyPrepared(p: Prepared, db: StateDB<State>, coinbase: Addr) returns (ok: bool)
    modifies db
    ensures ok <==> Settled(p, old(db.st), coinbase).Some?
    ensures db.st == if ok then Settled(p, old(db.st), coinbase).value else old(db.st)
  {
    var snap := db.st;
    var fee;
    ok, fee := ApplyState(p, db);
    if !ok {
      db.st := snap;
      return;
    }
    if fee > 0 {
      db.st := AddBalance(db.st, coinbase, fee);
    }
  }

  /** Executes one privacy transaction alone. */
  method ExecuteSingle(chainId: nat, db: StateDB<State>, tx: Tx, coinbase: Addr) returns (ok: bool)
    modifies db
    ensures ok <==> ExecOne(chainId, old(db.st), tx, coinbase).Some?
    ensures db.st == if ok then ExecOne(chainId, old(db.st), tx, coinbase).value else old(db.st)
    ensures ok ==> TakesNonce(tx, old(db.st), db.st)
  {
    if ExecOne(chainId, db.st, tx, coinbase).Some? { ExecOneNonce(chainId, db.st, tx, coinbase); }
    var p := Prepare(chainId, db.st, tx);
    ok := p.Some? && VerifyProofs(p.value);
    if ok {
      ok := ApplyPrepared(p.value, db, coinbase);
    }
  }

  /** The block executor's environment for privacy transactions. */
  function PrivacyEnv(chainId: nat, coinbase: Addr, public: (State, nat) -> Outcome<State>): Env<State, Tx, Prepared> {
    Env((s, tx) => Prepare(chainId, s, tx), p => VerifyProofs(p), (p, s) => Settled(p, s, coinbase), public,
        (tx: Tx) => tx.id)
  }

  /** In this environment the reference executes each privacy transaction by itself. */
  lemma PrivacyEnvAlone(chainId: nat, coinbase: Addr, public: (State, nat) -> Outcome<State>, s: State, tx: Tx)
    ensures Alone(PrivacyEnv(chainId, coinbase, public), s, tx) == ExecOne(chainId, s, tx, coinbase)
  {
  }

  /** Executing one privacy transaction by itself. */
  function OneAlone(chainId: nat, coinbase: Addr): (State, Tx) -> Option<State> {
    (s: State, tx: Tx) => ExecOne(chainId, s, tx, coinbase)
  }

  /** A block of nothing but privacy transactions always completes, and leaves exactly the state and
      the receipts of executing them one after another. */
  method ExecutePrivacyBlock(chainId: nat, coinbase: Addr, db: StateDB<State>, gp: int, txs: seq<Tx>)
    returns (receipts: seq<Option<Receipt>>)
    modifies db
    ensures var ref := Serial(OneAlone(chainId, coinbase), old(db.st), txs, |txs|);
            && db.st == ref.0
            && |receipts| == |txs|
            && forall i | 0 <= i < |txs| :: receipts[i] == Some(Receipt(txs[i].id, i, ref.1[i], 0, 0))
  {
    var public := (s: State, id: nat) => Rejected;
    var env := PrivacyEnv(chainId, coinbase, public);
    var items := seq(|txs|, i requires 0 <= i < |txs| => Priv(txs[i]));
    ghost var s0 := db.st;
    var ex := new Executor(env, db, gp, items);
    PrivacyLastFaithful(ex.block);
    PrivacyReference(chainId, coinbase, public, s0, gp, items, txs);
    var ok, wrong := ex.ExecuteTransactions();
    receipts := ex.receipts;
  }

  lemma PrivacyReference(chainId: nat, coinbase: Addr, public: (State, nat) -> Outcome<State>, s: State, gp: int,
                         items: seq<Item<Tx>>, txs: seq<Tx>)
    requires |txs| == |items| && forall i | 0 <= i < |txs| :: items[i] == Priv(txs[i])
    ensures var ref := Reference(Block(PrivacyEnv(chainId, coinbase, public), s, gp, items), |txs|);
            var ser := Serial(OneAlone(chainId, coinbase), s, txs, |txs|);
            && ref.Some? && ref.value.st == ser.0 && ref.value.gas == 0
            && forall i | 0 <= i < |txs| :: ref.value.receipts[i] == Receipt(txs[i].id, i, ser.1[i], 0, 0)
  {
    var env, one := PrivacyEnv(chainId, coinbase, public), OneAlone(chainId, coinbase);
    forall s: State, tx: Tx ensures Alone(env, s, tx) == one(s, tx) {
      PrivacyEnvAlone(chainId, coinbase, public, s, tx);
    }
    SerialIsReference(Block(env, s, gp, items), one, txs, |txs|);
  }
}
