/** What a privacy transaction has to meet, and what it changes, kind by kind. */
module PrivacyRules {
  import opened Util
  import opened Privacy

  // Nonces.

  /** `tx` had the sender's next nonce and used it up, and nobody else's nonce changed. */
  ghost predicate TakesNonce(tx: Tx, s: State, s': State) {
    && NonceAt(s, tx.from) == tx.nonce != MAX_UINT64
    && forall a: Addr {:trigger NonceAt(s', a)} :: NonceAt(s', a) == NonceAt(s, a) + if a == tx.from then 1 else 0
  }

  /** So does whatever `step` executes. */
  ghost predicate StepTakes(step: (State, Tx) -> Option<State>) {
    forall s: State, tx: Tx :: step(s, tx).Some? ==> TakesNonce(tx, s, step(s, tx).value)
  }

  lemma TransferNonce(chainId: nat, s: State, tx: Tx)
    requires tx.Transfer? && PrepareTransfer(chainId, s, tx).Some?
    requires Applied(PrepareTransfer(chainId, s, tx).value, s).Some?
    ensures TakesNonce(tx, s, Applied(PrepareTransfer(chainId, s, tx).value, s).value.0)
  {
  }

  lemma ShieldNonce(chainId: nat, s: State, tx: Tx)
    requires tx.Shield? && PrepareShield(chainId, s, tx).Some?
    requires Applied(PrepareShield(chainId, s, tx).value, s).Some?
    ensures TakesNonce(tx, s, Applied(PrepareShield(chainId, s, tx).value, s).value.0)
  {
  }

  lemma UnshieldNonce(chainId: nat, s: State, tx: Tx)
    requires tx.Unshield? && PrepareUnshield(chainId, s, tx).Some?
    requires Applied(PrepareUnshield(chainId, s, tx).value, s).Some?
    ensures TakesNonce(tx, s, Applied(PrepareUnshield(chainId, s, tx).value, s).value.0)
  {
  }

  /** Whatever is prepared and applied takes its nonce, whether its proofs were checked or not. */
  lemma SettledNonce(chainId: nat, s: State, tx: Tx, coinbase: Addr)
    requires Prepare(chainId, s, tx).Some? && Settled(Prepare(chainId, s, tx).value, s, coinbase).Some?
    ensures TakesNonce(tx, s, Settled(Prepare(chainId, s, tx).value, s, coinbase).value)
  {
    if tx.Transfer? {
      TransferNonce(chainId, s, tx);
    } else if tx.Shield? {
      ShieldNonce(chainId, s, tx);
    } else {
      UnshieldNonce(chainId, s, tx);
    }
    var s1 := Applied(Prepare(chainId, s, tx).value, s).value.0;
    assert forall a: Addr :: NonceAt(Settled(Prepare(chainId, s, tx).value, s, coinbase).value, a) == NonceAt(s1, a);
  }

  lemma ExecOneNonce(chainId: nat, s: State, tx: Tx, coinbase: Addr)
    requires ExecOne(chainId, s, tx, coinbase).Some?
    ensures TakesNonce(tx, s, ExecOne(chainId, s, tx, coinbase).value)
  {
    SettledNonce(chainId, s, tx, coinbase);
  }

  // Acceptance.

  predicate Decodes(ct: Ciphertext) { ct.commitment.Some? && ct.handle.Some? }

  /** An auditor's handle comes with its proof just when an auditor key is set. */
  ghost predicate Audited(s: State, tx: Tx, handle: Point, owner: Addr, ctx: Context) {
    if tx.from in s.auditorKeys && s.auditorKeys[tx.from] != 0 then
      && tx.auditor.handle != 0 && tx.auditor.proofLen == 96
      && AuditorDleq(tx.auditor.handle, handle, s.auditorKeys[tx.from], owner, ctx) in tx.proves
    else tx.auditor == Auditor(0, 0)
  }

  lemma AuditorRules(s: State, tx: Tx, handle: Point, owner: Addr, ctx: Context)
    ensures AuditorFields(s, tx) && AuditorProof(s, tx, handle, owner, ctx) <==> Audited(s, tx, handle, owner, ctx)
  {
  }

  /** The wallet's policy for this class of terminal exists, allows the kind of transaction, and sets no limit that the
      amount exceeds; the terminal is trusted as much as it asks for, and at least moderately. */
  ghost predicate Cleared(s: State, tx: Tx, class_: nat, tier: nat) {
    && (tx.from, class_) in s.terminals
    && var policy := s.terminals[(tx.from, class_)];
       && 2 <= tier && policy.minTrust <= tier
       && match tx {
            case Transfer(_, _, _, _, _, _, _, _, _, _, _, _, _, _, _) =>
              policy.allowTransfer && (policy.maxValue == 0 || Scale(tx.feeLimit) <= policy.maxValue)
            case Shield(_, _, _, _, _, _, _, _, _, _, _, _) =>
              policy.allowShield && (policy.maxValue == 0 || Scale(tx.amount) <= policy.maxValue)
            case Unshield(_, _, _, _, _, _, _, _, _, _, _) =>
              policy.allowUnshield && (policy.maxValue == 0 || Scale(tx.amount) <= policy.maxValue)
          }
  }

  /** Only senders with a policy wallet are held to it; no terminal at all counts as the fully trusted application. */
  ghost predicate TerminalClear(s: State, tx: Tx) {
    tx.from in s.owners && s.owners[tx.from] != 0 ==>
      if tx.terminal == Terminal(0, 0) then Cleared(s, tx, 0, 4)
          else Cleared(s, tx, tx.terminal.class_, tx.terminal.tier)
  }

  lemma TerminalRules(s: State, tx: Tx)
    ensures TerminalAllows(s, tx) <==> TerminalClear(s, tx)
  {
  }

  /** Nonce, signature and terminal, which every kind checks alike. */
  ghost predicate Admitted(s: State, tx: Tx) {
    tx.signed && NonceAt(s, tx.from) == tx.nonce != MAX_UINT64 && TerminalClear(s, tx)
  }

  /** When a shield is executed. */
  lemma ShieldAccepted(chainId: nat, s: State, tx: Tx, coinbase: Addr)
    requires tx.Shield?
    ensures var ctx := ShieldCtx(chainId, tx.nonce, tx.fee, tx.amount, tx.from, tx.commitment, tx.handle,
                                 tx.auditor.handle);
            ExecOne(chainId, s, tx, coinbase).Some? <==>
              && Admitted(s, tx) && Audited(s, tx, tx.handle, tx.recipient, ctx)
              && tx.fee >= 1 && Balance(s, tx.from) >= Scale(tx.amount) + Scale(tx.fee)
              && AccountOf(s, tx.recipient).version != MAX_UINT64 && Decodes(AccountOf(s, tx.recipient).ct)
              && tx.commitment == Some(tx.amount) && tx.amount <= MAX_UINT64 && tx.handle.Some?
              && Opens(tx.commitment, tx.handle, tx.recipient, tx.amount, ctx) in tx.proves
              && InRange(tx.commitment) in tx.proves
  {
    var ctx := ShieldCtx(chainId, tx.nonce, tx.fee, tx.amount, tx.from, tx.commitment, tx.handle, tx.auditor.handle);
    AuditorRules(s, tx, tx.handle, tx.recipient, ctx);
    TerminalRules(s, tx);
  }

  /** When an unshield is executed: the claimed remainder is what is left of the actual balance. */
  lemma UnshieldAccepted(chainId: nat, s: State, tx: Tx, coinbase: Addr)
    requires tx.Unshield?
    ensures var ct := AccountOf(s, tx.from).ct;
            var left := Ciphertext(Some(Held(s, tx.from) - tx.amount), ct.handle);
            var ctx := UnshieldCtx(chainId, tx.nonce, tx.fee, tx.amount, tx.from, left, tx.source, tx.auditor.handle);
            ExecOne(chainId, s, tx, coinbase).Some? <==>
              && Admitted(s, tx) && Audited(s, tx, ct.handle, tx.from, ctx)
              && tx.fee >= 1 && Balance(s, tx.recipient) + Scale(tx.amount) >= Scale(tx.fee)
              && AccountOf(s, tx.from).version != MAX_UINT64 && Decodes(ct)
              && tx.source == Some(Held(s, tx.from) - tx.amount) && 0 <= tx.source.value <= MAX_UINT64
              && CommitmentEq(tx.from, left, tx.source, ctx) in tx.proves && InRange(tx.source) in tx.proves
  {
    var ct := AccountOf(s, tx.from).ct;
    var left := Ciphertext(Some(Held(s, tx.from) - tx.amount), ct.handle);
    var ctx := UnshieldCtx(chainId, tx.nonce, tx.fee, tx.amount, tx.from, left, tx.source, tx.auditor.handle);
    AuditorRules(s, tx, ct.handle, tx.from, ctx);
    TerminalRules(s, tx);
    assert Decodes(ct) ==> SubCiphertexts(ct, AddScalar(ZERO_CT, tx.amount).value) == Some(left);
  }

  /** What a transfer claims to leave of the sender's balance, and what its proofs are bound to. */
  function TransferLeft(s: State, tx: Tx): Ciphertext
    requires tx.Transfer?
  {
    Ciphertext(Some(Held(s, tx.from) - Worth(tx.commitment) - tx.feeLimit),
               Some(Worth(AccountOf(s, tx.from).ct.handle) - Worth(tx.senderHandle)))
  }

  function TransferContext(chainId: nat, tx: Tx): Context
    requires tx.Transfer?
  {
    TransferCtx(chainId, tx.nonce, tx.fee, tx.feeLimit, tx.from, tx.to, Ciphertext(tx.commitment, tx.senderHandle),
                Ciphertext(tx.commitment, tx.receiverHandle), tx.source, tx.auditor.handle)
  }

  lemma TransferPrepared(chainId: nat, s: State, tx: Tx)
    requires tx.Transfer?
    ensures var ctx, p := TransferContext(chainId, tx), PrepareTransfer(chainId, s, tx);
            && (p.Some? <==>
                  && tx.signed && NonceAt(s, tx.from) == tx.nonce && Audited(s, tx, tx.receiverHandle, tx.to, ctx)
                  && tx.memoLen <= 1040 && tx.feeLimit >= 1 && tx.feeLimit >= tx.fee
                  && AccountOf(s, tx.from).version != MAX_UINT64 && AccountOf(s, tx.to).version != MAX_UINT64
                  && Decodes(AccountOf(s, tx.from).ct) && tx.commitment.Some? && tx.senderHandle.Some?)
            && (p.Some? ==>
                  p.value == PreparedTransfer(tx, AccountOf(s, tx.from), AccountOf(s, tx.to), TransferLeft(s, tx),
                                              Max(tx.fee, 1), tx.feeLimit - Max(tx.fee, 1), ctx))
  {
    AuditorRules(s, tx, tx.receiverHandle, tx.to, TransferContext(chainId, tx));
  }

  lemma TransferApplied(s: State, tx: Tx, left: Ciphertext, paid: nat, refund: int, ctx: Context)
    requires tx.Transfer?
    ensures refund >= 0 && tx.source.Some? ==>
              var p := PreparedTransfer(tx, AccountOf(s, tx.from), AccountOf(s, tx.to), left, paid, refund, ctx);
              Applied(p, s).Some? <==>
                && Decodes(AccountOf(s, tx.to).ct) && tx.commitment.Some? && tx.receiverHandle.Some?
                && NonceAt(s, tx.from) != MAX_UINT64
  {
  }

  /** When a transfer is executed: the claimed remainder is what the amount and the fee limit leave of the balance. */
  lemma TransferAccepted(chainId: nat, s: State, tx: Tx, coinbase: Addr)
    requires tx.Transfer?
    ensures var left, ctx := TransferLeft(s, tx), TransferContext(chainId, tx);
            ExecOne(chainId, s, tx, coinbase).Some? <==>
              && Admitted(s, tx) && Audited(s, tx, tx.receiverHandle, tx.to, ctx)
              && tx.memoLen <= 1040 && tx.feeLimit >= 1 && tx.feeLimit >= tx.fee
              && AccountOf(s, tx.from).version != MAX_UINT64 && AccountOf(s, tx.to).version != MAX_UINT64
              && Decodes(AccountOf(s, tx.from).ct) && Decodes(AccountOf(s, tx.to).ct)
              && tx.senderHandle.Some? && tx.receiverHandle.Some?
              && tx.commitment.Some? && 0 <= tx.commitment.value <= MAX_UINT64
              && tx.source == left.commitment && 0 <= tx.source.value <= MAX_UINT64
              && CtValidity(tx.commitment, tx.senderHandle, tx.receiverHandle, tx.from, tx.to, ctx) in tx.proves
              && CommitmentEq(tx.from, left, tx.source, ctx) in tx.proves
              && InRange(tx.source) in tx.proves && InRange(tx.commitment) in tx.proves
  {
    TransferPrepared(chainId, s, tx);
    TerminalRules(s, tx);
    TransferApplied(s, tx, TransferLeft(s, tx), Max(tx.fee, 1), tx.feeLimit - Max(tx.fee, 1),
                    TransferContext(chainId, tx));
  }

  // Effect.

  /** Publicly `a` is given `v` and `b` is given `w`, and nothing else changes. */
  ghost predicate Given(s: State, s': State, a: Addr, v: int, b: Addr, w: int) {
    forall x: Addr {:trigger Balance(s', x)} ::
      Balance(s', x) == Balance(s, x) + (if x == a then v else 0) + (if x == b then w else 0)
  }

  /** Privately `a` holds `v` more, and nobody else more or less. */
  ghost predicate HoldsMore(s: State, s': State, a: Addr, v: int) {
    forall x: Addr {:trigger Held(s', x)} :: Held(s', x) == Held(s, x) + if x == a then v else 0
  }

  lemma ShieldEffect(chainId: nat, s: State, tx: Tx, coinbase: Addr)
    requires tx.Shield? && ExecOne(chainId, s, tx, coinbase).Some?
    ensures var s' := ExecOne(chainId, s, tx, coinbase).value;
            && Given(s, s', tx.from, 0 - Scale(tx.amount) - Scale(tx.fee), coinbase, Scale(tx.fee))
            && HoldsMore(s, s', tx.recipient, tx.amount)
  {
  }

  lemma UnshieldEffect(chainId: nat, s: State, tx: Tx, coinbase: Addr)
    requires tx.Unshield? && ExecOne(chainId, s, tx, coinbase).Some?
    ensures var s' := ExecOne(chainId, s, tx, coinbase).value;
            && Given(s, s', tx.recipient, Scale(tx.amount) - Scale(tx.fee), coinbase, Scale(tx.fee))
            && HoldsMore(s, s', tx.from, 0 - tx.amount)
  {
  }

  /** A transfer to oneself keeps the credit and loses the debit. */
  lemma TransferEffect(chainId: nat, s: State, tx: Tx, coinbase: Addr)
    requires tx.Transfer? && ExecOne(chainId, s, tx, coinbase).Some?
    ensures var s', paid := ExecOne(chainId, s, tx, coinbase).value, Max(tx.fee, 1);
            && Given(s, s', tx.from, 0, coinbase, Scale(paid))
            && (tx.from == tx.to ==> HoldsMore(s, s', tx.to, Worth(tx.commitment)))
            && (tx.from != tx.to ==>
                  forall x: Addr {:trigger Held(s', x)} ::
                    Held(s', x) == Held(s, x) + (if x == tx.to then Worth(tx.commitment) else 0)
                                   - (if x == tx.from then Worth(tx.commitment) + paid else 0))
  {
  }
}
