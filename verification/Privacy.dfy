/** Privacy transactions: shield, unshield and private transfer.

    Ciphertext components are idealised as the integers they commit to; `None` is an encoding that
    does not decode. A proof is idealised as the set of statements the transaction proves, and
    verifies only if the statement is among them and true. */
module Privacy {
  import opened Util

  type Addr = nat
  type Point = Option<int>

  const UNO_BASE_FEE: nat := 1
  const MEMO_MAX: nat := 1040
  const DLEQ_SIZE: nat := 96
  const TERMINAL_APP: nat := 0
  const TRUST_MEDIUM: nat := 2
  const TRUST_FULL: nat := 4

  datatype Ciphertext = Ciphertext(commitment: Point, handle: Point)

  datatype Account = Account(ct: Ciphertext, version: nat, nonce: nat)

  const ZERO_CT := Ciphertext(Some(0), Some(0))
  const ZERO_ACCOUNT := Account(ZERO_CT, 0, 0)

  datatype TerminalPolicy = TerminalPolicy(maxValue: nat, allowShield: bool, allowUnshield: bool, allowTransfer: bool,
                                           minTrust: nat)

  const NO_POLICY := TerminalPolicy(0, false, false, false, 0)

  /** The part of the state database privacy transactions touch. A zero wallet owner or auditor key
      means that none is configured. */
  datatype State = State(balances: map<Addr, int>, accounts: map<Addr, Account>,
                         owners: map<Addr, nat>, auditorKeys: map<Addr, nat>,
                         terminals: map<(Addr, nat), TerminalPolicy>)

  function Get<K, V>(m: map<K, V>, k: K, default: V): V {
    if k in m then m[k] else default
  }

  function Balance(s: State, a: Addr): int { Get(s.balances, a, 0) }

  function AccountOf(s: State, a: Addr): Account { Get(s.accounts, a, ZERO_ACCOUNT) }

  function Worth(p: Point): int { if p.Some? then p.value else 0 }

  /** The private balance of an account. */
  function Held(s: State, a: Addr): int { if a in s.accounts then Worth(s.accounts[a].ct.commitment) else 0 }

  /** The next privacy nonce of an account. */
  function NonceAt(s: State, a: Addr): nat { if a in s.accounts then s.accounts[a].nonce else 0 }

  function AddBalance(s: State, a: Addr, v: int): State {
    s.(balances := s.balances[a := Balance(s, a) + v])
  }

  function SetAccount(s: State, a: Addr, acct: Account): State {
    s.(accounts := s.accounts[a := acct])
  }

  /** One base unit of the private currency is 10^16 of the public one. */
  function Scale(v: int): int { v * 10_000_000_000_000_000 }

  function UnomiToTomi(v: nat): nat { Scale(v) }

  // Homomorphic arithmetic; it fails on points that do not decode.

  function AddCiphertexts(a: Ciphertext, b: Ciphertext): Option<Ciphertext> {
    if a.commitment.None? || a.handle.None? || b.commitment.None? || b.handle.None? then None
    else Some(Ciphertext(Some(a.commitment.value + b.commitment.value), Some(a.handle.value + b.handle.value)))
  }

  function SubCiphertexts(a: Ciphertext, b: Ciphertext): Option<Ciphertext> {
    if a.commitment.None? || a.handle.None? || b.commitment.None? || b.handle.None? then None
    else Some(Ciphertext(Some(a.commitment.value - b.commitment.value), Some(a.handle.value - b.handle.value)))
  }

  function AddScalar(a: Ciphertext, v: nat): Option<Ciphertext> {
    if a.commitment.None? then None else Some(a.(commitment := Some(a.commitment.value + v)))
  }

  /** What a transcript binds a proof to. */
  datatype Context =
    | TransferCtx(chainId: nat, nonce: nat, fee: nat, feeLimit: nat, from: Addr, to: Addr,
                  senderCt: Ciphertext, receiverCt: Ciphertext, source: Point, auditorHandle: nat)
    | ShieldCtx(chainId: nat, nonce: nat, fee: nat, amount: nat, from: Addr, commitment: Point, handle: Point,
                auditorHandle: nat)
    | UnshieldCtx(chainId: nat, nonce: nat, fee: nat, amount: nat, from: Addr, zeroed: Ciphertext, source: Point,
                  auditorHandle: nat)

  datatype Statement =
    | CtValidity(commitment: Point, senderHandle: Point, receiverHandle: Point, from: Addr, to: Addr, ctx: Context)
    | CommitmentEq(owner: Addr, ct: Ciphertext, source: Point, ctx: Context)
    | InRange(commitment: Point)
    | Opens(commitment: Point, handle: Point, recipient: Addr, amount: nat, ctx: Context)
    | AuditorDleq(auditorHandle: nat, handle: Point, key: nat, owner: Addr, ctx: Context)

  /** Soundness of the proof systems: these are the facts a verified proof establishes. */
  predicate Holds(st: Statement) {
    match st
    case CtValidity(c, s, r, _, _, _) => c.Some? && s.Some? && r.Some?
    case CommitmentEq(_, ct, source, _) => source.Some? && ct.commitment == source
    case InRange(c) => c.Some? && 0 <= c.value <= MAX_UINT64
    case Opens(c, h, _, amount, _) => c == Some(amount) && h.Some?
    case AuditorDleq(_, _, _, _, _) => true
  }

  datatype Auditor = Auditor(handle: nat, proofLen: nat)

  datatype Terminal = Terminal(class_: nat, tier: nat)

  datatype Tx =
    | Transfer(id: nat, from: Addr, to: Addr, commitment: Point, senderHandle: Point, receiverHandle: Point,
               source: Point, fee: nat, feeLimit: nat, nonce: nat, memoLen: nat, signed: bool, auditor: Auditor,
               terminal: Terminal, proves: set<Statement>)
    | Shield(id: nat, from: Addr, recipient: Addr, commitment: Point, handle: Point, amount: nat,
             fee: nat, nonce: nat, signed: bool, auditor: Auditor, terminal: Terminal, proves: set<Statement>)
    | Unshield(id: nat, from: Addr, recipient: Addr, source: Point, amount: nat,
               fee: nat, nonce: nat, signed: bool, auditor: Auditor, terminal: Terminal, proves: set<Statement>)

  predicate Verifies(tx: Tx, st: Statement) {
    st in tx.proves && Holds(st)
  }

  /** Terminal rules, enforced only for senders with a policy wallet. */
  predicate TerminalAllows(s: State, tx: Tx) {
    if Get(s.owners, tx.from, 0) == 0 then true
    else
      var unset := tx.terminal.class_ == 0 && tx.terminal.tier == 0;
      var cls := if unset then TERMINAL_APP else tx.terminal.class_;
      var tier := if unset then TRUST_FULL else tx.terminal.tier;
      var policy := Get(s.terminals, (tx.from, cls), NO_POLICY);
      var value := UnomiToTomi(if tx.Transfer? then tx.feeLimit else tx.amount);
      && tier >= Max(policy.minTrust, TRUST_MEDIUM)
      && (if tx.Transfer? then policy.allowTransfer else if tx.Shield? then policy.allowShield
          else policy.allowUnshield)
      && (policy.maxValue > 0 ==> value <= policy.maxValue)
  }

  /** With an auditor key the handle and its proof are mandatory; without one they are forbidden. */
  predicate AuditorFields(s: State, tx: Tx) {
    if Get(s.auditorKeys, tx.from, 0) != 0
    then tx.auditor.handle != 0 && tx.auditor.proofLen == DLEQ_SIZE
    else tx.auditor.handle == 0 && tx.auditor.proofLen == 0
  }

  predicate AuditorProof(s: State, tx: Tx, handle: Point, owner: Addr, ctx: Context) {
    var key := Get(s.auditorKeys, tx.from, 0);
    key != 0 ==> Verifies(tx, AuditorDleq(tx.auditor.handle, handle, key, owner, ctx))
  }

  datatype Prepared =
    | PreparedTransfer(tx: Tx, inSender: Account, inReceiver: Account, newSender: Ciphertext, feePaid: nat,
                       feeRefund: nat, ctx: Context)
    | PreparedShield(tx: Tx, inBalance: int, inRecipient: Account, totalCost: nat, ctx: Context)
    | PreparedUnshield(tx: Tx, inAccount: Account, inBalance: int, zeroed: Ciphertext, amountTomi: nat, feeTomi: nat,
                       ctx: Context)

  function PrepareTransfer(chainId: nat, s: State, tx: Tx): Option<Prepared>
    requires tx.Transfer?
  {
    var feePaid := Max(tx.fee, UNO_BASE_FEE);
    var sender := AccountOf(s, tx.from);
    var receiver := AccountOf(s, tx.to);
    var senderCt := Ciphertext(tx.commitment, tx.senderHandle);
    var ctx := TransferCtx(chainId, tx.nonce, tx.fee, tx.feeLimit, tx.from, tx.to, senderCt,
                           Ciphertext(tx.commitment, tx.receiverHandle), tx.source, tx.auditor.handle);
    if tx.memoLen > MEMO_MAX || tx.fee > tx.feeLimit || UNO_BASE_FEE > tx.feeLimit then None
    else if tx.nonce != sender.nonce || !tx.signed || !AuditorFields(s, tx) then None
    else if sender.version == MAX_UINT64 || receiver.version == MAX_UINT64 then None
    else if !AuditorProof(s, tx, tx.receiverHandle, tx.to, ctx) then None
    else
      var out := AddScalar(senderCt, tx.feeLimit);
      if out.None? then None
      else
        var bal := SubCiphertexts(sender.ct, out.value);
        if bal.None? then None
        else Some(PreparedTransfer(tx, sender, receiver, bal.value, feePaid, tx.feeLimit - feePaid, ctx))
  }

  function PrepareShield(chainId: nat, s: State, tx: Tx): Option<Prepared>
    requires tx.Shield?
  {
    var cost := UnomiToTomi(tx.amount) + UnomiToTomi(tx.fee);
    var recipient := AccountOf(s, tx.recipient);
    var ctx := ShieldCtx(chainId, tx.nonce, tx.fee, tx.amount, tx.from, tx.commitment, tx.handle, tx.auditor.handle);
    if tx.fee < UNO_BASE_FEE || Balance(s, tx.from) < cost then None
    else if tx.nonce != AccountOf(s, tx.from).nonce || !tx.signed || !AuditorFields(s, tx) then None
    else if recipient.version == MAX_UINT64 || !AuditorProof(s, tx, tx.handle, tx.recipient, ctx) then None
    else Some(PreparedShield(tx, Balance(s, tx.from), recipient, cost, ctx))
  }

  function PrepareUnshield(chainId: nat, s: State, tx: Tx): Option<Prepared>
    requires tx.Unshield?
  {
    var amount, fee := UnomiToTomi(tx.amount), UnomiToTomi(tx.fee);
    var acct := AccountOf(s, tx.from);
    if tx.fee < UNO_BASE_FEE || tx.nonce != acct.nonce || Balance(s, tx.recipient) + amount < fee then None
    else if !tx.signed || !AuditorFields(s, tx) || acct.version == MAX_UINT64 then None
    else
      var zeroed := SubCiphertexts(acct.ct, AddScalar(ZERO_CT, tx.amount).value);
      if zeroed.None? then None
      else
        var ctx := UnshieldCtx(chainId, tx.nonce, tx.fee, tx.amount, tx.from, zeroed.value, tx.source,
                               tx.auditor.handle);
        if !AuditorProof(s, tx, acct.ct.handle, tx.from, ctx) then None
        else Some(PreparedUnshield(tx, acct, Balance(s, tx.recipient), zeroed.value, amount, fee, ctx))
  }

  /** Preparation without the terminal rules, as the pool replays transactions. */
  function PrepareCore(chainId: nat, s: State, tx: Tx): Option<Prepared> {
    if tx.Transfer? then PrepareTransfer(chainId, s, tx)
    else if tx.Shield? then PrepareShield(chainId, s, tx)
    else PrepareUnshield(chainId, s, tx)
  }

  /** Preparation for execution in a block. */
  function Prepare(chainId: nat, s: State, tx: Tx): Option<Prepared> {
    if TerminalAllows(s, tx) then PrepareCore(chainId, s, tx) else None
  }

  predicate VerifyProofs(p: Prepared) {
    match p
    case PreparedTransfer(tx, _, _, newSender, _, _, ctx) =>
      tx.Transfer?
      && Verifies(tx, CtValidity(tx.commitment, tx.senderHandle, tx.receiverHandle, tx.from, tx.to, ctx))
      && Verifies(tx, CommitmentEq(tx.from, newSender, tx.source, ctx))
      && Verifies(tx, InRange(tx.source)) && Verifies(tx, InRange(tx.commitment))
    case PreparedShield(tx, _, _, _, ctx) =>
      tx.Shield?
      && Verifies(tx, Opens(tx.commitment, tx.handle, tx.recipient, tx.amount, ctx))
          && Verifies(tx, InRange(tx.commitment))
    case PreparedUnshield(tx, _, _, zeroed, _, _, ctx) =>
      tx.Unshield?
      && Verifies(tx, CommitmentEq(tx.from, zeroed, tx.source, ctx)) && Verifies(tx, InRange(tx.source))
  }

  function IncrementNonce(s: State, a: Addr): Option<State> {
    var acct := AccountOf(s, a);
    if acct.nonce == MAX_UINT64 then None else Some(SetAccount(s, a, acct.(nonce := acct.nonce + 1)))
  }

  /** The new state and the fee, or nothing if the input state moved on or an operation fails. */
  function Applied(p: Prepared, s: State): Option<(State, nat)> {
    match p
    case PreparedTransfer(tx, inSender, inReceiver, newSender, feePaid, feeRefund, _) =>
      var sender, receiver := AccountOf(s, tx.from), AccountOf(s, if tx.Transfer? then tx.to else 0);
      if !tx.Transfer? || sender != inSender || receiver != inReceiver then None
      else
        var ct := Ciphertext(tx.source, newSender.handle);
        var refunded := if feeRefund > 0 then AddScalar(ct, feeRefund) else Some(ct);
        var credited := AddCiphertexts(receiver.ct, Ciphertext(tx.commitment, tx.receiverHandle));
        if refunded.None? || credited.None? then None
        else
          var s1 := SetAccount(s, tx.from, Account(refunded.value, sender.version + 1, sender.nonce));
          var s2 := SetAccount(s1, tx.to, Account(credited.value, receiver.version + 1, receiver.nonce));
          var s3 := IncrementNonce(s2, tx.from);
          if s3.None? then None else Some((s3.value, UnomiToTomi(feePaid)))
    case PreparedShield(tx, inBalance, inRecipient, totalCost, _) =>
      var recipient := AccountOf(s, if tx.Shield? then tx.recipient else 0);
      if !tx.Shield? || Balance(s, tx.from) != inBalance || recipient != inRecipient then None
      else
        var credited := AddCiphertexts(recipient.ct, Ciphertext(tx.commitment, tx.handle));
        if credited.None? then None
        else
          var s1 := AddBalance(s, tx.from, 0 - totalCost);
          var s2 := SetAccount(s1, tx.recipient, Account(credited.value, recipient.version + 1, recipient.nonce));
          var s3 := IncrementNonce(s2, tx.from);
          if s3.None? then None else Some((s3.value, UnomiToTomi(tx.fee)))
    case PreparedUnshield(tx, inAccount, inBalance, zeroed, amountTomi, feeTomi, _) =>
      var acct := AccountOf(s, tx.from);
      if !tx.Unshield? || acct != inAccount || Balance(s, tx.recipient) != inBalance then None
      else
        var s1 := SetAccount(s, tx.from, Account(Ciphertext(tx.source, zeroed.handle), acct.version + 1, acct.nonce));
        var s2 := IncrementNonce(s1, tx.from);
        if s2.None? then None else Some((AddBalance(s2.value, tx.recipient, amountTomi - feeTomi), feeTomi))
  }

  /** Application with the fee credited to the coinbase. */
  function Settled(p: Prepared, s: State, coinbase: Addr): Option<State> {
    var r := Applied(p, s);
    if r.None? then None
    else if r.value.1 > 0 then Some(AddBalance(r.value.0, coinbase, r.value.1)) else Some(r.value.0)
  }

  /** One privacy transaction executed alone: prepare, verify, apply. */
  function ExecOne(chainId: nat, s: State, tx: Tx, coinbase: Addr): Option<State> {
    var p := Prepare(chainId, s, tx);
    if p.None? || !VerifyProofs(p.value) then None else Settled(p.value, s, coinbase)
  }
}
