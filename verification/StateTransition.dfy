/** Gas and balance accounting of one message.

    Contract code, system actions and account validation are open: they may move balances between
    accounts, but neither create nor destroy any, and return no more gas than they were given. */
module StateTransition {
  import opened Util
  import opened Sums

  type Addr = nat

  const TX_GAS: nat := 21_000
  const TX_GAS_CREATE: nat := 5_300_000
  const DATA_ZERO_GAS: nat := 4
  const DATA_NONZERO_GAS: nat := 16
  const SYS_ACTION_GAS: nat := 100_000
  const VALIDATION_GAS_CAP: nat := 50_000
  const REFUND_QUOTIENT: nat := 5

  /** Where a message goes. */
  datatype Kind = Create | SysUndecodable | SysLeaseDeploy | SysAction | SlashEvidence | Contract | Plain

  datatype Msg = Msg(from: Addr, sponsor: Option<Addr>, to: Addr, kind: Kind, isAccount: bool,
                     gasLimit: nat, price: nat, feeCap: Option<nat>, value: nat, nonce: nat, sponsorNonce: nat,
                         fake: bool,
                     zeroBytes: nat, nonZeroBytes: nat)

  datatype State = State(bal: map<Addr, int>, nonces: map<Addr, nat>, sponsorNonces: map<Addr, nat>, refund: nat)

  /** What open code returns: the state it leaves, the gas it returns, and whether it failed. */
  datatype Result = Result(st: State, gasLeft: nat, failed: bool)

  /** The surroundings of a message: checks that only reject, and the open code. */
  datatype Env = Env(coinbase: Addr, senderAccepted: Msg -> bool, targetAccepted: Msg -> bool,
                     policyAccepts: Msg -> bool, aborted: bool,
                     run: (State, nat) -> Result, validate: (State, nat) -> Result)

  predicate NonNegative(bal: map<Addr, int>) { forall a | a in bal :: bal[a] >= 0 }

  ghost predicate Conserving(f: (State, nat) -> Result) {
    forall s, g ::
      && f(s, g).gasLeft <= g
      && Sum(f(s, g).st.bal) == Sum(s.bal)
      && (NonNegative(s.bal) ==> NonNegative(f(s, g).st.bal))
  }

  function Balance(s: State, a: Addr): int { At(s.bal, a) }

  function AddBalance(s: State, a: Addr, v: int): State {
    s.(bal := s.bal[a := Balance(s, a) + v])
  }

  lemma AddBalanceSum(s: State, a: Addr, v: int)
    ensures Sum(AddBalance(s, a, v).bal) == Sum(s.bal) + v
    ensures NonNegative(s.bal) && Balance(s, a) + v >= 0 ==> NonNegative(AddBalance(s, a, v).bal)
  {
    SumUpdate(s.bal, a, Balance(s, a) + v);
  }

  function NonceOf(m: map<Addr, nat>, a: Addr): nat { if a in m then m[a] else 0 }

  /** The gas a message costs before anything runs; `None` on overflow. Access lists are free. */
  function IntrinsicGas(nonZero: nat, zero: nat, create: bool): (r: Option<nat>)
    ensures r.Some? ==> TX_GAS <= r.value <= MAX_UINT64
  {
    var gas := if create then TX_GAS_CREATE else TX_GAS;
    if nonZero + zero == 0 then Some(gas)
    else if (MAX_UINT64 - gas) / DATA_NONZERO_GAS < nonZero then None
    else
      var gas1 := gas + nonZero * DATA_NONZERO_GAS;
      if (MAX_UINT64 - gas1) / DATA_ZERO_GAS < zero then None
      else Some(gas1 + zero * DATA_ZERO_GAS)
  }

  /** The check is exact: it fails just when the cost does not fit in 64 bits. */
  lemma IntrinsicGasExact(nonZero: nat, zero: nat, create: bool)
    ensures var cost := (if create then TX_GAS_CREATE else TX_GAS) + nonZero * DATA_NONZERO_GAS + zero * DATA_ZERO_GAS;
            IntrinsicGas(nonZero, zero, create) == if cost <= MAX_UINT64 then Some(cost) else None
  {
  }

  function Payer(msg: Msg): Addr { if msg.sponsor.Some? then msg.sponsor.value else msg.from }

  /** The balance the payer must have: the value counts only without a sponsor. */
  function BalanceCheck(msg: Msg): nat {
    if msg.feeCap.None? then msg.gasLimit * msg.price
    else msg.gasLimit * msg.feeCap.value + if msg.sponsor.None? then msg.value else 0
  }

  /** Nonces match and can be raised. */
  predicate NoncesMatch(msg: Msg, st: State) {
    && NonceOf(st.nonces, msg.from) == msg.nonce < MAX_UINT64
    && (msg.sponsor.Some? ==> NonceOf(st.sponsorNonces, msg.sponsor.value) == msg.sponsorNonce < MAX_UINT64)
  }

  function Transfer(s: State, from: Addr, to: Addr, v: nat): State {
    AddBalance(AddBalance(s, from, 0 - v), to, v)
  }

  /** The step that does what the message asks for, given the gas left. A failed system action is
      rolled back; its gas is spent all the same. */
  function Executed(env: Env, msg: Msg, s: State, gas: nat): Result {
    match msg.kind
    case Create => env.run(s, gas)
    case Contract => env.run(s, gas)
    case Plain => Result(if msg.value > 0 then Transfer(s, msg.from, msg.to, msg.value) else s, gas, false)
    case SysUndecodable =>
      if env.aborted then Result(s, gas, true)
      else Result(s, if gas < SYS_ACTION_GAS then 0 else gas - SYS_ACTION_GAS, true)
    case SysLeaseDeploy =>
      if env.aborted then Result(s, gas, true)
      else var r := env.run(s, gas); if r.failed then r.(st := s) else r
    case SysAction =>
      if env.aborted then Result(s, gas, true)
      else if gas < SYS_ACTION_GAS then Result(s, 0, true)
      else var r := env.run(s, gas); Result(if r.failed then s else r.st, gas - SYS_ACTION_GAS, r.failed)
    case SlashEvidence =>
      if env.aborted then Result(s, gas, true)
      else if gas < SYS_ACTION_GAS then Result(s, 0, true)
      else var r := env.run(s, gas); Result(if r.failed then s else r.st, gas - SYS_ACTION_GAS, r.failed)
  }

  lemma ExecutedConserves(env: Env, msg: Msg, s: State, gas: nat)
    requires Conserving(env.run)
    ensures var r := Executed(env, msg, s, gas);
            && r.gasLeft <= gas && Sum(r.st.bal) == Sum(s.bal)
            && (NonNegative(s.bal) && (msg.value > 0 ==> Balance(s, msg.from) >= msg.value) ==> NonNegative(r.st.bal))
  {
    var r := env.run(s, gas);
    TransferSum(s, msg.from, msg.to, msg.value);
  }

  lemma TransferSum(s: State, from: Addr, to: Addr, v: nat)
    ensures var t := Transfer(s, from, to, v);
            Sum(t.bal) == Sum(s.bal) && (NonNegative(s.bal) && Balance(s, from) >= v ==> NonNegative(t.bal))
  {
    AddBalanceSum(s, from, 0 - v);
    AddBalanceSum(AddBalance(s, from, 0 - v), to, v);
  }

  /** The state with the payer charged the whole gas limit. */
  function Bought(msg: Msg, s: State): State {
    AddBalance(s, Payer(msg), 0 - msg.gasLimit * msg.price)
  }

  /** Nonces and sender are accepted, and payer and block can afford the limit. */
  predicate PreChecked(env: Env, msg: Msg, s: State, gp: nat) {
    && (msg.fake || (NoncesMatch(msg, s) && env.senderAccepted(msg)))
    && Balance(s, Payer(msg)) >= BalanceCheck(msg) && gp >= msg.gasLimit
  }

  /** The target is an account contract, which validates the message first. */
  predicate Validates(msg: Msg) { msg.isAccount && msg.kind != Create }

  function ValidationUsed(r: Result): nat {
    if r.gasLeft <= VALIDATION_GAS_CAP then VALIDATION_GAS_CAP - r.gasLeft else 0
  }

  /** What account validation leaves, and the gas it used; the payer must cover the worst case. */
  function Validated(env: Env, msg: Msg, s: State): Option<(State, nat)> {
    if !Validates(msg) then Some((s, 0))
    else if Balance(s, Payer(msg)) < VALIDATION_GAS_CAP * msg.price then None
    else
      var r := env.validate(s, VALIDATION_GAS_CAP);
      if r.failed then None else Some((Pay(r.st, Payer(msg), ValidationUsed(r) * msg.price), ValidationUsed(r)))
  }

  function Pay(s: State, a: Addr, cost: nat): State {
    if cost > 0 then AddBalance(s, a, 0 - cost) else s
  }

  /** A message about to be executed: the state, the gas left and the gas validation took. */
  datatype Start = Start(st: State, gas: nat, validationGas: nat)

  /** Everything between buying gas and execution. */
  function Prepared(env: Env, msg: Msg, s: State): Option<Start> {
    var v := Validated(env, msg, s);
    var intrinsic := IntrinsicGas(msg.nonZeroBytes, msg.zeroBytes, msg.kind == Create);
    if v.None? || intrinsic.None? || msg.gasLimit < intrinsic.value then None
    else if msg.value > 0 && Balance(v.value.0, msg.from) < msg.value then None
    else if msg.sponsor.Some? && !env.policyAccepts(msg) then None
    else Some(Start(WithSponsorNonce(msg, v.value.0), msg.gasLimit - intrinsic.value, v.value.1))
  }

  function WithSponsorNonce(msg: Msg, s: State): State {
    if msg.sponsor.None? then s
    else s.(sponsorNonces := s.sponsorNonces[msg.sponsor.value := NonceOf(s.sponsorNonces, msg.sponsor.value) + 1])
  }

  function WithNonce(msg: Msg, s: State): State {
    if msg.kind == Create then s else s.(nonces := s.nonces[msg.from := NonceOf(s.nonces, msg.from) + 1])
  }

  /** The message as it starts to execute, if it is accepted. */
  function Begun(env: Env, msg: Msg, s: State, gp: nat): Option<Start> {
    if !PreChecked(env, msg, s, gp) || (msg.kind != Create && !env.targetAccepted(msg)) then None
    else Prepared(env, msg, Bought(msg, s))
  }

  /** `v` if `a` is the account in question. */
  function Paid(a: Addr, who: Addr, v: int): int { if a == who then v else 0 }

  /** What the accounts hold when execution starts, with the gas limit given back to the payer: what they held before,
      or what account validation left them. */
  function Base(env: Env, msg: Msg, s: State, a: Addr): int {
    if Validates(msg) then Balance(env.validate(Bought(msg, s), VALIDATION_GAS_CAP).st, a)
                           + Paid(a, Payer(msg), msg.gasLimit * msg.price)
    else Balance(s, a)
  }

  /** The balances when execution starts: the payer is charged for the limit and for validation, and nobody else is
      touched but by validation itself. */
  lemma StartBalance(env: Env, msg: Msg, s: State, gp: nat, a: Addr)
    requires Begun(env, msg, s, gp).Some?
    ensures var b := Begun(env, msg, s, gp).value;
            Balance(b.st, a) == Base(env, msg, s, a) - Paid(a, Payer(msg), msg.gasLimit * msg.price)
                                - Paid(a, Payer(msg), b.validationGas * msg.price)
  {
    ValidatedBalance(env, msg, Bought(msg, s), a);
  }

  lemma ValidatedBalance(env: Env, msg: Msg, s: State, a: Addr)
    requires Validated(env, msg, s).Some?
    ensures var v := Validated(env, msg, s).value;
            Balance(v.0, a) == Balance(if Validates(msg) then env.validate(s, VALIDATION_GAS_CAP).st
                                       else s, a) - Paid(a, Payer(msg), v.1 * msg.price)
  {
  }

  /** Validation charges for the gas it used and for nothing else. */
  lemma ValidatedSum(env: Env, msg: Msg, s: State)
    requires Validated(env, msg, s).Some? && Conserving(env.validate)
    ensures var v := Validated(env, msg, s).value;
            && Sum(v.0.bal) == Sum(s.bal) - v.1 * msg.price && v.1 <= VALIDATION_GAS_CAP
            && (NonNegative(s.bal) && (Validates(msg) ==> Covered(env, msg, s)) ==> NonNegative(v.0.bal))
  {
    if Validates(msg) {
      var r := env.validate(s, VALIDATION_GAS_CAP);
      ChargeBy(r.st, Payer(msg), ValidationUsed(r) * msg.price);
    }
  }

  /** Validation leaves the payer enough for its own gas. */
  predicate Covered(env: Env, msg: Msg, s: State) {
    var r := env.validate(s, VALIDATION_GAS_CAP);
    Balance(r.st, Payer(msg)) >= ValidationUsed(r) * msg.price
  }

  lemma PreparedSum(env: Env, msg: Msg, s: State)
    requires Prepared(env, msg, s).Some? && Conserving(env.validate)
    ensures var b := Prepared(env, msg, s).value;
            && Sum(b.st.bal) == Sum(s.bal) - b.validationGas * msg.price
            && b.gas + TX_GAS <= msg.gasLimit && b.validationGas <= VALIDATION_GAS_CAP
            && (msg.value > 0 ==> Balance(b.st, msg.from) >= msg.value)
            && (NonNegative(s.bal) && (Validates(msg) ==> Covered(env, msg, s)) ==> NonNegative(b.st.bal))
  {
    ValidatedSum(env, msg, s);
  }

  /** The state that checks and charges start from: what validation leaves of it, if the target validates. */
  function Met(env: Env, msg: Msg, s: State): State {
    if msg.isAccount && msg.kind != Create then env.validate(Bought(msg, s), VALIDATION_GAS_CAP).st else s
  }

  /** From `s` to `t` the sender's nonce is raised by one, unless a contract is created, and the sponsor's if there is
      one; nobody else's is. */
  ghost predicate NoncesRaised(msg: Msg, s: State, t: State) {
    && (forall a: Addr {:trigger NonceOf(t.nonces, a)} ::
          NonceOf(t.nonces, a) == NonceOf(s.nonces, a) + if a == msg.from && msg.kind != Create then 1 else 0)
    && (forall a: Addr {:trigger NonceOf(t.sponsorNonces, a)} ::
          NonceOf(t.sponsorNonces, a) == NonceOf(s.sponsorNonces, a) + if msg.sponsor == Some(a) then 1 else 0)
  }

  lemma StartNonces(env: Env, msg: Msg, s: State, gp: nat, begun: Start)
    requires Begun(env, msg, s, gp) == Some(begun)
    ensures NoncesRaised(msg, Met(env, msg, s), WithNonce(msg, begun.st))
  {
    var v := Validated(env, msg, Bought(msg, s)).value.0;
    assert v.nonces == Met(env, msg, s).nonces && v.sponsorNonces == Met(env, msg, s).sponsorNonces;
    assert begun.st == WithSponsorNonce(msg, v);
  }

  /** Nonces are raised before execution, and a plain message and settlement touch none. */
  ghost predicate NonceOutcome(env: Env, msg: Msg, s: State, start: State, final: State) {
    && NoncesRaised(msg, Met(env, msg, s), start)
    && (msg.kind == Plain ==> NoncesRaised(msg, Met(env, msg, s), final))
  }

  lemma NoncesSettle(env: Env, msg: Msg, s: State, gp: nat, begun: Start, start: State, mid: State, final: State,
                     left: nat, used: nat)
    requires Begun(env, msg, s, gp) == Some(begun)
    requires start == WithNonce(msg, begun.st) && mid == Executed(env, msg, start, begun.gas).st
    requires final == Settle(mid, Payer(msg), env.coinbase, left * msg.price, used * msg.price, msg.fake)
    ensures NonceOutcome(env, msg, s, start, final)
  {
    StartNonces(env, msg, s, gp, begun);
    assert msg.kind == Plain ==> final.nonces == start.nonces && final.sponsorNonces == start.sponsorNonces;
  }

  /** So a message that was applied is refused ever after, in whatever surroundings, while nonces are kept. */
  lemma NoReplay(env: Env, msg: Msg, s: State, gp: nat, final: State, env': Env, gp': nat)
    requires Begun(env, msg, s, gp).Some? && !msg.fake && msg.kind != Create && NoncesRaised(msg, s, final)
    ensures Begun(env', msg, final, gp').None?
  {
    assert NonceOf(final.nonces, msg.from) == NonceOf(s.nonces, msg.from) + 1;
  }

  /** When a plain message to a target that does not validate is accepted. */
  lemma PlainAccepted(env: Env, msg: Msg, s: State, gp: nat)
    requires msg.kind == Plain && !msg.isAccount
    ensures var payer := if msg.sponsor.Some? then msg.sponsor.value else msg.from;
            var perGas := if msg.feeCap.Some? then msg.feeCap.value else msg.price;
            var upFront := if msg.feeCap.Some? && msg.sponsor.None? then msg.value else 0;
            var charged := if payer == msg.from then msg.gasLimit * msg.price else 0;
            Begun(env, msg, s, gp).Some? <==>
              && (msg.fake || (NonceOf(s.nonces, msg.from) == msg.nonce && msg.nonce < MAX_UINT64))
              && (msg.fake || msg.sponsor.None?
                  || (NonceOf(s.sponsorNonces, payer) == msg.sponsorNonce && msg.sponsorNonce < MAX_UINT64))
              && (msg.fake || env.senderAccepted(msg)) && env.targetAccepted(msg)
              && At(s.bal, payer) >= msg.gasLimit * perGas + upFront && gp >= msg.gasLimit
              && 21_000 + 16 * msg.nonZeroBytes + 4 * msg.zeroBytes <= Min(msg.gasLimit, MAX_UINT64)
              && (msg.value > 0 ==> At(s.bal, msg.from) - charged >= msg.value)
              && (msg.sponsor.Some? ==> env.policyAccepts(msg))
  {
    IntrinsicGasExact(msg.nonZeroBytes, msg.zeroBytes, false);
    PlainPrepared(env, msg, Bought(msg, s));
  }

  lemma PlainPrepared(env: Env, msg: Msg, s: State)
    requires msg.kind == Plain && !msg.isAccount
    ensures var intrinsic := IntrinsicGas(msg.nonZeroBytes, msg.zeroBytes, false);
            Prepared(env, msg, s).Some? <==>
              && intrinsic.Some? && intrinsic.value <= msg.gasLimit
              && (msg.value > 0 ==> At(s.bal, msg.from) >= msg.value)
              && (msg.sponsor.Some? ==> env.policyAccepts(msg))
  {
  }

  /** System actions cost their fixed gas, run out of it if there is less, and leave nothing behind when they fail. */
  lemma SystemActions(env: Env, msg: Msg, s: State, gas: nat)
    requires msg.kind == SysAction || msg.kind == SlashEvidence || msg.kind == SysUndecodable
    ensures var r := Executed(env, msg, s, gas);
            && (r.failed ==> r.st == s)
            && (env.aborted ==> r.failed && r.gasLeft == gas)
            && (!env.aborted ==> r.gasLeft == Max(0, gas - 100_000) && (gas < 100_000 ==> r.failed))
  {
  }

  /** What is charged before execution, in total; nobody is in debt then if the fee cap covers the price and validation
      leaves the payer enough for its own gas. */
  lemma BegunSum(env: Env, msg: Msg, s: State, gp: nat)
    requires Begun(env, msg, s, gp).Some? && Conserving(env.validate)
    ensures var b := Begun(env, msg, s, gp).value;
            && Sum(b.st.bal) == Sum(s.bal) - msg.gasLimit * msg.price - b.validationGas * msg.price
            && b.gas + TX_GAS <= msg.gasLimit && b.validationGas <= VALIDATION_GAS_CAP
            && (msg.value > 0 ==> Balance(b.st, msg.from) >= msg.value)
            && (NonNegative(s.bal) && Solvent(env, msg, s) ==> NonNegative(b.st.bal))
  {
    ChargeSum(s, msg);
    PreparedSum(env, msg, Bought(msg, s));
  }

  predicate Solvent(env: Env, msg: Msg, s: State) {
    CapCoversPrice(msg) && (Validates(msg) ==> Covered(env, msg, Bought(msg, s)))
  }

  class Transition {
    const msg: Msg
    const env: Env
    var st: State
    var gp: nat
    var gas: nat
    var initialGas: nat
    var validationGas: nat

    constructor (msg: Msg, env: Env, st: State, gp: nat)
      ensures this.msg == msg && this.env == env && this.st == st && this.gp == gp
      ensures gas == 0 && initialGas == 0 && validationGas == 0
    {
      this.msg, this.env, this.st, this.gp := msg, env, st, gp;
      gas, initialGas, validationGas := 0, 0, 0;
    }

    function GasUsed(): int
      reads this
    {
      initialGas - gas + validationGas
    }

    /** Charges the whole gas limit to the payer in advance. */
    method BuyGas() returns (ok: bool)
      requires gas == 0
      modifies this`st, this`gp, this`gas, this`initialGas
      ensures !ok ==> st == old(st) && gp == old(gp)
      ensures ok ==> st == AddBalance(old(st), Payer(msg), 0 - msg.gasLimit * msg.price)
                     && gas == initialGas == msg.gasLimit
      ensures ok ==> gp == old(gp) - msg.gasLimit
      ensures ok <==> Balance(old(st), Payer(msg)) >= BalanceCheck(msg) && old(gp) >= msg.gasLimit
    {
      if Balance(st, Payer(msg)) < BalanceCheck(msg) {
        return false;
      }
      if gp < msg.gasLimit {
        return false;
      }
      gp := gp - msg.gasLimit;
      gas := gas + msg.gasLimit;
      initialGas := msg.gasLimit;
      st := AddBalance(st, Payer(msg), 0 - msg.gasLimit * msg.price);
      return true;
    }

    /** Account validation: the payer must cover the worst case, and pays for what was used. */
    method ValidateAccount() returns (ok: bool)
      requires Conserving(env.validate) && validationGas == 0 && Validates(msg)
      modifies this`st, this`validationGas
      ensures ok <==> Validated(env, msg, old(st)).Some?
      ensures ok ==> (st, validationGas) == Validated(env, msg, old(st)).value
      ensures !ok ==> st == old(st) && validationGas == 0
    {
      if Balance(st, Payer(msg)) < VALIDATION_GAS_CAP * msg.price {
        return false;
      }
      var r := env.validate(st, VALIDATION_GAS_CAP);
      if r.failed {
        return false;
      }
      st := r.st;
      var used := VALIDATION_GAS_CAP - r.gasLeft;
      var cost := used * msg.price;
      if cost > 0 {
        st := AddBalance(st, Payer(msg), 0 - cost);
      }
      validationGas := used;
      return true;
    }

    /** Returns the unused gas, plus a capped refund, to the payer. */
    method RefundGas() returns (ghost refund: nat)
      requires gas <= initialGas && validationGas <= 4 * (initialGas - gas)
      modifies this`st, this`gas, this`gp
      ensures refund == Min(old(GasUsed()) / REFUND_QUOTIENT, old(st).refund)
      ensures gas == old(gas) + refund <= initialGas
      ensures st == AddBalance(old(st), Payer(msg), gas * msg.price) && gp == old(gp) + gas
    {
      var r := GasUsed() / REFUND_QUOTIENT;
      if r > st.refund {
        r := st.refund;
      }
      refund := r;
      gas := gas + r;
      st := AddBalance(st, Payer(msg), gas * msg.price);
      gp := gp + gas;
    }

    method PreCheck() returns (ok: bool)
      requires gas == 0
      modifies this`st, this`gp, this`gas, this`initialGas
      ensures ok <==> PreChecked(env, msg, old(st), old(gp))
      ensures ok ==> st == Bought(msg, old(st)) && gas == initialGas == msg.gasLimit && gp == old(gp) - msg.gasLimit
      ensures !ok ==> st == old(st) && gp == old(gp)
    {
      if !msg.fake && !(NoncesMatch(msg, st) && env.senderAccepted(msg)) {
        return false;
      }
      ok := BuyGas();
    }

    /** Runs the message: raises the nonces and executes. Balances are only moved. */
    method Execute() returns (failed: bool, ghost start: State)
      requires Conserving(env.run)
      modifies this`st, this`gas
      ensures start == WithNonce(msg, old(st)) && Result(st, gas, failed) == Executed(env, msg, start, old(gas))
      ensures gas <= old(gas) && Sum(st.bal) == Sum(old(st.bal))
      ensures NonNegative(old(st.bal)) && (msg.value > 0 ==> Balance(old(st), msg.from) >= msg.value) ==>
                NonNegative(st.bal)
    {
      if msg.kind != Create {
        st := st.(nonces := st.nonces[msg.from := NonceOf(st.nonces, msg.from) + 1]);
      }
      start := st;
      ExecutedConserves(env, msg, st, gas);
      var r := Executed(env, msg, st, gas);
      st, gas, failed := r.st, r.gasLeft, r.failed;
    }

    /** Everything up to execution: validation, intrinsic gas, the transfer check, sponsor bookkeeping. */
    method Prepare() returns (ok: bool)
      requires Conserving(env.validate) && validationGas == 0 && gas == msg.gasLimit
      modifies this`st, this`gas, this`validationGas
      ensures ok <==> Prepared(env, msg, old(st)).Some?
      ensures ok ==> Start(st, gas, validationGas) == Prepared(env, msg, old(st)).value
    {
      if msg.isAccount && msg.kind != Create {
        ok := ValidateAccount();
        if !ok {
          return;
        }
      }
      var intrinsic := IntrinsicGas(msg.nonZeroBytes, msg.zeroBytes, msg.kind == Create);
      if intrinsic.None? || gas < intrinsic.value {
        return false;
      }
      gas := gas - intrinsic.value;
      if msg.value > 0 && Balance(st, msg.from) < msg.value {
        return false;
      }
      if msg.sponsor.Some? {
        var sponsor := msg.sponsor.value;
        st := st.(sponsorNonces := st.sponsorNonces[sponsor := NonceOf(st.sponsorNonces, sponsor) + 1]);
        if !env.policyAccepts(msg) {
          return false;
        }
      }
      return true;
    }

    /** Refund, repayment and the coinbase fee. */
    method SettleGas() returns (usedGas: nat, ghost refund: nat)
      requires gas <= initialGas && validationGas <= 4 * (initialGas - gas)
      modifies this`st, this`gas, this`gp
      ensures refund == Min((usedGas + refund) / REFUND_QUOTIENT, old(st).refund)
      ensures gas == old(gas) + refund <= initialGas && gas + usedGas == initialGas + validationGas
              && gp == old(gp) + gas
      ensures st == Settle(old(st), Payer(msg), env.coinbase, gas * msg.price, usedGas * msg.price, msg.fake)
      ensures Sum(st.bal) == Sum(old(st.bal)) + gas * msg.price + if msg.fake then 0 else usedGas * msg.price
      ensures NonNegative(old(st.bal)) ==> NonNegative(st.bal)
    {
      ghost var mid := st;
      refund := RefundGas();
      usedGas := GasUsed();
      var fee := usedGas * msg.price;
      SettleSum(mid, Payer(msg), env.coinbase, gas * msg.price, fee, msg.fake);
      if !msg.fake {
        st := AddBalance(st, env.coinbase, fee);
      }
    }

    /** Checks the message and charges for it, up to the point where it runs. */
    method Begin() returns (ok: bool)
      requires gas == 0 && initialGas == 0 && validationGas == 0 && Conserving(env.validate)
      modifies this
      ensures ok <==> Begun(env, msg, old(st), old(gp)).Some?
      ensures ok ==> Start(st, gas, validationGas) == Begun(env, msg, old(st), old(gp)).value
      ensures ok ==> initialGas == msg.gasLimit && gp == old(gp) - msg.gasLimit
    {
      ok := PreCheck();
      if !ok {
        return;
      }
      if msg.kind != Create && !env.targetAccepted(msg) {
        return false;
      }
      ok := Prepare();
    }

    /** Executes and settles. */
    method Finish() returns (usedGas: nat, failed: bool, ghost start: State, ghost mid: State, ghost refund: nat)
      requires gas + TX_GAS <= initialGas == msg.gasLimit && validationGas <= VALIDATION_GAS_CAP && Conserving(env.run)
      modifies this`st, this`gas, this`gp
      ensures start == WithNonce(msg, old(st)) && gas >= refund
      ensures Result(mid, gas - refund, failed) == Executed(env, msg, start, old(gas))
      ensures st == Settle(mid, Payer(msg), env.coinbase, gas * msg.price, usedGas * msg.price, msg.fake)
      ensures refund == Min((usedGas + refund) / REFUND_QUOTIENT, mid.refund)
      ensures gas + usedGas == msg.gasLimit + validationGas && gas <= msg.gasLimit && gp == old(gp) + gas
      ensures Sum(st.bal) == Sum(old(st.bal)) + gas * msg.price + if msg.fake then 0 else usedGas * msg.price
      ensures NonNegative(old(st.bal)) && (msg.value > 0 ==> Balance(old(st), msg.from) >= msg.value) ==>
                NonNegative(st.bal)
    {
      failed, start := Execute();
      mid := st;
      usedGas, refund := SettleGas();
    }

    /** Applies the message, exactly if it is accepted. `start` is the state in which execution starts and `mid` the one
        it leaves; the payer gets back what was not used, the coinbase gets what was, and except for simulated messages
        no balance is created or lost. On an error the state is for the caller to discard. */
    method TransitionDb() returns (ok: bool, usedGas: nat, failed: bool,
                                   ghost begun: Start, ghost start: State, ghost mid: State, ghost refund: nat)
      requires gas == 0 && initialGas == 0 && validationGas == 0
      requires Conserving(env.run) && Conserving(env.validate)
      modifies this
      // from acceptance to execution to settlement
      ensures Begun(env, msg, old(st), old(gp)) == if ok then Some(begun) else None
      ensures ok ==> start == WithNonce(msg, begun.st) && gas >= refund
      ensures ok ==> Result(mid, gas - refund, failed) == Executed(env, msg, start, begun.gas)
      ensures ok ==> st == Settle(mid, Payer(msg), env.coinbase, gas * msg.price, usedGas * msg.price, msg.fake)
      ensures ok ==> gas + usedGas == msg.gasLimit + begun.validationGas && gas <= msg.gasLimit
      ensures ok ==> gp == old(gp) - msg.gasLimit + gas <= old(gp)
      // the refund is capped by the gas used and by the counter
      ensures ok ==> refund == Min((usedGas + refund) / REFUND_QUOTIENT, mid.refund)
      // conservation
      ensures ok ==> Sum(st.bal) == Sum(old(st.bal)) - (if msg.fake then usedGas * msg.price else 0)
      // a plain message moves its value, and the payer loses and the coinbase gains the price of exactly the gas used
      ensures ok && msg.kind == Plain ==> PlainOutcome(env, msg, old(st), st, usedGas * msg.price)
      // nonces
      ensures ok ==> NonceOutcome(env, msg, old(st), start, st)
      // nobody goes into debt when the fee cap covers the price and validation leaves enough for its gas
      ensures ok && NonNegative(old(st.bal)) && Solvent(env, msg, old(st)) ==> NonNegative(st.bal)
    {
      usedGas, failed, start, mid, refund := 0, false, st, st, 0;
      ghost var s0, gp0 := st, gp;
      ok := Begin();
      begun := Start(st, gas, validationGas);
      if !ok {
        return;
      }
      BegunSum(env, msg, s0, gp0);
      usedGas, failed, start, mid, refund := Finish();
      Concludes(env, msg, s0, gp0, begun, start, Result(mid, gas - refund, failed), st, gas, usedGas);
    }
  }

  /** The same plain message twice: if the first is applied, the second is refused. */
  method ApplyTwice(msg: Msg, env: Env, st: State, gp: nat) returns (first: bool, second: bool)
    requires Conserving(env.run) && Conserving(env.validate)
    ensures first && !msg.fake && msg.kind == Plain && !msg.isAccount ==> !second
  {
    var t := new Transition(msg, env, st, gp);
    var used, failed;
    ghost var begun, start, mid, refund;
    first, used, failed, begun, start, mid, refund := t.TransitionDb();
    if first && !msg.fake && msg.kind == Plain && !msg.isAccount {
      NoReplay(env, msg, st, gp, t.st, env, t.gp);
    }
    var t2 := new Transition(msg, env, t.st, t.gp);
    second, used, failed, begun, start, mid, refund := t2.TransitionDb();
  }

  /** The sponsor pays for the gas and the sender for the value. */
  lemma SponsorPays(env: Env, msg: Msg, s: State, final: State, fee: int, sponsor: Addr)
    requires PlainOutcome(env, msg, s, final, fee) && !msg.isAccount && msg.sponsor == Some(sponsor)
    requires sponsor != msg.from && sponsor != msg.to && sponsor != env.coinbase
    requires msg.from != msg.to && msg.from != env.coinbase
    ensures Balance(final, sponsor) == Balance(s, sponsor) - fee
            && Balance(final, msg.from) == Balance(s, msg.from) - msg.value
  {
  }

  /** What a plain message with gas fee `fee` changes in the balance of `a`. */
  function PlainChange(env: Env, msg: Msg, fee: int, a: Addr): int {
    Paid(a, msg.to, msg.value) - Paid(a, msg.from, msg.value) - Paid(a, Payer(msg), fee) + if msg.fake then 0
        else Paid(a, env.coinbase, fee)
  }

  ghost predicate PlainOutcome(env: Env, msg: Msg, s: State, final: State, fee: int) {
    forall a: Addr {:trigger Balance(final, a)} :: Balance(final, a) == Base(env, msg, s, a)
                                                   + PlainChange(env, msg, fee, a)
  }

  /** The balances a plain message leaves, when the gas left and the gas used make up what was charged. */
  lemma PlainSettles(env: Env, msg: Msg, s: State, gp: nat, begun: Start, start: State, r: Result, final: State,
                     left: nat, used: nat)
    requires Begun(env, msg, s, gp) == Some(begun)
    requires start == WithNonce(msg, begun.st) && r == Executed(env, msg, start, begun.gas)
    requires final == Settle(r.st, Payer(msg), env.coinbase, left * msg.price, used * msg.price, msg.fake)
    requires left * msg.price + used * msg.price == msg.gasLimit * msg.price + begun.validationGas * msg.price
    ensures msg.kind == Plain ==> PlainOutcome(env, msg, s, final, used * msg.price)
  {
    var unused, fee := left * msg.price, used * msg.price;
    forall a: Addr | msg.kind == Plain
      ensures Balance(final, a) == Base(env, msg, s, a) + PlainChange(env, msg, fee, a) {
      StartBalance(env, msg, s, gp, a);
      PlainAt(env, msg, begun.st, begun.gas, a);
      SettleAt(r.st, Payer(msg), env.coinbase, unused, fee, msg.fake, a);
    }
  }

  /** What settling a message comes to, when the gas left and the gas used make up the limit and the validation gas. */
  lemma Concludes(env: Env, msg: Msg, s: State, gp: nat, begun: Start, start: State, r: Result, final: State,
                  left: nat, used: nat)
    requires Begun(env, msg, s, gp) == Some(begun) && Conserving(env.validate)
    requires start == WithNonce(msg, begun.st) && r == Executed(env, msg, start, begun.gas)
    requires final == Settle(r.st, Payer(msg), env.coinbase, left * msg.price, used * msg.price, msg.fake)
    requires left + used == msg.gasLimit + begun.validationGas
    ensures Sum(begun.st.bal) + left * msg.price + used * msg.price == Sum(s.bal)
    ensures NonceOutcome(env, msg, s, start, final)
    ensures msg.kind == Plain ==> PlainOutcome(env, msg, s, final, used * msg.price)
  {
    Balanced(env, msg, s, gp, begun, left, used);
    NoncesSettle(env, msg, s, gp, begun, start, r.st, final, left, used);
    PlainSettles(env, msg, s, gp, begun, start, r, final, left, used);
  }

  lemma PlainAt(env: Env, msg: Msg, s: State, gas: nat, a: Addr)
    requires msg.kind == Plain
    ensures Balance(Executed(env, msg, WithNonce(msg, s), gas).st, a) == Balance(s, a) - Paid(a, msg.from, msg.value)
            + Paid(a, msg.to, msg.value)
  {
    TransferAt(WithNonce(msg, s), msg.from, msg.to, msg.value, a);
  }

  lemma TransferAt(s: State, from: Addr, to: Addr, v: nat, a: Addr)
    ensures Balance(Transfer(s, from, to, v), a) == Balance(s, a) - Paid(a, from, v) + Paid(a, to, v)
  {
  }

  lemma SettleAt(mid: State, payer: Addr, coinbase: Addr, unused: int, fee: int, fake: bool, a: Addr)
    ensures Balance(Settle(mid, payer, coinbase, unused, fee, fake), a) ==
              Balance(mid, a) + Paid(a, payer, unused) + if fake then 0 else Paid(a, coinbase, fee)
  {
  }

  /** What was charged before execution is what is paid out after it. */
  lemma Balanced(env: Env, msg: Msg, s: State, gp: nat, begun: Start, left: nat, used: nat)
    requires Begun(env, msg, s, gp) == Some(begun) && Conserving(env.validate)
             && left + used == msg.gasLimit + begun.validationGas
    ensures Sum(begun.st.bal) + left * msg.price + used * msg.price == Sum(s.bal)
    ensures left * msg.price + used * msg.price == msg.gasLimit * msg.price + begun.validationGas * msg.price
  {
    BegunSum(env, msg, s, gp);
    Products(msg.gasLimit, begun.validationGas, left, used, msg.price);
  }

  predicate CapCoversPrice(msg: Msg) { msg.feeCap.Some? ==> msg.feeCap.value >= msg.price }

  /** Charging the payer in advance. */
  lemma ChargeSum(s0: State, msg: Msg)
    requires Balance(s0, Payer(msg)) >= BalanceCheck(msg)
    ensures var s1 := AddBalance(s0, Payer(msg), 0 - msg.gasLimit * msg.price);
            && Sum(s1.bal) == Sum(s0.bal) - msg.gasLimit * msg.price
            && (NonNegative(s0.bal) && CapCoversPrice(msg) ==> NonNegative(s1.bal))
  {
    if msg.feeCap.Some? && msg.feeCap.value >= msg.price {
      CapCovers(msg.gasLimit, msg.price, msg.feeCap.value);
    }
    ChargeBy(s0, Payer(msg), msg.gasLimit * msg.price);
  }

  lemma CapCovers(gas: nat, price: nat, cap: nat)
    requires cap >= price
    ensures gas * cap >= gas * price
  {
    assert gas * cap == gas * price + gas * (cap - price);
  }

  lemma ChargeBy(s0: State, payer: Addr, cost: nat)
    ensures var s1 := AddBalance(s0, payer, 0 - cost);
            && Sum(s1.bal) == Sum(s0.bal) - cost
            && (NonNegative(s0.bal) && Balance(s0, payer) >= cost ==> NonNegative(s1.bal))
  {
    AddBalanceSum(s0, payer, 0 - cost);
  }

  /** Unused gas back to the payer, the fee to the coinbase. */
  function Settle(mid: State, payer: Addr, coinbase: Addr, unused: int, fee: int, fake: bool): State {
    var s := AddBalance(mid, payer, unused);
    if fake then s else AddBalance(s, coinbase, fee)
  }

  lemma SettleSum(mid: State, payer: Addr, coinbase: Addr, unused: nat, fee: nat, fake: bool)
    ensures var s := Settle(mid, payer, coinbase, unused, fee, fake);
            && Sum(s.bal) == Sum(mid.bal) + unused + (if fake then 0 else fee)
            && (NonNegative(mid.bal) ==> NonNegative(s.bal))
  {
    AddBalanceSum(mid, payer, unused);
    AddBalanceSum(AddBalance(mid, payer, unused), coinbase, fee);
  }

  lemma Products(limit: nat, validation: nat, left: nat, used: nat, price: nat)
    requires left + used == limit + validation
    ensures limit * price + validation * price == (limit + validation) * price == left * price + used * price
  {
    assert (left + used) * price == left * price + used * price;
  }
}
