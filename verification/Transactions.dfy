/** One transaction (core/state_transition.go, core/gaspool.go): gas is bought up front, the message runs, unused gas
    and the capped refund are paid back, and the coinbase receives the rest. */
module Transactions {
  import opened Types
  import opened Arithmetic
  import opened Ledger
  import opened Execution
  import Contracts

  const TX_GAS := 21000
  const TX_GAS_CONTRACT_CREATION := 53000
  const TX_DATA_ZERO_GAS := 4
  const TX_DATA_NON_ZERO_GAS := 68

  /** `trace` is the run the message will cause; `to` is absent for a contract creation; `signed` is false when no
      sender can be recovered, as with a foreign chain id. */
  datatype Message = Message(signed: bool, from: Address, to: Option<Address>, nonce: nat, price: nat, gasLimit: nat,
                             value: nat, data: seq<nat>, trace: Trace)

  datatype TxError = InvalidSender | NonceMismatch | CannotPayGas | PoolExhausted | IntrinsicTooHigh | CannotPayValue

  /** A rejected message still leaves the state and pool the way the failing step found them. */
  datatype TxResult =
    | Applied(world: World, pool: int, used: int, failed: bool)
    | Rejected(world: World, pool: int, error: TxError)

  function NonZeroBytes(data: seq<nat>): nat {
    if data == [] then 0 else NonZeroBytes(data[..|data| - 1]) + if data[|data| - 1] != 0 then 1 else 0
  }

  function Intrinsic(data: seq<nat>, creation: bool, homestead: bool): (gas: nat)
    ensures gas >= TX_GAS
  {
    NonZeroBounded(data);
    (if creation && homestead then TX_GAS_CONTRACT_CREATION else TX_GAS)
    + NonZeroBytes(data) * TX_DATA_NON_ZERO_GAS + (|data| - NonZeroBytes(data)) * TX_DATA_ZERO_GAS
  }

  lemma {:induction false} NonZeroBounded(data: seq<nat>)
    ensures NonZeroBytes(data) <= |data|
  {
    if data != [] {
      NonZeroBounded(data[..|data| - 1]);
    }
  }

  /** The cost of no data at all, */
  lemma IntrinsicBase(creation: bool, homestead: bool)
    ensures Intrinsic([], creation, homestead) == if creation && homestead then 53000 else 21000
  {
  }

  /** what one more byte costs, wherever it stands, */
  lemma IntrinsicByte(data: seq<nat>, b: nat, creation: bool, homestead: bool)
    ensures Intrinsic(data + [b], creation, homestead)
         == Intrinsic(data, creation, homestead) + if b == 0 then 4 else 68
  {
    assert (data + [b])[..|data|] == data;
  }

  /** and so of any two pieces: their costs add up above the base. */
  lemma {:induction false} IntrinsicPieces(data: seq<nat>, more: seq<nat>, creation: bool, homestead: bool)
    ensures Intrinsic(data + more, creation, homestead) + Intrinsic([], creation, homestead)
         == Intrinsic(data, creation, homestead) + Intrinsic(more, creation, homestead)
    decreases |more|
  {
    hide Intrinsic;
    if more == [] {
      assert data + more == data;
    } else {
      var n := |more| - 1;
      assert more == more[..n] + [more[n]] && data + more == (data + more[..n]) + [more[n]];
      IntrinsicPieces(data, more[..n], creation, homestead);
      IntrinsicByte(more[..n], more[n], creation, homestead);
      IntrinsicByte(data + more[..n], more[n], creation, homestead);
    }
  }

  method IntrinsicGas(data: seq<nat>, creation: bool, homestead: bool) returns (gas: nat)
    ensures gas == Intrinsic(data, creation, homestead)
  {
    gas := if creation && homestead then TX_GAS_CONTRACT_CREATION else TX_GAS;
    if |data| > 0 {
      var nz, i := 0, 0;
      while i < |data|
        invariant 0 <= i <= |data|
        invariant nz == NonZeroBytes(data[..i]) && nz <= i
      {
        assert data[..i + 1][..i] == data[..i];
        if data[i] != 0 {
          nz := nz + 1;
        }
        i := i + 1;
      }
      assert data[..i] == data;
      gas := gas + nz * TX_DATA_NON_ZERO_GAS + (|data| - nz) * TX_DATA_ZERO_GAS;
    }
  }

  /** Taking nothing from an account leaves even a missing account alone. */
  function Debit(m: Accounts, a: Address, amount: nat): Accounts {
    if amount == 0 then m else AddBalance(m, a, 0 - amount)
  }

  /** The state the message runs in: gas paid, the sender's account in place and, for a call, its nonce taken. */
  function Opened(rules: Rules, atlantis: bool, w: World, msg: Message): World {
    var paid := Debit(w.accounts, msg.from, msg.gasLimit * msg.price);
    var known := if msg.from in paid then paid else CreateAccount(paid, msg.from);
    if msg.to.None? then w.(accounts := known) else CallReady(w.(accounts := known), msg, atlantis)
  }

  function RunMessage(rules: Rules, w: World, msg: Message, gas: int): Outcome {
    var frame := Frame(msg.from, 0, false);
    if msg.to.None? then Create(rules, w, frame, msg.value, gas, msg.trace)
    else Call(rules, w, frame, PlainCall, msg.to.value, msg.value, gas, msg.trace)
  }

  /** What self-destruction destroys while the message runs. */
  function RunLost(rules: Rules, w: World, msg: Message, gas: int): int {
    var frame := Frame(msg.from, 0, false);
    if msg.to.None? then CreateLost(rules, w, frame, msg.value, gas, msg.trace)
    else CallLost(rules, w, frame, PlainCall, msg.to.value, msg.value, gas, msg.trace)
  }

  function MessageLost(rules: Rules, atlantis: bool, w: World, msg: Message): int {
    RunLost(rules, Opened(rules, atlantis, w, msg), msg,
            msg.gasLimit - Intrinsic(msg.data, msg.to.None?, rules.homestead))
  }

  /** Paying back: unused gas and the refund to the sender, used gas to the coinbase. */
  function Settled(coinbase: Address, msg: Message, pool: int, r: Outcome): (s: TxResult)
    ensures s.Applied? && s.failed == (r.error != NoError)
  {
    var refund := Min((msg.gasLimit - r.gas) / 2, r.world.refund);
    var left := r.gas + refund;
    var back := AddBalance(AddBalance(r.world.accounts, msg.from, r.gas * msg.price), msg.from, refund * msg.price);
    var used := msg.gasLimit - left;
    Applied(r.world.(accounts := AddBalance(back, coinbase, used * msg.price)), pool + left, used, r.error != NoError)
  }

  function ApplyMessage(rules: Rules, atlantis: bool, coinbase: Address, w: World, pool: int, msg: Message): TxResult {
    var intrinsic := Intrinsic(msg.data, msg.to.None?, rules.homestead);
    if !msg.signed then Rejected(w, pool, InvalidSender)
    else if GetNonce(w.accounts, msg.from) != msg.nonce then Rejected(w, pool, NonceMismatch)
    else if Balance(w.accounts, msg.from) < msg.gasLimit * msg.price then Rejected(w, pool, CannotPayGas)
    else if pool < msg.gasLimit then Rejected(w, pool, PoolExhausted)
    else if msg.gasLimit < intrinsic then
      var paid := Debit(w.accounts, msg.from, msg.gasLimit * msg.price);
      Rejected(w.(accounts := if msg.from in paid then paid else CreateAccount(paid, msg.from)),
               pool - msg.gasLimit, IntrinsicTooHigh)
    else
      var r := RunMessage(rules, Opened(rules, atlantis, w, msg), msg, msg.gasLimit - intrinsic);
      if r.error == FundsError then Rejected(r.world, pool - msg.gasLimit, CannotPayValue)
      else Settled(coinbase, msg, pool - msg.gasLimit, r)
  }

  ghost predicate Usable(w: World, rules: Rules) {
    NonNegative(w.accounts) && FreshAddresses(rules)
  }

  lemma OpenedKeeps(rules: Rules, atlantis: bool, w: World, msg: Message)
    requires NonNegative(w.accounts) && Balance(w.accounts, msg.from) >= msg.gasLimit * msg.price
    ensures var o := Opened(rules, atlantis, w, msg);
      && Total(o.accounts) == Total(w.accounts) - msg.gasLimit * msg.price
      && NonNegative(o.accounts) && o.refund == w.refund && o.suicided == w.suicided
  {
    hide Total, NonNegative, CreateAccount, SetNonce, AddBalance;
    var cost := msg.gasLimit * msg.price;
    var paid := Debit(w.accounts, msg.from, cost);
    TotalAddBalance(w.accounts, msg.from, 0 - cost);
    TotalCreate(paid, msg.from);
    var known := if msg.from in paid then paid else CreateAccount(paid, msg.from);
    TotalSetNonce(known, msg.from, GetNonce(known, msg.from) + 1);
    if msg.to.Some? {
      TotalCreate(SetNonce(known, msg.from, GetNonce(known, msg.from) + 1), msg.to.value);
    }
  }

  lemma RunMessageKeeps(rules: Rules, w: World, msg: Message, gas: int)
    requires gas >= 0 && Usable(w, rules)
    ensures Keeps(w, gas, RunMessage(rules, w, msg, gas), RunLost(rules, w, msg, gas))
    ensures NonNegative(RunMessage(rules, w, msg, gas).world.accounts)
  {
    hide Call, Create, CallLost, CreateLost, Total;
    var frame := Frame(msg.from, 0, false);
    if msg.to.None? {
      CreateKeeps(rules, w, frame, msg.value, gas, msg.trace);
    } else {
      CallKeeps(rules, w, frame, PlainCall, msg.to.value, msg.value, gas, msg.trace);
    }
  }

  lemma SettledKeeps(coinbase: Address, msg: Message, pool: int, r: Outcome)
    requires NonNegative(r.world.accounts) && 0 <= r.gas <= msg.gasLimit
    ensures var s := Settled(coinbase, msg, pool, r);
      && Total(s.world.accounts) == Total(r.world.accounts) + msg.gasLimit * msg.price
      && NonNegative(s.world.accounts) && s.world.suicided == r.world.suicided
      && s.pool + s.used == pool + msg.gasLimit
      && 0 <= s.used <= msg.gasLimit
      && 2 * s.used >= msg.gasLimit - r.gas
  {
    hide Total, NonNegative, AddBalance;
    var refund := Min((msg.gasLimit - r.gas) / 2, r.world.refund);
    var used := msg.gasLimit - r.gas - refund;
    GasValue(r.gas, refund, used, msg.price);
    PaidBack(r.world.accounts, msg.from, coinbase, r.gas * msg.price, refund * msg.price, used * msg.price);
  }

  lemma GasValue(a: nat, b: nat, c: nat, price: nat)
    ensures a * price + b * price + c * price == (a + b + c) * price
    ensures a * price >= 0 && b * price >= 0 && c * price >= 0
  {
  }

  lemma PaidBack(m: Accounts, from: Address, coinbase: Address, x: nat, y: nat, z: nat)
    requires NonNegative(m)
    ensures var paid := AddBalance(AddBalance(AddBalance(m, from, x), from, y), coinbase, z);
      Total(paid) == Total(m) + x + y + z && NonNegative(paid)
  {
    hide Total, NonNegative, AddBalance, Balance;
    var a1 := AddBalance(m, from, x);
    var a2 := AddBalance(a1, from, y);
    BalanceNonNegative(m, from);
    TotalAddBalance(m, from, x);
    BalanceNonNegative(a1, from);
    TotalAddBalance(a1, from, y);
    BalanceNonNegative(a2, coinbase);
    TotalAddBalance(a2, coinbase, z);
  }

  /** A transaction changes the sum of balances by just what self-destruction destroys, whoever mines it: what the
      sender prepays comes back as its refunds plus the coinbase's fee, even when they are the same account. The pool
      loses exactly the gas used, which lies between half the intrinsic gas and the gas limit. */
  lemma AppliedKeeps(rules: Rules, atlantis: bool, coinbase: Address, w: World, pool: int, msg: Message)
    requires Usable(w, rules)
    ensures var r := ApplyMessage(rules, atlantis, coinbase, w, pool, msg);
      r.Applied? ==>
        && Total(r.world.accounts) == Total(w.accounts) - MessageLost(rules, atlantis, w, msg)
        && MessageLost(rules, atlantis, w, msg) >= 0 && NonNegative(r.world.accounts)
        && r.pool + r.used == pool
        && r.used <= msg.gasLimit <= pool
        && 2 * r.used >= Intrinsic(msg.data, msg.to.None?, rules.homestead)
  {
    hide Total, NonNegative, Settled, Opened, RunMessage, RunLost;
    var intrinsic := Intrinsic(msg.data, msg.to.None?, rules.homestead);
    if ApplyMessage(rules, atlantis, coinbase, w, pool, msg).Applied? {
      var o := Opened(rules, atlantis, w, msg);
      OpenedKeeps(rules, atlantis, w, msg);
      RunMessageKeeps(rules, o, msg, msg.gasLimit - intrinsic);
      SettledKeeps(coinbase, msg, pool - msg.gasLimit, RunMessage(rules, o, msg, msg.gasLimit - intrinsic));
    }
  }

  /** A message is applied exactly when its sender is known, its nonce is next, its gas and value are covered together,
      the pool has the gas, and the gas covers the intrinsic cost. */
  lemma MessageAppliedIff(rules: Rules, atlantis: bool, coinbase: Address, w: World, pool: int, msg: Message)
    ensures ApplyMessage(rules, atlantis, coinbase, w, pool, msg).Applied? <==>
      && msg.signed && GetNonce(w.accounts, msg.from) == msg.nonce
      && Balance(w.accounts, msg.from) >= msg.gasLimit * msg.price + msg.value
      && pool >= msg.gasLimit >= Intrinsic(msg.data, msg.to.None?, rules.homestead)
  {
    hide Settled, Opened, RunMessage, Intrinsic, Balance;
    OpenedFunds(rules, atlantis, w, msg, msg.gasLimit * msg.price);
    CannotPayIff(rules, Opened(rules, atlantis, w, msg), msg,
                 msg.gasLimit - Intrinsic(msg.data, msg.to.None?, rules.homestead));
  }

  lemma OpenedFunds(rules: Rules, atlantis: bool, w: World, msg: Message, prepaid: nat)
    requires prepaid == msg.gasLimit * msg.price
    ensures Balance(Opened(rules, atlantis, w, msg).accounts, msg.from) == Balance(w.accounts, msg.from) - prepaid
  {
  }

  lemma CannotPayIff(rules: Rules, w: World, msg: Message, gas: int)
    ensures RunMessage(rules, w, msg, gas).error == FundsError <==> Balance(w.accounts, msg.from) < msg.value
  {
    hide Call, Create;
    var frame := Frame(msg.from, 0, false);
    if msg.to.None? {
      Contracts.CreateErrorsIff(rules, w, frame, msg.value, gas, msg.trace);
    } else {
      Contracts.CallErrorsIff(rules, w, frame, PlainCall, msg.to.value, msg.value, gas, msg.trace);
    }
  }

  /** What an applied message is charged: the gas its run took, less what the run freed, but never less than half,
      rounded up. The sender gets the rest of its gas back, the coinbase is paid for the gas charged. */
  lemma GasCharged(rules: Rules, atlantis: bool, coinbase: Address, w: World, pool: int, msg: Message, a: Address)
    requires ApplyMessage(rules, atlantis, coinbase, w, pool, msg).Applied?
    ensures var r := ApplyMessage(rules, atlantis, coinbase, w, pool, msg);
      var run := RunMessage(rules, Opened(rules, atlantis, w, msg), msg,
                            msg.gasLimit - Intrinsic(msg.data, msg.to.None?, rules.homestead));
      var spent := msg.gasLimit - run.gas;
      && r.used == Max(spent - run.world.refund, (spent + 1) / 2) && r.pool == pool - r.used
      && r.failed == (run.error != NoError)
      && GetOrNew(r.world.accounts, a) == GetOrNew(run.world.accounts, a).(balance :=
           Balance(run.world.accounts, a) + (if a == msg.from then (msg.gasLimit - r.used) * msg.price else 0)
                                          + if a == coinbase then r.used * msg.price else 0)
  {
    hide Opened, RunMessage, Intrinsic, Settled, GetOrNew, Balance;
    var run := RunMessage(rules, Opened(rules, atlantis, w, msg), msg,
                          msg.gasLimit - Intrinsic(msg.data, msg.to.None?, rules.homestead));
    SettledGas(coinbase, msg, pool - msg.gasLimit, run);
    SettledAccount(coinbase, msg, pool - msg.gasLimit, run, a);
  }

  lemma SettledGas(coinbase: Address, msg: Message, pool: int, r: Outcome)
    ensures var s := Settled(coinbase, msg, pool, r);
      var spent := msg.gasLimit - r.gas;
      && s.used == Max(spent - r.world.refund, (spent + 1) / 2) && s.pool == pool + msg.gasLimit - s.used
  {
  }

  lemma SettledAccount(coinbase: Address, msg: Message, pool: int, r: Outcome, a: Address)
    ensures var s := Settled(coinbase, msg, pool, r);
      GetOrNew(s.world.accounts, a) == GetOrNew(r.world.accounts, a).(balance :=
        Balance(r.world.accounts, a) + (if a == msg.from then (msg.gasLimit - s.used) * msg.price else 0)
                                     + if a == coinbase then s.used * msg.price else 0)
  {
    var refund := Min((msg.gasLimit - r.gas) / 2, r.world.refund);
    assert (r.gas + refund) * msg.price == r.gas * msg.price + refund * msg.price;
    hide Min;
    PaidTo(r.world.accounts, msg.from, coinbase, r.gas * msg.price, refund * msg.price,
           (msg.gasLimit - r.gas - refund) * msg.price, a);
  }

  lemma PaidTo(m: Accounts, from: Address, coinbase: Address, x: int, y: int, z: int, a: Address)
    ensures GetOrNew(AddBalance(AddBalance(AddBalance(m, from, x), from, y), coinbase, z), a)
         == GetOrNew(m, a).(balance := Balance(m, a) + (if a == from then x + y else 0)
                                                     + if a == coinbase then z else 0)
  {
  }

  /** An applied message takes its sender's nonce for good, whatever its run does. */
  lemma NonceSpent(rules: Rules, atlantis: bool, coinbase: Address, w: World, pool: int, msg: Message)
    requires ApplyMessage(rules, atlantis, coinbase, w, pool, msg).Applied?
    ensures var r := ApplyMessage(rules, atlantis, coinbase, w, pool, msg);
      && GetNonce(w.accounts, msg.from) == msg.nonce && GetNonce(r.world.accounts, msg.from) > msg.nonce
      && forall a :: GetNonce(w.accounts, a) <= GetNonce(r.world.accounts, a)
  {
    hide Opened, RunMessage, Intrinsic, Settled;
    var o, gas := Opened(rules, atlantis, w, msg), msg.gasLimit - Intrinsic(msg.data, msg.to.None?, rules.homestead);
    var run := RunMessage(rules, o, msg, gas);
    OpenedNonces(rules, atlantis, w, msg);
    RunNonces(rules, o, msg, gas);
    SettledNonces(coinbase, msg, pool - msg.gasLimit, run);
  }

  lemma OpenedNonces(rules: Rules, atlantis: bool, w: World, msg: Message)
    ensures var o := Opened(rules, atlantis, w, msg);
      && (forall a :: GetNonce(w.accounts, a) <= GetNonce(o.accounts, a))
      && GetNonce(o.accounts, msg.from) == GetNonce(w.accounts, msg.from) + if msg.to.Some? then 1 else 0
  {
  }

  lemma RunNonces(rules: Rules, w: World, msg: Message, gas: int)
    requires RunMessage(rules, w, msg, gas).error != FundsError
    ensures var r := RunMessage(rules, w, msg, gas);
      && (forall a :: GetNonce(w.accounts, a) <= GetNonce(r.world.accounts, a))
      && (msg.to.None? ==> GetNonce(r.world.accounts, msg.from) > GetNonce(w.accounts, msg.from))
  {
    hide Call, Create, NonceTaken;
    var frame, r := Frame(msg.from, 0, false), RunMessage(rules, w, msg, gas);
    if msg.to.None? {
      CannotPayIff(rules, w, msg, gas);
      Contracts.NonceTakenLasts(w, frame);
      Contracts.CreateTakesNonce(rules, w, frame, msg.value, gas, msg.trace);
      Contracts.LastingTwice(w, NonceTaken(w, frame), r.world);
      assert Contracts.Nonce(r.world, msg.from) >= Contracts.Nonce(NonceTaken(w, frame), msg.from);
    } else {
      Contracts.CallLasts(rules, w, frame, PlainCall, msg.to.value, msg.value, gas, msg.trace);
    }
    forall a
      ensures GetNonce(w.accounts, a) <= GetNonce(r.world.accounts, a)
    {
      assert Contracts.Nonce(w, a) <= Contracts.Nonce(r.world, a);
    }
  }

  lemma SettledNonces(coinbase: Address, msg: Message, pool: int, r: Outcome)
    ensures forall a :: GetNonce(Settled(coinbase, msg, pool, r).world.accounts, a) == GetNonce(r.world.accounts, a)
  {
    hide Settled;
    forall a
      ensures GetNonce(Settled(coinbase, msg, pool, r).world.accounts, a) == GetNonce(r.world.accounts, a)
    {
      SettledAccount(coinbase, msg, pool, r, a);
    }
  }

  lemma OpenedBalance(rules: Rules, atlantis: bool, w: World, msg: Message, prepaid: nat, a: Address)
    requires msg.to.Some? && prepaid == msg.gasLimit * msg.price
    ensures var o := Opened(rules, atlantis, w, msg);
      && o.refund == w.refund
      && GetNonce(o.accounts, msg.from) == GetNonce(w.accounts, msg.from) + 1
      && Balance(o.accounts, a) == Balance(w.accounts, a) - if a == msg.from then prepaid else 0
  {
  }

  lemma SettledBalance(coinbase: Address, msg: Message, pool: int, r: Outcome, back: int, fee: int, a: Address)
    requires r.world.refund == 0 && 0 <= r.gas <= msg.gasLimit
    requires back == r.gas * msg.price && fee == (msg.gasLimit - r.gas) * msg.price
    ensures var s := Settled(coinbase, msg, pool, r);
      && s.used == msg.gasLimit - r.gas
      && GetNonce(s.world.accounts, msg.from) == GetNonce(r.world.accounts, msg.from)
      && Balance(s.world.accounts, a) ==
           Balance(r.world.accounts, a) + (if a == msg.from then back else 0) + if a == coinbase then fee else 0
  {
    assert Min((msg.gasLimit - r.gas) / 2, 0) == 0;
    assert 0 * msg.price == 0;
  }

  lemma ReturnsAtOnce(rules: Rules, w: World, msg: Message, gas: int, size: nat, a: Address)
    requires msg.to.Some? && msg.trace == Halt(Return(size)) && Balance(w.accounts, msg.from) >= msg.value
    ensures var r := RunMessage(rules, w, msg, gas);
      && r.error == NoError && r.gas == gas && r.world.refund == w.refund
      && (msg.from in w.accounts ==> GetNonce(r.world.accounts, msg.from) == GetNonce(w.accounts, msg.from))
      && Balance(r.world.accounts, a) ==
           Balance(w.accounts, a) + (if a == msg.to.value then msg.value else 0)
           - if a == msg.from then msg.value else 0
  {
    PlainCallMovesValue(rules, w, Frame(msg.from, 0, false), PlainCall, msg.to.value, msg.value, gas, size, a);
  }

  /** Who pays whom: in a transfer to code that returns at once the sender pays the value and the intrinsic gas, the
      coinbase earns that gas, the recipient gets the value, and the sender's nonce is taken. */
  lemma TransferPays(rules: Rules, atlantis: bool, coinbase: Address, w: World, pool: int, msg: Message, size: nat,
                     a: Address)
    requires msg.to.Some? && msg.trace == Halt(Return(size)) && w.refund == 0
    requires ApplyMessage(rules, atlantis, coinbase, w, pool, msg).Applied?
    ensures var r := ApplyMessage(rules, atlantis, coinbase, w, pool, msg);
      var fee := Intrinsic(msg.data, false, rules.homestead) * msg.price;
      && !r.failed && r.used == Intrinsic(msg.data, false, rules.homestead)
      && GetNonce(w.accounts, msg.from) == msg.nonce && GetNonce(r.world.accounts, msg.from) == msg.nonce + 1
      && Balance(r.world.accounts, a) == Balance(w.accounts, a)
                                         - (if a == msg.from then fee + msg.value else 0)
                                         + (if a == coinbase then fee else 0)
                                         + (if a == msg.to.value then msg.value else 0)
  {
    hide Settled, Opened, RunMessage, Intrinsic, Balance, GetNonce;
    var intrinsic := Intrinsic(msg.data, false, rules.homestead);
    var gas := msg.gasLimit - intrinsic;
    var o := Opened(rules, atlantis, w, msg);
    OpenedBalance(rules, atlantis, w, msg, msg.gasLimit * msg.price, a);
    FundsForValue(rules, o, msg, gas, size);
    ReturnsAtOnce(rules, o, msg, gas, size, a);
    SenderOpened(rules, atlantis, w, msg);
    var r := RunMessage(rules, o, msg, gas);
    SettledBalance(coinbase, msg, pool - msg.gasLimit, r, gas * msg.price, intrinsic * msg.price, a);
    GasValue(gas, intrinsic, 0, msg.price);
  }

  lemma SenderOpened(rules: Rules, atlantis: bool, w: World, msg: Message)
    requires msg.to.Some?
    ensures msg.from in Opened(rules, atlantis, w, msg).accounts
  {
  }

  lemma FundsForValue(rules: Rules, w: World, msg: Message, gas: int, size: nat)
    requires msg.to.Some? && RunMessage(rules, w, msg, gas).error != FundsError && msg.trace == Halt(Return(size))
    ensures Balance(w.accounts, msg.from) >= msg.value
  {
  }

  /** A message whose run never self-destructs destroys nothing and marks no account for deletion. */
  lemma MessageLosesNothing(rules: Rules, atlantis: bool, coinbase: Address, w: World, pool: int, msg: Message)
    requires NoSelfDestruct(msg.trace)
    ensures MessageLost(rules, atlantis, w, msg) == 0
    ensures var r := ApplyMessage(rules, atlantis, coinbase, w, pool, msg);
      r.Applied? ==> r.world.suicided == w.suicided
  {
    hide Call, Create, CallLost, CreateLost, Intrinsic;
    var o, frame := Opened(rules, atlantis, w, msg), Frame(msg.from, 0, false);
    var gas := msg.gasLimit - Intrinsic(msg.data, msg.to.None?, rules.homestead);
    if msg.to.None? {
      CreateLosesNothing(rules, o, frame, msg.value, gas, msg.trace);
    } else {
      CallLosesNothing(rules, o, frame, PlainCall, msg.to.value, msg.value, gas, msg.trace);
    }
  }

  /** A rejected message never adds gas to the pool; it takes none unless it got past buying gas. */
  lemma RejectedPool(rules: Rules, atlantis: bool, coinbase: Address, w: World, pool: int, msg: Message)
    ensures var r := ApplyMessage(rules, atlantis, coinbase, w, pool, msg);
      r.Rejected? ==>
        r.pool == if r.error in {IntrinsicTooHigh, CannotPayValue} then pool - msg.gasLimit else pool
  {
  }

  class GasPool {
    var gas: int

    constructor (amount: int)
      ensures gas == amount
    {
      gas := amount;
    }

    method AddGas(amount: int)
      modifies this
      ensures gas == old(gas) + amount
    {
      gas := gas + amount;
    }

    method SubGas(amount: int) returns (ok: bool)
      modifies this
      ensures ok <==> old(gas) >= amount
      ensures gas == if ok then old(gas) - amount else old(gas)
    {
      ok := gas >= amount;
      if ok {
        gas := gas - amount;
      }
    }
  }

  /** The result a transition leaves behind in its environment and pool. */
  ghost predicate Matches(r: TxResult, w: World, pool: int, used: int, failed: bool, err: Option<TxError>) {
    match r
    case Applied(w', pool', used', failed') =>
      w == w' && pool == pool' && used == used' && failed == failed' && err == None
    case Rejected(w', pool', e) => w == w' && pool == pool' && err == Some(e)
  }

  class StateTransition {
    const gp: GasPool
    const env: Env
    const msg: Message
    const coinbase: Address
    const atlantis: bool
    var gas: int
    var initialGas: int

    constructor (env: Env, msg: Message, gp: GasPool, coinbase: Address, atlantis: bool)
      ensures this.env == env && this.msg == msg && this.gp == gp && this.coinbase == coinbase
      ensures this.atlantis == atlantis
      ensures gas == 0 && initialGas == 0
    {
      this.env, this.msg, this.gp, this.coinbase, this.atlantis := env, msg, gp, coinbase, atlantis;
      gas, initialGas := 0, 0;
    }

    method UseGas(amount: int) returns (ok: bool)
      modifies this`gas
      ensures ok <==> old(gas) >= amount
      ensures gas == if ok then old(gas) - amount else old(gas)
    {
      ok := gas >= amount;
      if ok {
        gas := gas - amount;
      }
    }

    function GasUsed(): int
      reads this
    {
      initialGas - gas
    }

    /** preCheck and buyGas: the sender, the nonce, then the sender's balance, then the pool. */
    method PreCheck() returns (err: Option<TxError>)
      requires gas == 0
      modifies this, gp, env`accounts
      ensures var m, cost := old(env.accounts), msg.gasLimit * msg.price;
        err == (if !msg.signed then Some(InvalidSender)
                else if GetNonce(m, msg.from) != msg.nonce then Some(NonceMismatch)
                else if Balance(m, msg.from) < cost then Some(CannotPayGas)
                else if old(gp.gas) < msg.gasLimit then Some(PoolExhausted) else None)
      ensures err.Some? ==> gp.gas == old(gp.gas) && env.accounts == old(env.accounts)
      ensures err == None ==>
        && gp.gas == old(gp.gas) - msg.gasLimit && gas == initialGas == msg.gasLimit
        && env.accounts == Debit(old(env.accounts), msg.from, msg.gasLimit * msg.price)
    {
      if !msg.signed {
        return Some(InvalidSender);
      }
      if GetNonce(env.accounts, msg.from) != msg.nonce {
        return Some(NonceMismatch);
      }
      var cost := msg.gasLimit * msg.price;
      if Balance(env.accounts, msg.from) < cost {
        return Some(CannotPayGas);
      }
      var ok := gp.SubGas(msg.gasLimit);
      if !ok {
        return Some(PoolExhausted);
      }
      gas, initialGas := gas + msg.gasLimit, msg.gasLimit;
      env.accounts := Debit(env.accounts, msg.from, cost);
      err := None;
    }

    method RefundGas()
      modifies this`gas, gp, env`accounts
      ensures var refund := Min(old(GasUsed()) / 2, env.refund);
        && gas == old(gas) + refund
        && env.accounts == AddBalance(AddBalance(old(env.accounts), msg.from, old(gas) * msg.price), msg.from,
                                      refund * msg.price)
        && gp.gas == old(gp.gas) + gas
    {
      env.accounts := AddBalance(env.accounts, msg.from, gas * msg.price);
      var refund := Min(GasUsed() / 2, env.refund);
      gas := gas + refund;
      env.accounts := AddBalance(env.accounts, msg.from, refund * msg.price);
      gp.AddGas(gas);
    }

    /** Runs the message once gas is bought and the sender's account is in place. */
    method Execute(ghost w: World) returns (failed: bool, cannotPay: bool)
      requires env.Now() == w.(accounts := if msg.from in w.accounts then w.accounts
                               else CreateAccount(w.accounts, msg.from))
      modifies this`gas, env
      ensures var o := if msg.to.None? then old(env.Now()) else CallReady(old(env.Now()), msg, atlantis);
        var r := RunMessage(env.rules, o, msg, old(gas));
        && env.Now() == r.world && gas == r.gas
        && failed == (r.error != NoError) && cannotPay == (r.error == FundsError)
    {
      hide Call, Create;
      var left, error, size;
      var frame := Frame(msg.from, 0, false);
      if msg.to.None? {
        left, error, size := env.DoCreate(frame, msg.value, gas, msg.trace);
      } else {
        env.accounts := SetNonce(env.accounts, msg.from, GetNonce(env.accounts, msg.from) + 1);
        if msg.to.value !in env.accounts && !atlantis {
          env.accounts := CreateAccount(env.accounts, msg.to.value);
        }
        left, error, size := env.DoCall(frame, msg.to.value, msg.value, gas, msg.trace);
      }
      gas := left;
      failed, cannotPay := error != NoError, error == FundsError;
    }

    /** Refunds the sender and pays the coinbase. */
    method PayBack(ghost r: Outcome) returns (used: int)
      requires env.Now() == r.world && gas == r.gas && initialGas == msg.gasLimit
      modifies this`gas, gp, env`accounts
      ensures var s := Settled(coinbase, msg, old(gp.gas), r);
        env.Now() == s.world && gp.gas == s.pool && used == s.used
    {
      hide AddBalance;
      RefundGas();
      env.accounts := AddBalance(env.accounts, coinbase, GasUsed() * msg.price);
      used := GasUsed();
    }

    method TransitionDb() returns (used: int, failed: bool, err: Option<TxError>)
      requires gas == 0 && initialGas == 0
      modifies this, gp, env
      ensures Matches(ApplyMessage(env.rules, atlantis, coinbase, old(env.Now()), old(gp.gas), msg),
                      env.Now(), gp.gas, used, failed, err)
    {
      hide Call, Create, RunMessage, AddBalance, CreateAccount, SetNonce, GetNonce, Balance, Settled;
      used, failed := 0, false;
      ghost var w, pool := env.Now(), gp.gas;
      err := PreCheck();
      if err.Some? {
        return;
      }
      ghost var paid := env.Now();
      if msg.from !in env.accounts {
        env.accounts := CreateAccount(env.accounts, msg.from);
      }
      var intrinsic := IntrinsicGas(msg.data, msg.to.None?, env.rules.homestead);
      var ok := UseGas(intrinsic);
      if !ok {
        err := Some(IntrinsicTooHigh);
        return;
      }
      assert Opened(env.rules, atlantis, w, msg) ==
        if msg.to.None? then env.Now() else CallReady(env.Now(), msg, atlantis);
      var cannotPay;
      failed, cannotPay := Execute(paid);
      if cannotPay {
        err := Some(CannotPayValue);
        return;
      }
      used := PayBack(RunMessage(env.rules, Opened(env.rules, atlantis, w, msg), msg, msg.gasLimit - intrinsic));
    }
  }

  /** The last steps before a call: the sender's nonce is taken and, before Atlantis, a missing target is created. */
  function CallReady(w: World, msg: Message, atlantis: bool): World
    requires msg.to.Some?
  {
    var counted := SetNonce(w.accounts, msg.from, GetNonce(w.accounts, msg.from) + 1);
    w.(accounts := if msg.to.value !in counted && !atlantis then CreateAccount(counted, msg.to.value) else counted)
  }
}
