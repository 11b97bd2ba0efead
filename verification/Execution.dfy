/** Nested message calls and contract creations (core/execution.go).

    A VM run is given by its trace: the gas it spends, the storage it writes, the calls and creations it makes and how
    it halts. Any finite run has such a trace, so statements for every trace hold for every contract. */
module Execution {
  import opened Types
  import opened Arithmetic
  import opened Ledger

  const CALL_CREATE_DEPTH_MAX := 1024
  const MAX_CODE_SIZE := 24576
  const CREATE_DATA_GAS := 200
  const CALL_STIPEND := 2300
  const CALL_VALUE_FEE := 9000

  datatype CallKind = PlainCall | CallCode | DelegateCall | StaticCall

  /** `fee` is what the calling opcode charges on top of the gas it hands over. */
  datatype Trace =
    | Halt(halt: Halt)
    | Spend(amount: nat, rest: Trace)
    | Store(word: int, rest: Trace)
    | Refund(amount: nat, rest: Trace)
    | SubCall(kind: CallKind, addr: Address, value: nat, gas: nat, fee: nat, body: Trace, rest: Trace)
    | SubCreate(value: nat, gas: nat, body: Trace, rest: Trace)

  datatype Halt = Return(size: nat) | Reverted | Failed | SelfDestruct(beneficiary: Address)

  datatype Error =
    NoError | DepthError | FundsError | CollisionError | RevertError | VmError | CodeStoreError | MaxCodeError

  /** The outcome of a call, a creation or a run: new state, gas not used, error, size of the returned data. */
  datatype Outcome = Outcome(world: World, gas: int, error: Error, size: nat)

  /** The rule set of a block: which forks are active, which addresses are precompiled, where contracts go. */
  datatype Rules = Rules(homestead: bool, hardfork2: bool, precompiled: Address -> bool,
                         contractAddress: (Address, nat) -> Address)

  datatype Frame = Frame(self: Address, depth: nat, readOnly: bool)

  function Fee(value: nat): nat { if value > 0 then CALL_VALUE_FEE else 0 }
  function Stipend(value: nat): nat { if value > 0 then CALL_STIPEND else 0 }

  /** A failed run leaves the state of its snapshot and, unless it reverted, no gas. */
  function Settle(snapshot: World, r: Outcome): Outcome {
    if r.error == NoError then r
    else Outcome(snapshot, if r.error == RevertError then r.gas else 0, r.error, r.size)
  }

  function Suicide(w: World, self: Address, beneficiary: Address): World {
    var b := Balance(w.accounts, self);
    var paid := AddBalance(w.accounts, beneficiary, b);
    if self !in paid then w.(accounts := paid)
    else World(paid[self := paid[self].(balance := 0)], w.refund, w.suicided + {self})
  }

  /** Running a trace inside a frame with the given gas. */
  function Exec(rules: Rules, w: World, frame: Frame, gas: int, t: Trace): Outcome
    decreases t, 0
  {
    var frozen := frame.readOnly && rules.hardfork2;
    match t
    case Halt(Return(size)) => Outcome(w, gas, NoError, size)
    case Halt(Reverted) => Outcome(w, gas, RevertError, 0)
    case Halt(Failed) => Outcome(w, gas, VmError, 0)
    case Halt(SelfDestruct(b)) =>
      if frozen then Outcome(w, gas, VmError, 0) else Outcome(Suicide(w, frame.self, b), gas, NoError, 0)
    case Spend(amount, rest) =>
      if gas < amount then Outcome(w, gas, VmError, 0) else Exec(rules, w, frame, gas - amount, rest)
    case Store(word, rest) =>
      if frozen then Outcome(w, gas, VmError, 0)
      else
        var acct := GetOrNew(w.accounts, frame.self).(storage := word);
        Exec(rules, w.(accounts := w.accounts[frame.self := acct]), frame, gas, rest)
    case Refund(amount, rest) => Exec(rules, w.(refund := w.refund + amount), frame, gas, rest)
    case SubCall(kind, addr, value, given, fee, body, rest) =>
      if frozen && kind == PlainCall && value != 0 then Outcome(w, gas, VmError, 0)
      else if gas < given + Max(fee, FeeOf(kind, value)) then Outcome(w, gas, VmError, 0)
      else
        var left := gas - given - Max(fee, FeeOf(kind, value));
        var r := Call(rules, w, frame, kind, addr, value, given + StipendOf(kind, value), body);
        Exec(rules, r.world, frame, left + r.gas, rest)
    case SubCreate(value, given, body, rest) =>
      if frozen || gas < given then Outcome(w, gas, VmError, 0)
      else
        var r := Create(rules, w, frame, value, given, body);
        Exec(rules, r.world, frame, gas - given + r.gas, rest)
  }

  function FeeOf(kind: CallKind, value: nat): nat {
    if kind == PlainCall || kind == CallCode then Fee(value) else 0
  }

  function StipendOf(kind: CallKind, value: nat): nat {
    if kind == PlainCall || kind == CallCode then Stipend(value) else 0
  }

  /** The four calls of core/execution.go, made by the frame's own account. */
  function Call(rules: Rules, w: World, frame: Frame, kind: CallKind, addr: Address, value: nat, gas: int,
                body: Trace): Outcome
    decreases body, 1
  {
    var transfers := kind == PlainCall || kind == CallCode;
    if frame.depth > CALL_CREATE_DEPTH_MAX then Outcome(w, gas, DepthError, 0)
    else if transfers && Balance(w.accounts, frame.self) < value then Outcome(w, gas, FundsError, 0)
    else if kind == PlainCall && addr !in w.accounts && !rules.precompiled(addr) && rules.hardfork2 && value == 0 then
      Outcome(w, gas, NoError, 0)
    else
      Settle(w, Exec(rules, OpenCall(w, frame, kind, addr, value), CallFrame(frame, kind, addr), gas, body))
  }

  function CallFrame(frame: Frame, kind: CallKind, addr: Address): Frame {
    Frame(if kind == PlainCall || kind == StaticCall then addr else frame.self,
          frame.depth + 1, frame.readOnly || kind == StaticCall)
  }

  /** The state a callee starts in: its account exists, and the value has been moved. */
  function OpenCall(w: World, frame: Frame, kind: CallKind, addr: Address, value: nat): World {
    var target := CallFrame(frame, kind, addr).self;
    var made := if kind != CallCode && target !in w.accounts then CreateAccount(w.accounts, target) else w.accounts;
    w.(accounts := if kind == PlainCall then Transfer(made, frame.self, addr, value)
                   else if kind == StaticCall then AddBalance(made, addr, 0) else made)
  }

  /** Where a creation by `frame.self` would go, and the state with the creator's nonce taken. */
  function NonceTaken(w: World, frame: Frame): World {
    w.(accounts := SetNonce(w.accounts, frame.self, GetNonce(w.accounts, frame.self) + 1))
  }

  function Create(rules: Rules, w: World, frame: Frame, value: nat, gas: int, body: Trace): Outcome
    decreases body, 1
  {
    if frame.depth > CALL_CREATE_DEPTH_MAX then Outcome(w, gas, DepthError, 0)
    else if Balance(w.accounts, frame.self) < value then Outcome(w, gas, FundsError, 0)
    else
      var address := rules.contractAddress(frame.self, GetNonce(w.accounts, frame.self));
      var snapshot := NonceTaken(w, frame);
      if GetNonce(snapshot.accounts, address) != STARTING_NONCE || GetOrNew(snapshot.accounts, address).code != 0 then
        Outcome(snapshot, 0, CollisionError, 0)
      else
        Deposit(rules, snapshot, address,
                Exec(rules, OpenCreate(rules, snapshot, frame.self, address, value),
                     Frame(address, frame.depth + 1, frame.readOnly), gas, body))
  }

  /** The state initialisation code starts in. */
  function OpenCreate(rules: Rules, snapshot: World, creator: Address, address: Address, value: nat): World {
    var made := CreateAccount(snapshot.accounts, address);
    var numbered := if rules.hardfork2 then SetNonce(made, address, STARTING_NONCE + 1) else made;
    snapshot.(accounts := Transfer(numbered, creator, address, value))
  }

  /** Paying for and storing the returned code, or undoing the creation. */
  function Deposit(rules: Rules, snapshot: World, address: Address, r: Outcome): Outcome {
    var tooBig := r.size > MAX_CODE_SIZE && rules.hardfork2;
    var cost := r.size * CREATE_DATA_GAS;
    if r.error != NoError then Settle(snapshot, r)
    else if tooBig then Settle(snapshot, r.(error := MaxCodeError))
    else if cost <= r.gas then
      var acct := GetOrNew(r.world.accounts, address).(code := r.size);
      Outcome(r.world.(accounts := r.world.accounts[address := acct]), r.gas - cost, NoError, r.size)
    else if rules.homestead then Settle(snapshot, r.(error := CodeStoreError))
    else r.(error := CodeStoreError)
  }

  /** The guards passed: the call reaches its code. */
  predicate CallRuns(rules: Rules, w: World, frame: Frame, kind: CallKind, addr: Address, value: nat) {
    && frame.depth <= CALL_CREATE_DEPTH_MAX
    && !((kind == PlainCall || kind == CallCode) && Balance(w.accounts, frame.self) < value)
    && !(kind == PlainCall && addr !in w.accounts && !rules.precompiled(addr) && rules.hardfork2 && value == 0)
  }

  // What self-destruction destroys. An account that names itself as beneficiary loses its balance; a run that is undone
  // has destroyed nothing.

  function ExecLost(rules: Rules, w: World, frame: Frame, gas: int, t: Trace): int
    decreases t, 0
  {
    var frozen := frame.readOnly && rules.hardfork2;
    match t
    case Halt(SelfDestruct(b)) => if frozen || b != frame.self then 0 else Balance(w.accounts, frame.self)
    case Halt(_) => 0
    case Spend(amount, rest) => if gas < amount then 0 else ExecLost(rules, w, frame, gas - amount, rest)
    case Store(word, rest) =>
      if frozen then 0 else
        var acct := GetOrNew(w.accounts, frame.self).(storage := word);
        ExecLost(rules, w.(accounts := w.accounts[frame.self := acct]), frame, gas, rest)
    case Refund(amount, rest) => ExecLost(rules, w.(refund := w.refund + amount), frame, gas, rest)
    case SubCall(kind, addr, value, given, fee, body, rest) =>
      if (frozen && kind == PlainCall && value != 0) || gas < given + Max(fee, FeeOf(kind, value)) then 0 else
        var left := gas - given - Max(fee, FeeOf(kind, value));
        var r := Call(rules, w, frame, kind, addr, value, given + StipendOf(kind, value), body);
        CallLost(rules, w, frame, kind, addr, value, given + StipendOf(kind, value), body)
        + ExecLost(rules, r.world, frame, left + r.gas, rest)
    case SubCreate(value, given, body, rest) =>
      if frozen || gas < given then 0 else
        var r := Create(rules, w, frame, value, given, body);
        CreateLost(rules, w, frame, value, given, body) + ExecLost(rules, r.world, frame, gas - given + r.gas, rest)
  }

  function CallLost(rules: Rules, w: World, frame: Frame, kind: CallKind, addr: Address, value: nat, gas: int,
                    body: Trace): int
    decreases body, 1
  {
    var open, inner := OpenCall(w, frame, kind, addr, value), CallFrame(frame, kind, addr);
    if !CallRuns(rules, w, frame, kind, addr, value) || Exec(rules, open, inner, gas, body).error != NoError then 0
    else ExecLost(rules, open, inner, gas, body)
  }

  /** A creation stands if it reports no error, or before Homestead if just its code could not be paid for. */
  function CreateLost(rules: Rules, w: World, frame: Frame, value: nat, gas: int, body: Trace): int
    decreases body, 1
  {
    var error := Create(rules, w, frame, value, gas, body).error;
    var address := rules.contractAddress(frame.self, GetNonce(w.accounts, frame.self));
    if error != NoError && (rules.homestead || error != CodeStoreError) then 0
    else ExecLost(rules, OpenCreate(rules, NonceTaken(w, frame), frame.self, address, value),
                  Frame(address, frame.depth + 1, frame.readOnly), gas, body)
  }

  /** What every part of an execution does: the sum of balances falls by just what was destroyed, no balance goes
      negative, and gas only shrinks. */
  ghost predicate Keeps(w: World, gas: int, r: Outcome, lost: int) {
    && Total(r.world.accounts) == Total(w.accounts) - lost && lost >= 0
    && (NonNegative(w.accounts) ==> NonNegative(r.world.accounts))
    && 0 <= r.gas <= gas
  }

  /** New contracts never land on their creator. */
  ghost predicate FreshAddresses(rules: Rules) {
    forall a, n :: rules.contractAddress(a, n) != a
  }

  lemma SettleKeeps(snapshot: World, before: World, gas: int, r: Outcome, lost: int)
    requires Keeps(before, gas, r, lost) && Total(before.accounts) == Total(snapshot.accounts)
    requires NonNegative(snapshot.accounts) ==> NonNegative(before.accounts)
    ensures Keeps(snapshot, gas, Settle(snapshot, r), if r.error == NoError then lost else 0)
  {
  }

  lemma SuicideKeeps(w: World, self: Address, beneficiary: Address)
    requires NonNegative(w.accounts)
    ensures var lost := if self == beneficiary then Balance(w.accounts, self) else 0;
      Total(Suicide(w, self, beneficiary).accounts) == Total(w.accounts) - lost && lost >= 0
    ensures NonNegative(Suicide(w, self, beneficiary).accounts)
  {
    var b := Balance(w.accounts, self);
    var paid := AddBalance(w.accounts, beneficiary, b);
    TotalAddBalance(w.accounts, beneficiary, b);
    if self in paid {
      TotalUpdate(paid, self, paid[self].(balance := 0));
    }
  }

  lemma StoreKeeps(w: World, a: Address, acct: Account)
    requires NonNegative(w.accounts) && acct.balance == Balance(w.accounts, a)
    ensures var stored := w.(accounts := w.accounts[a := acct]);
      Total(stored.accounts) == Total(w.accounts) && NonNegative(stored.accounts)
  {
    TotalUpdate(w.accounts, a, acct);
  }

  /** Over every nested tree of calls and creations: the sum of balances falls by exactly what self-destructs to
      oneself destroyed, no balance goes negative, no gas appears. */
  lemma {:induction false} ExecKeeps(rules: Rules, w: World, frame: Frame, gas: int, t: Trace)
    requires gas >= 0 && NonNegative(w.accounts) && FreshAddresses(rules)
    ensures Keeps(w, gas, Exec(rules, w, frame, gas, t), ExecLost(rules, w, frame, gas, t))
    decreases t, 0
  {
    hide Call, Create, CallLost, CreateLost, NonNegative, Suicide, Total;
    match t
    case Halt(SelfDestruct(b)) =>
      SuicideKeeps(w, frame.self, b);
    case Halt(_) =>
    case Spend(amount, rest) =>
      if gas >= amount {
        ExecKeeps(rules, w, frame, gas - amount, rest);
      }
    case Store(word, rest) =>
      var acct := GetOrNew(w.accounts, frame.self).(storage := word);
      StoreKeeps(w, frame.self, acct);
      ExecKeeps(rules, w.(accounts := w.accounts[frame.self := acct]), frame, gas, rest);
    case Refund(amount, rest) =>
      ExecKeeps(rules, w.(refund := w.refund + amount), frame, gas, rest);
    case SubCall(kind, addr, value, given, fee, body, rest) =>
      var paid := given + Max(fee, FeeOf(kind, value));
      if gas >= paid {
        CallKeeps(rules, w, frame, kind, addr, value, given + StipendOf(kind, value), body);
        var r := Call(rules, w, frame, kind, addr, value, given + StipendOf(kind, value), body);
        ExecKeeps(rules, r.world, frame, gas - paid + r.gas, rest);
      }
    case SubCreate(value, given, body, rest) =>
      if gas >= given {
        CreateKeeps(rules, w, frame, value, given, body);
        var r := Create(rules, w, frame, value, given, body);
        ExecKeeps(rules, r.world, frame, gas - given + r.gas, rest);
      }
  }

  lemma {:induction false} CallKeeps(rules: Rules, w: World, frame: Frame, kind: CallKind, addr: Address, value: nat,
                                     gas: int, body: Trace)
    requires gas >= 0 && NonNegative(w.accounts) && FreshAddresses(rules)
    ensures Keeps(w, gas, Call(rules, w, frame, kind, addr, value, gas, body),
                  CallLost(rules, w, frame, kind, addr, value, gas, body))
    decreases body, 1
  {
    hide Exec, ExecLost, NonNegative, Total;
    if CallRuns(rules, w, frame, kind, addr, value) {
      var open, inner := OpenCall(w, frame, kind, addr, value), CallFrame(frame, kind, addr);
      OpenCallKeeps(w, frame, kind, addr, value);
      ExecKeeps(rules, open, inner, gas, body);
      SettleKeeps(w, open, gas, Exec(rules, open, inner, gas, body), ExecLost(rules, open, inner, gas, body));
    }
  }

  lemma OpenCallKeeps(w: World, frame: Frame, kind: CallKind, addr: Address, value: nat)
    requires NonNegative(w.accounts) && (kind == PlainCall ==> Balance(w.accounts, frame.self) >= value)
    ensures var open := OpenCall(w, frame, kind, addr, value);
      && Total(open.accounts) == Total(w.accounts) && NonNegative(open.accounts)
      && open.suicided == w.suicided
  {
    var target := CallFrame(frame, kind, addr).self;
    var made := if kind != CallCode && target !in w.accounts then CreateAccount(w.accounts, target) else w.accounts;
    TotalCreate(w.accounts, target);
    TotalTransfer(made, frame.self, addr, value);
    TotalAddBalance(made, addr, 0);
  }

  lemma {:induction false} CreateKeeps(rules: Rules, w: World, frame: Frame, value: nat, gas: int, body: Trace)
    requires gas >= 0 && NonNegative(w.accounts) && FreshAddresses(rules)
    ensures Keeps(w, gas, Create(rules, w, frame, value, gas, body), CreateLost(rules, w, frame, value, gas, body))
    decreases body, 1
  {
    hide Exec, ExecLost, Deposit, NonNegative, Total;
    NonceTakenKeeps(w, frame);
    if Balance(w.accounts, frame.self) >= value {
      var address := rules.contractAddress(frame.self, GetNonce(w.accounts, frame.self));
      var snapshot, inner := NonceTaken(w, frame), Frame(address, frame.depth + 1, frame.readOnly);
      OpenCreateKeeps(rules, snapshot, frame.self, address, value);
      var open := OpenCreate(rules, snapshot, frame.self, address, value);
      ExecKeeps(rules, open, inner, gas, body);
      ExecErrors(rules, open, inner, gas, body);
      DepositKeeps(rules, snapshot, open, address, gas, Exec(rules, open, inner, gas, body),
                   ExecLost(rules, open, inner, gas, body));
    }
  }

  lemma NonceTakenKeeps(w: World, frame: Frame)
    requires NonNegative(w.accounts)
    ensures var n := NonceTaken(w, frame);
      && Total(n.accounts) == Total(w.accounts) && NonNegative(n.accounts)
      && Balance(n.accounts, frame.self) == Balance(w.accounts, frame.self)
  {
    TotalSetNonce(w.accounts, frame.self, GetNonce(w.accounts, frame.self) + 1);
  }

  lemma OpenCreateKeeps(rules: Rules, snapshot: World, creator: Address, address: Address, value: nat)
    requires NonNegative(snapshot.accounts) && Balance(snapshot.accounts, creator) >= value && creator != address
    ensures var open := OpenCreate(rules, snapshot, creator, address, value);
      Total(open.accounts) == Total(snapshot.accounts) && NonNegative(open.accounts)
  {
    var made := CreateAccount(snapshot.accounts, address);
    TotalCreate(snapshot.accounts, address);
    var numbered := if rules.hardfork2 then SetNonce(made, address, STARTING_NONCE + 1) else made;
    TotalSetNonce(made, address, STARTING_NONCE + 1);
    TotalTransfer(numbered, creator, address, value);
  }

  lemma DepositKeeps(rules: Rules, snapshot: World, before: World, address: Address, gas: int, r: Outcome, lost: int)
    requires Keeps(before, gas, r, lost) && Total(before.accounts) == Total(snapshot.accounts)
    requires NonNegative(snapshot.accounts) && NonNegative(before.accounts)
    requires r.error in {NoError, RevertError, VmError}
    ensures var d := Deposit(rules, snapshot, address, r);
      Keeps(snapshot, gas, d, if d.error != NoError && (rules.homestead || d.error != CodeStoreError) then 0 else lost)
  {
    TotalUpdate(r.world.accounts, address, GetOrNew(r.world.accounts, address).(code := r.size));
  }

  predicate NoSelfDestruct(t: Trace) {
    match t
    case Halt(h) => !h.SelfDestruct?
    case Spend(_, rest) => NoSelfDestruct(rest)
    case Store(_, rest) => NoSelfDestruct(rest)
    case Refund(_, rest) => NoSelfDestruct(rest)
    case SubCall(_, _, _, _, _, body, rest) => NoSelfDestruct(body) && NoSelfDestruct(rest)
    case SubCreate(_, _, body, rest) => NoSelfDestruct(body) && NoSelfDestruct(rest)
  }

  /** Without a self-destruct anywhere in the tree nothing is destroyed and no account is marked for deletion. */
  lemma {:induction false} ExecLosesNothing(rules: Rules, w: World, frame: Frame, gas: int, t: Trace)
    requires NoSelfDestruct(t)
    ensures ExecLost(rules, w, frame, gas, t) == 0 && Exec(rules, w, frame, gas, t).world.suicided == w.suicided
    decreases t, 0
  {
    hide Call, Create, CallLost, CreateLost;
    match t
    case Halt(_) =>
    case Spend(amount, rest) => ExecLosesNothing(rules, w, frame, gas - amount, rest);
    case Store(word, rest) =>
      var acct := GetOrNew(w.accounts, frame.self).(storage := word);
      ExecLosesNothing(rules, w.(accounts := w.accounts[frame.self := acct]), frame, gas, rest);
    case Refund(amount, rest) => ExecLosesNothing(rules, w.(refund := w.refund + amount), frame, gas, rest);
    case SubCall(kind, addr, value, given, fee, body, rest) =>
      CallLosesNothing(rules, w, frame, kind, addr, value, given + StipendOf(kind, value), body);
      var r := Call(rules, w, frame, kind, addr, value, given + StipendOf(kind, value), body);
      ExecLosesNothing(rules, r.world, frame, gas - given - Max(fee, FeeOf(kind, value)) + r.gas, rest);
    case SubCreate(value, given, body, rest) =>
      CreateLosesNothing(rules, w, frame, value, given, body);
      var r := Create(rules, w, frame, value, given, body);
      ExecLosesNothing(rules, r.world, frame, gas - given + r.gas, rest);
  }

  lemma {:induction false} CallLosesNothing(rules: Rules, w: World, frame: Frame, kind: CallKind, addr: Address,
                                            value: nat, gas: int, body: Trace)
    requires NoSelfDestruct(body)
    ensures CallLost(rules, w, frame, kind, addr, value, gas, body) == 0
    ensures Call(rules, w, frame, kind, addr, value, gas, body).world.suicided == w.suicided
    decreases body, 1
  {
    hide Exec, ExecLost;
    ExecLosesNothing(rules, OpenCall(w, frame, kind, addr, value), CallFrame(frame, kind, addr), gas, body);
  }

  lemma {:induction false} CreateLosesNothing(rules: Rules, w: World, frame: Frame, value: nat, gas: int, body: Trace)
    requires NoSelfDestruct(body)
    ensures CreateLost(rules, w, frame, value, gas, body) == 0
    ensures Create(rules, w, frame, value, gas, body).world.suicided == w.suicided
    decreases body, 1
  {
    hide Exec, ExecLost;
    var address := rules.contractAddress(frame.self, GetNonce(w.accounts, frame.self));
    var open := OpenCreate(rules, NonceTaken(w, frame), frame.self, address, value);
    ExecLosesNothing(rules, open, Frame(address, frame.depth + 1, frame.readOnly), gas, body);
  }

  /** A run itself can only revert or fail; the other errors come from the calls around it. */
  lemma {:induction false} ExecErrors(rules: Rules, w: World, frame: Frame, gas: int, t: Trace)
    ensures Exec(rules, w, frame, gas, t).error in {NoError, RevertError, VmError}
    decreases t
  {
    hide Call, Create, Suicide;
    match t
    case Halt(_) =>
    case Spend(amount, rest) => ExecErrors(rules, w, frame, gas - amount, rest);
    case Store(word, rest) =>
      var acct := GetOrNew(w.accounts, frame.self).(storage := word);
      ExecErrors(rules, w.(accounts := w.accounts[frame.self := acct]), frame, gas, rest);
    case Refund(amount, rest) => ExecErrors(rules, w.(refund := w.refund + amount), frame, gas, rest);
    case SubCall(kind, addr, value, given, fee, body, rest) =>
      var r := Call(rules, w, frame, kind, addr, value, given + StipendOf(kind, value), body);
      ExecErrors(rules, r.world, frame, gas - given - Max(fee, FeeOf(kind, value)) + r.gas, rest);
    case SubCreate(value, given, body, rest) =>
      var r := Create(rules, w, frame, value, given, body);
      ExecErrors(rules, r.world, frame, gas - given + r.gas, rest);
  }

  /** A call that ends in an error leaves the state exactly as it found it. It returns all its gas if it never
      started, what is left if it reverted, and none otherwise. */
  lemma FailedCallRestores(rules: Rules, w: World, frame: Frame, kind: CallKind, addr: Address, value: nat, gas: int,
                           body: Trace)
    ensures var r := Call(rules, w, frame, kind, addr, value, gas, body);
      r.error != NoError ==>
        && r.world == w
        && (r.error in {DepthError, FundsError} ==> r.gas == gas)
        && (r.error !in {DepthError, FundsError, RevertError} ==> r.gas == 0)
  {
    hide Exec;
    ExecErrors(rules, OpenCall(w, frame, kind, addr, value), CallFrame(frame, kind, addr), gas, body);
  }

  /** A call whose code returns at once costs nothing and moves its value, for a plain call from the caller to the
      callee and for the other kinds nowhere. */
  lemma PlainCallMovesValue(rules: Rules, w: World, frame: Frame, kind: CallKind, addr: Address, value: nat, gas: int,
                            size: nat, a: Address)
    requires frame.depth <= CALL_CREATE_DEPTH_MAX
    requires kind == PlainCall || kind == CallCode ==> Balance(w.accounts, frame.self) >= value
    ensures var r := Call(rules, w, frame, kind, addr, value, gas, Halt(Return(size)));
      && r.error == NoError && r.gas == gas
      && Balance(r.world.accounts, a) == Balance(w.accounts, a)
                                         + (if kind == PlainCall && a == addr then value else 0)
                                         - (if kind == PlainCall && a == frame.self then value else 0)
  {
  }

  /** The sum of balances does fall: code that self-destructs to itself destroys what it held and what it was sent. */
  lemma SelfDestructDestroys(rules: Rules, w: World, frame: Frame, addr: Address, value: nat, gas: nat)
    requires NonNegative(w.accounts) && FreshAddresses(rules) && addr in w.accounts && addr != frame.self
    requires frame.depth <= CALL_CREATE_DEPTH_MAX && !frame.readOnly && Balance(w.accounts, frame.self) >= value
    ensures var r := Call(rules, w, frame, PlainCall, addr, value, gas, Halt(SelfDestruct(addr)));
      r.error == NoError && Total(r.world.accounts) == Total(w.accounts) - Balance(w.accounts, addr) - value
  {
    hide Total, NonNegative;
    CallKeeps(rules, w, frame, PlainCall, addr, value, gas, Halt(SelfDestruct(addr)));
  }

  /** A failed creation leaves just the creator's nonce taken, or nothing changed if it never started; the single
      exception is a code deposit that cannot be paid for before Homestead. */
  lemma FailedCreateRestores(rules: Rules, w: World, frame: Frame, value: nat, gas: int, body: Trace)
    ensures var r := Create(rules, w, frame, value, gas, body);
      r.error != NoError ==>
        && (r.error in {DepthError, FundsError} ==> r.world == w && r.gas == gas)
        && (r.error !in {DepthError, FundsError} && (rules.homestead || r.error != CodeStoreError) ==>
              r.world == w.(accounts := w.accounts[frame.self := GetOrNew(w.accounts, frame.self)
                                                     .(nonce := GetNonce(w.accounts, frame.self) + 1)]))
        && (r.error in {CollisionError, VmError, MaxCodeError} ==> r.gas == 0)
        && (r.error == CodeStoreError && rules.homestead ==> r.gas == 0)
  {
    hide Exec, OpenCreate, Balance;
    var address := rules.contractAddress(frame.self, GetNonce(w.accounts, frame.self));
    var open := OpenCreate(rules, NonceTaken(w, frame), frame.self, address, value);
    ExecErrors(rules, open, Frame(address, frame.depth + 1, frame.readOnly), gas, body);
  }

  /** Before Homestead the exception is real: the contract keeps the value although the creation reports an error. */
  lemma UnpaidDepositBeforeHomestead(rules: Rules, w: World, frame: Frame, value: nat, gas: nat, size: nat)
    requires !rules.homestead && !rules.hardfork2 && gas < size * CREATE_DATA_GAS
    requires frame.depth <= CALL_CREATE_DEPTH_MAX && Balance(w.accounts, frame.self) >= value > 0
    requires var address := rules.contractAddress(frame.self, GetNonce(w.accounts, frame.self));
      address != frame.self && address !in w.accounts
    ensures var address := rules.contractAddress(frame.self, GetNonce(w.accounts, frame.self));
      var r := Create(rules, w, frame, value, gas, Halt(Return(size)));
      r.error == CodeStoreError && r.gas == gas && Balance(r.world.accounts, address) == value
  {
  }

  /** The environment as the source has it: one mutable state, snapshots taken before each run and restored after a
      failing one. Each operation is proved to compute the outcome specified above. */
  class Env {
    const rules: Rules
    var accounts: Accounts
    var refund: nat
    var suicided: set<Address>

    ghost function Now(): World
      reads this
    {
      World(accounts, refund, suicided)
    }

    constructor (rules: Rules, w: World)
      ensures this.rules == rules && Now() == w
    {
      this.rules := rules;
      accounts, refund, suicided := w.accounts, w.refund, w.suicided;
    }

    function SnapshotDatabase(): (w: World)
      reads this
      ensures w == Now()
    {
      World(accounts, refund, suicided)
    }

    method RevertToSnapshot(w: World)
      modifies this
      ensures Now() == w
    {
      accounts, refund, suicided := w.accounts, w.refund, w.suicided;
    }

    method MoveValue(from: Address, to: Address, value: nat)
      modifies this`accounts
      ensures accounts == Transfer(old(accounts), from, to, value)
    {
      if value != 0 {
        accounts := AddBalance(accounts, from, 0 - value);
        accounts := AddBalance(accounts, to, value);
      }
    }

    /** What all four calls do after the VM returns. */
    method Finish(snapshot: World, gas: int, error: Error, size: nat, ghost r: Outcome) returns (left: int)
      requires r == Outcome(Now(), gas, error, size)
      modifies this
      ensures Outcome(Now(), left, error, size) == Settle(snapshot, r)
    {
      left := gas;
      if error != NoError {
        RevertToSnapshot(snapshot);
        if error != RevertError {
          left := 0;
        }
      }
    }

    method DoCall(frame: Frame, addr: Address, value: nat, gas: int, body: Trace)
      returns (left: int, error: Error, size: nat)
      modifies this
      ensures Outcome(Now(), left, error, size) == Call(rules, old(Now()), frame, PlainCall, addr, value, gas, body)
      decreases body, 1
    {
      hide Exec;
      if frame.depth > CALL_CREATE_DEPTH_MAX {
        return gas, DepthError, 0;
      }
      if Balance(accounts, frame.self) < value {
        return gas, FundsError, 0;
      }
      var snapshot := SnapshotDatabase();
      if addr !in accounts {
        if !rules.precompiled(addr) && rules.hardfork2 && value == 0 {
          return gas, NoError, 0;
        }
        accounts := CreateAccount(accounts, addr);
      }
      MoveValue(frame.self, addr, value);
      assert Now() == OpenCall(snapshot, frame, PlainCall, addr, value);
      left, error, size := Run(Frame(addr, frame.depth + 1, frame.readOnly), gas, body);
      left := Finish(snapshot, left, error, size, Outcome(Now(), left, error, size));
    }

    method DoCallCode(frame: Frame, addr: Address, value: nat, gas: int, body: Trace)
      returns (left: int, error: Error, size: nat)
      modifies this
      ensures Outcome(Now(), left, error, size) == Call(rules, old(Now()), frame, CallCode, addr, value, gas, body)
      decreases body, 1
    {
      hide Exec;
      if frame.depth > CALL_CREATE_DEPTH_MAX {
        return gas, DepthError, 0;
      }
      if Balance(accounts, frame.self) < value {
        return gas, FundsError, 0;
      }
      var snapshot := SnapshotDatabase();
      left, error, size := Run(Frame(frame.self, frame.depth + 1, frame.readOnly), gas, body);
      left := Finish(snapshot, left, error, size, Outcome(Now(), left, error, size));
    }

    method DoDelegateCall(frame: Frame, addr: Address, value: nat, gas: int, body: Trace)
      returns (left: int, error: Error, size: nat)
      modifies this
      ensures Outcome(Now(), left, error, size) == Call(rules, old(Now()), frame, DelegateCall, addr, value, gas, body)
      decreases body, 1
    {
      hide Exec;
      if frame.depth > CALL_CREATE_DEPTH_MAX {
        return gas, DepthError, 0;
      }
      var snapshot := SnapshotDatabase();
      if frame.self !in accounts {
        accounts := CreateAccount(accounts, frame.self);
      }
      left, error, size := Run(Frame(frame.self, frame.depth + 1, frame.readOnly), gas, body);
      left := Finish(snapshot, left, error, size, Outcome(Now(), left, error, size));
    }

    method DoStaticCall(frame: Frame, addr: Address, value: nat, gas: int, body: Trace)
      returns (left: int, error: Error, size: nat)
      modifies this
      ensures Outcome(Now(), left, error, size) == Call(rules, old(Now()), frame, StaticCall, addr, value, gas, body)
      decreases body, 1
    {
      hide Exec;
      if frame.depth > CALL_CREATE_DEPTH_MAX {
        return gas, DepthError, 0;
      }
      var snapshot := SnapshotDatabase();
      if addr !in accounts {
        accounts := CreateAccount(accounts, addr);
      }
      accounts := AddBalance(accounts, addr, 0);
      left, error, size := Run(Frame(addr, frame.depth + 1, true), gas, body);
      left := Finish(snapshot, left, error, size, Outcome(Now(), left, error, size));
    }

    method DoCreate(frame: Frame, value: nat, gas: int, body: Trace) returns (left: int, error: Error, size: nat)
      modifies this
      ensures Outcome(Now(), left, error, size) == Create(rules, old(Now()), frame, value, gas, body)
      decreases body, 1
    {
      hide Exec, Deposit;
      if frame.depth > CALL_CREATE_DEPTH_MAX {
        return gas, DepthError, 0;
      }
      if Balance(accounts, frame.self) < value {
        return gas, FundsError, 0;
      }
      var nonce := GetNonce(accounts, frame.self);
      accounts := SetNonce(accounts, frame.self, nonce + 1);
      var address := rules.contractAddress(frame.self, nonce);
      if GetNonce(accounts, address) != STARTING_NONCE || GetOrNew(accounts, address).code != 0 {
        return 0, CollisionError, 0;
      }
      var snapshot := SnapshotDatabase();
      accounts := CreateAccount(accounts, address);
      if rules.hardfork2 {
        accounts := SetNonce(accounts, address, STARTING_NONCE + 1);
      }
      MoveValue(frame.self, address, value);
      assert Now() == OpenCreate(rules, snapshot, frame.self, address, value);
      left, error, size := Run(Frame(address, frame.depth + 1, frame.readOnly), gas, body);
      ExecErrors(rules, OpenCreate(rules, snapshot, frame.self, address, value),
                 Frame(address, frame.depth + 1, frame.readOnly), gas, body);
      left, error := StoreCode(snapshot, address, left, error, size);
    }

    /** What follows the initialisation code: its result is stored if it can be paid for. */
    method StoreCode(snapshot: World, address: Address, gas: int, ran: Error, size: nat)
      returns (left: int, error: Error)
      requires ran in {NoError, RevertError, VmError}
      modifies this
      ensures Outcome(Now(), left, error, size)
        == Deposit(rules, snapshot, address, Outcome(old(Now()), gas, ran, size))
      ensures error == NoError ==>
        && ran == NoError && left == gas - 200 * size && left >= 0 && (rules.hardfork2 ==> size <= 24576)
        && address in accounts && accounts[address].code == size
    {
      left, error := gas, ran;
      var tooBig := size > MAX_CODE_SIZE && rules.hardfork2;
      if error == NoError && !tooBig {
        var cost := size * CREATE_DATA_GAS;
        if cost <= left {
          left := left - cost;
          accounts := accounts[address := GetOrNew(accounts, address).(code := size)];
        } else {
          error := CodeStoreError;
        }
      }
      if tooBig || (error != NoError && (rules.homestead || error != CodeStoreError)) {
        RevertToSnapshot(snapshot);
        if error != RevertError {
          left := 0;
        }
      }
      if tooBig && error == NoError {
        error := MaxCodeError;
      }
    }

    method SelfDestructTo(self: Address, beneficiary: Address)
      modifies this
      ensures Now() == Suicide(old(Now()), self, beneficiary)
    {
      var balance := Balance(accounts, self);
      accounts := AddBalance(accounts, beneficiary, balance);
      if self in accounts {
        accounts := accounts[self := accounts[self].(balance := 0)];
        suicided := suicided + {self};
      }
    }

    /** The call instructions: a call that can carry value comes with the stipend for it. */
    method Enter(kind: CallKind, frame: Frame, addr: Address, value: nat, given: nat, body: Trace)
      returns (left: int, error: Error, size: nat)
      modifies this
      ensures Outcome(Now(), left, error, size)
           == Call(rules, old(Now()), frame, kind, addr, value, given + StipendOf(kind, value), body)
      decreases body, 2
    {
      hide Call, Now;
      match kind {
        case PlainCall => left, error, size := DoCall(frame, addr, value, given + Stipend(value), body);
        case CallCode => left, error, size := DoCallCode(frame, addr, value, given + Stipend(value), body);
        case DelegateCall => left, error, size := DoDelegateCall(frame, addr, value, given, body);
        case StaticCall => left, error, size := DoStaticCall(frame, addr, value, given, body);
      }
    }

    /** The interpreter loop over a trace. */
    method Run(frame: Frame, gas: int, t: Trace) returns (left: int, error: Error, size: nat)
      modifies this
      ensures Outcome(Now(), left, error, size) == Exec(rules, old(Now()), frame, gas, t)
      decreases t, 0
    {
      hide Call, Create, Suicide, FeeOf, StipendOf;
      left := gas;
      var frozen := frame.readOnly && rules.hardfork2;
      var cur := t;
      while !cur.Halt?
        invariant Exec(rules, Now(), frame, left, cur) == Exec(rules, old(Now()), frame, gas, t)
        invariant cur == t || (t decreases to cur)
        decreases cur
      {
        match cur {
          case Spend(amount, rest) =>
            if left < amount {
              return left, VmError, 0;
            }
            left := left - amount;
          case Store(word, rest) =>
            if frozen {
              return left, VmError, 0;
            }
            accounts := accounts[frame.self := GetOrNew(accounts, frame.self).(storage := word)];
          case Refund(amount, rest) =>
            refund := refund + amount;
          case SubCall(kind, addr, value, given, fee, body, rest) =>
            var charge := given + Max(fee, FeeOf(kind, value));
            if (frozen && kind == PlainCall && value != 0) || left < charge {
              return left, VmError, 0;
            }
            left := left - charge;
            var back;
            back, error, size := Enter(kind, frame, addr, value, given, body);
            left := left + back;
          case SubCreate(value, given, body, rest) =>
            if frozen || left < given {
              return left, VmError, 0;
            }
            var back;
            back, error, size := DoCreate(frame, value, given, body);
            left := left - given + back;
        }
        cur := cur.rest;
      }
      error, size := NoError, 0;
      match cur.halt
      case Return(n) => size := n;
      case Reverted => error := RevertError;
      case Failed => error := VmError;
      case SelfDestruct(beneficiary) =>
        if frozen {
          error := VmError;
        } else {
          SelfDestructTo(frame.self, beneficiary);
        }
    }
  }
}
