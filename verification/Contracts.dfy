/** What runs leave behind beside balances (core/execution.go): which code, nonces and storage they can change, what a
    creation stores, what calls cost and where their code runs. */
module Contracts {
  import opened Types
  import opened Arithmetic
  import opened Ledger
  import opened Execution

  function Code(w: World, a: Address): nat { GetOrNew(w.accounts, a).code }
  function Nonce(w: World, a: Address): nat { GetOrNew(w.accounts, a).nonce }
  function Word(w: World, a: Address): int { GetOrNew(w.accounts, a).storage }

  // ---- code and nonces ----

  /** Contracts keep their code, and no nonce falls. */
  ghost predicate Lasting(w: World, w': World) {
    forall a :: Nonce(w, a) <= Nonce(w', a) && (Code(w, a) != 0 ==> Code(w', a) == Code(w, a))
  }

  lemma LastingTwice(w: World, v: World, u: World)
    requires Lasting(w, v) && Lasting(v, u)
    ensures Lasting(w, u)
  {
  }

  /** Whatever a run does, accounts that have code keep exactly that code, and nonces never fall. */
  lemma {:induction false} RunLasts(rules: Rules, w: World, frame: Frame, gas: int, t: Trace)
    ensures Lasting(w, Exec(rules, w, frame, gas, t).world)
    decreases t, 0
  {
    hide Call, Create, Lasting, Suicide;
    SameLasts(w, w);
    match t
    case Halt(SelfDestruct(b)) => SuicideLasts(w, frame.self, b);
    case Halt(_) =>
    case Spend(amount, rest) => RunLasts(rules, w, frame, gas - amount, rest);
    case Store(word, rest) =>
      var stored := w.(accounts := w.accounts[frame.self := GetOrNew(w.accounts, frame.self).(storage := word)]);
      StoreLasts(w, frame.self, word);
      RunLasts(rules, stored, frame, gas, rest);
      LastingTwice(w, stored, Exec(rules, stored, frame, gas, rest).world);
    case Refund(amount, rest) =>
      var more := w.(refund := w.refund + amount);
      SameLasts(w, more);
      RunLasts(rules, more, frame, gas, rest);
      LastingTwice(w, more, Exec(rules, more, frame, gas, rest).world);
    case SubCall(kind, addr, value, given, fee, body, rest) =>
      var r := Call(rules, w, frame, kind, addr, value, given + StipendOf(kind, value), body);
      var left := gas - given - Max(fee, FeeOf(kind, value)) + r.gas;
      CallLasts(rules, w, frame, kind, addr, value, given + StipendOf(kind, value), body);
      RunLasts(rules, r.world, frame, left, rest);
      LastingTwice(w, r.world, Exec(rules, r.world, frame, left, rest).world);
    case SubCreate(value, given, body, rest) =>
      var r := Create(rules, w, frame, value, given, body);
      CreateLasts(rules, w, frame, value, given, body);
      RunLasts(rules, r.world, frame, gas - given + r.gas, rest);
      LastingTwice(w, r.world, Exec(rules, r.world, frame, gas - given + r.gas, rest).world);
  }

  lemma SuicideLasts(w: World, self: Address, b: Address)
    ensures Lasting(w, Suicide(w, self, b))
  {
  }

  lemma StoreLasts(w: World, a: Address, word: int)
    ensures Lasting(w, w.(accounts := w.accounts[a := GetOrNew(w.accounts, a).(storage := word)]))
  {
  }

  lemma {:induction false} CallLasts(rules: Rules, w: World, frame: Frame, kind: CallKind, addr: Address, value: nat,
                                     gas: int, body: Trace)
    ensures Lasting(w, Call(rules, w, frame, kind, addr, value, gas, body).world)
    decreases body, 1
  {
    hide Exec, Lasting, OpenCall, Balance;
    var open, inner := OpenCall(w, frame, kind, addr, value), CallFrame(frame, kind, addr);
    SameLasts(w, w);
    OpenCallLasts(w, frame, kind, addr, value);
    RunLasts(rules, open, inner, gas, body);
    LastingTwice(w, open, Exec(rules, open, inner, gas, body).world);
  }

  lemma SameLasts(w: World, v: World)
    requires v.accounts == w.accounts
    ensures Lasting(w, v)
  {
  }

  lemma OpenCallLasts(w: World, frame: Frame, kind: CallKind, addr: Address, value: nat)
    ensures Lasting(w, OpenCall(w, frame, kind, addr, value))
  {
  }

  lemma {:induction false} CreateLasts(rules: Rules, w: World, frame: Frame, value: nat, gas: int, body: Trace)
    ensures Lasting(w, Create(rules, w, frame, value, gas, body).world)
    decreases body, 2
  {
    hide Lasting, Create, Balance, NonceTaken;
    SameLasts(w, w);
    NonceTakenLasts(w, frame);
    if frame.depth <= 1024 && Balance(w.accounts, frame.self) >= value {
      CreateTakesNonce(rules, w, frame, value, gas, body);
      LastingTwice(w, NonceTaken(w, frame), Create(rules, w, frame, value, gas, body).world);
    } else {
      NeverStarted(rules, w, frame, value, gas, body);
    }
  }

  lemma NeverStarted(rules: Rules, w: World, frame: Frame, value: nat, gas: int, body: Trace)
    requires frame.depth > 1024 || Balance(w.accounts, frame.self) < value
    ensures Create(rules, w, frame, value, gas, body).world == w
  {
    hide Exec;
  }

  /** A creation that starts takes its creator's nonce for good, even if it fails. */
  lemma {:induction false} CreateTakesNonce(rules: Rules, w: World, frame: Frame, value: nat, gas: int, body: Trace)
    requires frame.depth <= 1024 && Balance(w.accounts, frame.self) >= value
    ensures Lasting(NonceTaken(w, frame), Create(rules, w, frame, value, gas, body).world)
    decreases body, 1
  {
    hide Exec, Lasting, OpenCreate, Balance, Deposit, NonceTaken;
    var address := rules.contractAddress(frame.self, GetNonce(w.accounts, frame.self));
    var snapshot, inner := NonceTaken(w, frame), Frame(address, frame.depth + 1, frame.readOnly);
    SameLasts(snapshot, snapshot);
    if Nonce(snapshot, address) == 0 && Code(snapshot, address) == 0 {
      var open := OpenCreate(rules, snapshot, frame.self, address, value);
      var r := Exec(rules, open, inner, gas, body);
      OpenCreateLasts(rules, snapshot, frame.self, address, value);
      RunLasts(rules, open, inner, gas, body);
      LastingTwice(snapshot, open, r.world);
      DepositLasts(rules, snapshot, address, r);
    }
  }

  lemma NonceTakenLasts(w: World, frame: Frame)
    ensures Lasting(w, NonceTaken(w, frame)) && Nonce(NonceTaken(w, frame), frame.self) == Nonce(w, frame.self) + 1
  {
  }

  lemma OpenCreateLasts(rules: Rules, snapshot: World, creator: Address, address: Address, value: nat)
    requires Nonce(snapshot, address) == 0 && Code(snapshot, address) == 0
    ensures var open := OpenCreate(rules, snapshot, creator, address, value);
      Lasting(snapshot, open) && Nonce(open, address) == if rules.hardfork2 then 1 else 0
  {
  }

  lemma DepositLasts(rules: Rules, snapshot: World, address: Address, r: Outcome)
    requires Lasting(snapshot, r.world) && Code(snapshot, address) == 0
    ensures Lasting(snapshot, Deposit(rules, snapshot, address, r).world)
  {
  }

  // ---- creations ----

  /** After every successful creation, whatever its initialisation code did: the new account has the returned code, its
      nonce has left zero from the second hard fork on, and its creator's nonce is past the one the address came
      from. */
  lemma CreatedContract(rules: Rules, w: World, frame: Frame, value: nat, gas: int, body: Trace)
    requires Create(rules, w, frame, value, gas, body).error == NoError
    ensures var r := Create(rules, w, frame, value, gas, body);
      var address := rules.contractAddress(frame.self, GetNonce(w.accounts, frame.self));
      && address in r.world.accounts && r.world.accounts[address].code == r.size
      && (rules.hardfork2 ==> r.world.accounts[address].nonce >= 1)
      && GetNonce(r.world.accounts, frame.self) >= GetNonce(w.accounts, frame.self) + 1
  {
    hide Exec, Balance, OpenCreate, NonceTaken;
    var address := rules.contractAddress(frame.self, GetNonce(w.accounts, frame.self));
    var snapshot, inner := NonceTaken(w, frame), Frame(address, frame.depth + 1, frame.readOnly);
    var open := OpenCreate(rules, snapshot, frame.self, address, value);
    NonceTakenLasts(w, frame);
    OpenCreateLasts(rules, snapshot, frame.self, address, value);
    RunLasts(rules, open, inner, gas, body);
    assert Nonce(snapshot, frame.self) <= Nonce(open, frame.self);
  }

  /** When code that returns at once becomes a contract. */
  lemma PlainCreateSucceedsIff(rules: Rules, w: World, frame: Frame, value: nat, gas: int, size: nat)
    ensures var address := rules.contractAddress(frame.self, GetNonce(w.accounts, frame.self));
      Create(rules, w, frame, value, gas, Halt(Return(size))).error == NoError <==>
        && frame.depth <= 1024 && Balance(w.accounts, frame.self) >= value
        && address != frame.self && Nonce(w, address) == 0 && Code(w, address) == 0
        && 200 * size <= gas && (rules.hardfork2 ==> size <= 24576)
  {
    hide OpenCreate;
    NonceTakenElsewhere(w, frame);
  }

  lemma NonceTakenElsewhere(w: World, frame: Frame)
    ensures NonceTaken(w, frame).refund == w.refund && NonceTaken(w, frame).suicided == w.suicided
    ensures forall a ::
      GetOrNew(NonceTaken(w, frame).accounts, a)
      == if a == frame.self then GetOrNew(w.accounts, a).(nonce := Nonce(w, a) + 1) else GetOrNew(w.accounts, a)
  {
  }

  /** And which error it reports otherwise, once it has started. */
  lemma PlainCreateErrors(rules: Rules, w: World, frame: Frame, value: nat, gas: int, size: nat)
    requires frame.depth <= 1024 && Balance(w.accounts, frame.self) >= value
    requires var address := rules.contractAddress(frame.self, GetNonce(w.accounts, frame.self));
      address != frame.self && Nonce(w, address) == 0 && Code(w, address) == 0
    ensures Create(rules, w, frame, value, gas, Halt(Return(size))).error ==
      if rules.hardfork2 && size > 24576 then MaxCodeError else if 200 * size > gas then CodeStoreError else NoError
  {
    hide OpenCreate;
    NonceTakenElsewhere(w, frame);
  }

  /** What it then leaves: the code paid at 200 gas a byte, the value moved, nonces and storage as they start. */
  lemma PlainCreateStores(rules: Rules, w: World, frame: Frame, value: nat, gas: int, size: nat, a: Address)
    requires Create(rules, w, frame, value, gas, Halt(Return(size))).error == NoError
    ensures var r := Create(rules, w, frame, value, gas, Halt(Return(size)));
      var address := rules.contractAddress(frame.self, GetNonce(w.accounts, frame.self));
      && r.gas == gas - 200 * size && r.size == size && r.world.refund == w.refund && r.world.suicided == w.suicided
      && GetOrNew(r.world.accounts, a) ==
           if a == address then
             Account(Balance(w.accounts, a) + value, if rules.hardfork2 then 1 else 0, size, 0)
           else if a == frame.self then
             GetOrNew(w.accounts, a).(nonce := Nonce(w, a) + 1, balance := Balance(w.accounts, a) - value)
           else GetOrNew(w.accounts, a)
  {
    hide NonceTaken, OpenCreate, GetOrNew, Balance;
    var address := rules.contractAddress(frame.self, GetNonce(w.accounts, frame.self));
    PlainCreateSucceedsIff(rules, w, frame, value, gas, size);
    NonceTakenElsewhere(w, frame);
    OpenCreateAccounts(rules, NonceTaken(w, frame), frame.self, address, value, a);
    OpenCreateAccounts(rules, NonceTaken(w, frame), frame.self, address, value, address);
    BalanceOf(w.accounts, a);
    StoredCode(Exec(rules, OpenCreate(rules, NonceTaken(w, frame), frame.self, address, value),
                    Frame(address, frame.depth + 1, frame.readOnly), gas, Halt(Return(size))).world, address, size, a);
  }

  lemma BalanceOf(m: Accounts, a: Address)
    ensures Balance(m, a) == GetOrNew(m, a).balance
  {
  }

  lemma OpenCreateAccounts(rules: Rules, snapshot: World, creator: Address, address: Address, value: nat, a: Address)
    requires address != creator
    ensures var open := OpenCreate(rules, snapshot, creator, address, value);
      && open.refund == snapshot.refund && open.suicided == snapshot.suicided
      && GetOrNew(open.accounts, a) ==
           if a == address then Account(GetOrNew(snapshot.accounts, a).balance + value,
                                        if rules.hardfork2 then 1 else 0, 0, 0)
           else if a == creator then
             GetOrNew(snapshot.accounts, a).(balance := GetOrNew(snapshot.accounts, a).balance - value)
           else GetOrNew(snapshot.accounts, a)
  {
  }

  lemma StoredCode(w: World, address: Address, size: nat, a: Address)
    ensures var acct := GetOrNew(w.accounts, address).(code := size);
      GetOrNew(w.accounts[address := acct], a) == if a == address then acct else GetOrNew(w.accounts, a)
  {
  }

  // ---- which error ----

  /** A call never starts exactly when it is too deep or not covered. */
  lemma CallErrorsIff(rules: Rules, w: World, frame: Frame, kind: CallKind, addr: Address, value: nat, gas: int,
                      body: Trace)
    ensures var r := Call(rules, w, frame, kind, addr, value, gas, body);
      && (r.error == DepthError <==> frame.depth > 1024)
      && (r.error == FundsError <==>
            frame.depth <= 1024 && kind in {PlainCall, CallCode} && Balance(w.accounts, frame.self) < value)
      && r.error in {NoError, DepthError, FundsError, RevertError, VmError}
  {
    hide Exec, OpenCall;
    ExecErrors(rules, OpenCall(w, frame, kind, addr, value), CallFrame(frame, kind, addr), gas, body);
  }

  lemma CreateErrorsIff(rules: Rules, w: World, frame: Frame, value: nat, gas: int, body: Trace)
    ensures var r := Create(rules, w, frame, value, gas, body);
      var address := rules.contractAddress(frame.self, GetNonce(w.accounts, frame.self));
      && (r.error == DepthError <==> frame.depth > 1024)
      && (r.error == FundsError <==> frame.depth <= 1024 && Balance(w.accounts, frame.self) < value)
      && (r.error == CollisionError <==>
            && frame.depth <= 1024 && Balance(w.accounts, frame.self) >= value
            && (address == frame.self || Nonce(w, address) != 0 || Code(w, address) != 0))
  {
    hide Exec, OpenCreate, NonceTaken;
    NonceTakenElsewhere(w, frame);
    var address := rules.contractAddress(frame.self, GetNonce(w.accounts, frame.self));
    ExecErrors(rules, OpenCreate(rules, NonceTaken(w, frame), frame.self, address, value),
               Frame(address, frame.depth + 1, frame.readOnly), gas, body);
  }

  /** A call without value to an account that is not there leaves no account behind, from the second hard fork on and
      unless the address is precompiled; any other call that returns does. */
  lemma CalleeCreatedIff(rules: Rules, w: World, frame: Frame, addr: Address, value: nat, gas: int, size: nat)
    requires frame.depth <= 1024 && Balance(w.accounts, frame.self) >= value
    ensures var r := Call(rules, w, frame, PlainCall, addr, value, gas, Halt(Return(size)));
      && r.error == NoError
      && (addr in r.world.accounts <==>
          !(addr !in w.accounts && rules.hardfork2 && value == 0 && !rules.precompiled(addr)))
      && (addr !in r.world.accounts ==> r.world == w && r.size == 0)
  {
  }

  // ---- read-only runs ----

  /** No account looks different. */
  ghost predicate Alike(w: World, w': World) {
    w'.suicided == w.suicided && forall a :: GetOrNew(w'.accounts, a) == GetOrNew(w.accounts, a)
  }

  /** From the second hard fork on a read-only run changes no account, at any depth of nested calls. */
  lemma {:induction false} ReadOnlyRun(rules: Rules, w: World, frame: Frame, gas: int, t: Trace)
    requires rules.hardfork2 && frame.readOnly
    ensures Alike(w, Exec(rules, w, frame, gas, t).world)
    decreases t, 0
  {
    hide Call;
    match t
    case Halt(_) =>
    case Spend(amount, rest) => ReadOnlyRun(rules, w, frame, gas - amount, rest);
    case Store(_, _) =>
    case Refund(amount, rest) => ReadOnlyRun(rules, w.(refund := w.refund + amount), frame, gas, rest);
    case SubCall(kind, addr, value, given, fee, body, rest) =>
      if kind != PlainCall || value == 0 {
        var r := Call(rules, w, frame, kind, addr, value, given + StipendOf(kind, value), body);
        ReadOnlyCall(rules, w, frame, kind, addr, value, given + StipendOf(kind, value), body);
        ReadOnlyRun(rules, r.world, frame, gas - given - Max(fee, FeeOf(kind, value)) + r.gas, rest);
      }
    case SubCreate(_, _, _, _) =>
  }

  /** So a static call changes none, and neither does any call made under one. */
  lemma {:induction false} ReadOnlyCall(rules: Rules, w: World, frame: Frame, kind: CallKind, addr: Address, value: nat,
                                        gas: int, body: Trace)
    requires rules.hardfork2 && (frame.readOnly || kind == StaticCall) && (kind == PlainCall ==> value == 0)
    ensures Alike(w, Call(rules, w, frame, kind, addr, value, gas, body).world)
    decreases body, 1
  {
    hide Exec;
    ReadOnlyRun(rules, OpenCall(w, frame, kind, addr, value), CallFrame(frame, kind, addr), gas, body);
  }

  // ---- isolation ----

  /** Code of account `a` is called somewhere in the tree. */
  predicate Enters(t: Trace, a: Address) {
    match t
    case Halt(_) => false
    case Spend(_, rest) => Enters(rest, a)
    case Store(_, rest) => Enters(rest, a)
    case Refund(_, rest) => Enters(rest, a)
    case SubCall(kind, addr, _, _, _, body, rest) =>
      (addr == a && kind in {PlainCall, StaticCall}) || Enters(body, a) || Enters(rest, a)
    case SubCreate(_, _, body, rest) => Enters(body, a) || Enters(rest, a)
  }

  ghost predicate Untouched(w: World, w': World, a: Address) {
    Code(w', a) == Code(w, a) && Nonce(w', a) == Nonce(w, a) && Word(w', a) == Word(w, a)
  }

  /** A contract that is not called keeps its code, nonce and storage, whatever else runs: only its own code writes its
      storage. */
  lemma {:induction false} OthersAreIsolated(rules: Rules, w: World, frame: Frame, gas: int, t: Trace, a: Address)
    requires Code(w, a) != 0 && frame.self != a && !Enters(t, a)
    ensures Untouched(w, Exec(rules, w, frame, gas, t).world, a)
    decreases t, 0
  {
    hide Call, Create;
    match t
    case Halt(_) =>
    case Spend(amount, rest) => OthersAreIsolated(rules, w, frame, gas - amount, rest, a);
    case Store(word, rest) =>
      var acct := GetOrNew(w.accounts, frame.self).(storage := word);
      OthersAreIsolated(rules, w.(accounts := w.accounts[frame.self := acct]), frame, gas, rest, a);
    case Refund(amount, rest) => OthersAreIsolated(rules, w.(refund := w.refund + amount), frame, gas, rest, a);
    case SubCall(kind, addr, value, given, fee, body, rest) =>
      var r := Call(rules, w, frame, kind, addr, value, given + StipendOf(kind, value), body);
      CallIsolates(rules, w, frame, kind, addr, value, given + StipendOf(kind, value), body, a);
      OthersAreIsolated(rules, r.world, frame, gas - given - Max(fee, FeeOf(kind, value)) + r.gas, rest, a);
    case SubCreate(value, given, body, rest) =>
      var r := Create(rules, w, frame, value, given, body);
      CreateIsolates(rules, w, frame, value, given, body, a);
      OthersAreIsolated(rules, r.world, frame, gas - given + r.gas, rest, a);
  }

  lemma {:induction false} CallIsolates(rules: Rules, w: World, frame: Frame, kind: CallKind, addr: Address, value: nat,
                                        gas: int, body: Trace, a: Address)
    requires Code(w, a) != 0 && frame.self != a && !Enters(body, a) && (addr == a ==> kind !in {PlainCall, StaticCall})
    ensures Untouched(w, Call(rules, w, frame, kind, addr, value, gas, body).world, a)
    decreases body, 1
  {
    hide Exec;
    OthersAreIsolated(rules, OpenCall(w, frame, kind, addr, value), CallFrame(frame, kind, addr), gas, body, a);
  }

  lemma {:induction false} CreateIsolates(rules: Rules, w: World, frame: Frame, value: nat, gas: int, body: Trace,
                                          a: Address)
    requires Code(w, a) != 0 && frame.self != a && !Enters(body, a)
    ensures Untouched(w, Create(rules, w, frame, value, gas, body).world, a)
    decreases body, 1
  {
    hide Exec;
    var address := rules.contractAddress(frame.self, GetNonce(w.accounts, frame.self));
    if address != a {
      OthersAreIsolated(rules, OpenCreate(rules, NonceTaken(w, frame), frame.self, address, value),
                        Frame(address, frame.depth + 1, frame.readOnly), gas, body, a);
    }
  }

  /** Where code writes: a plain or static call runs on the callee's storage, the other two on the caller's; from the
      second hard fork on a read-only run that writes fails. */
  lemma CallWritesWhere(rules: Rules, w: World, frame: Frame, kind: CallKind, addr: Address, value: nat, gas: int,
                        word: int, a: Address)
    requires CallRuns(rules, w, frame, kind, addr, value)
    ensures var r := Call(rules, w, frame, kind, addr, value, gas, Store(word, Halt(Return(0))));
      if rules.hardfork2 && (frame.readOnly || kind == StaticCall) then r.error == VmError && r.world == w && r.gas == 0
      else
        && r.error == NoError && r.gas == gas
        && Word(r.world, a) ==
             if a == (if kind in {PlainCall, StaticCall} then addr else frame.self) then word else Word(w, a)
  {
    var open, inner := OpenCall(w, frame, kind, addr, value), CallFrame(frame, kind, addr);
    var acct := GetOrNew(open.accounts, inner.self).(storage := word);
    var stored := open.(accounts := open.accounts[inner.self := acct]);
    assert Exec(rules, stored, inner, gas, Halt(Return(0))) == Outcome(stored, gas, NoError, 0);
  }

  // ---- gas ----

  /** A step of straight-line code. */
  datatype Step = Burns(amount: nat) | Frees(amount: nat) | Writes(word: int)

  function Straight(steps: seq<Step>, end: Trace): Trace {
    if steps == [] then end else
      var rest := Straight(steps[1..], end);
      match steps[0]
      case Burns(amount) => Spend(amount, rest)
      case Frees(amount) => Refund(amount, rest)
      case Writes(word) => Store(word, rest)
  }

  function Burnt(steps: seq<Step>): nat {
    if steps == [] then 0 else (if steps[0].Burns? then steps[0].amount else 0) + Burnt(steps[1..])
  }

  function Freed(steps: seq<Step>): nat {
    if steps == [] then 0 else (if steps[0].Frees? then steps[0].amount else 0) + Freed(steps[1..])
  }

  function LastWord(steps: seq<Step>, word: int): int {
    if steps == [] then word else LastWord(steps[1..], if steps[0].Writes? then steps[0].word else word)
  }

  /** Straight-line code with enough gas uses exactly what it burns, collects what it frees, and leaves the last word it
      wrote; nothing else of any account changes. */
  lemma {:induction false} StraightRun(rules: Rules, w: World, frame: Frame, gas: int, steps: seq<Step>, size: nat)
    requires !(rules.hardfork2 && frame.readOnly) && gas >= Burnt(steps) && frame.self in w.accounts
    ensures Exec(rules, w, frame, gas, Straight(steps, Halt(Return(size)))) ==
      var acct := w.accounts[frame.self];
      Outcome(World(w.accounts[frame.self := acct.(storage := LastWord(steps, acct.storage))],
                    w.refund + Freed(steps), w.suicided),
              gas - Burnt(steps), NoError, size)
    decreases |steps|
  {
    var acct := w.accounts[frame.self];
    if steps == [] {
      assert w.accounts[frame.self := acct.(storage := LastWord(steps, acct.storage))] == w.accounts;
    } else {
      match steps[0]
      case Burns(amount) => StraightRun(rules, w, frame, gas - amount, steps[1..], size);
      case Frees(amount) => StraightRun(rules, w.(refund := w.refund + amount), frame, gas, steps[1..], size);
      case Writes(word) =>
        var stored := w.accounts[frame.self := acct.(storage := word)];
        StraightRun(rules, w.(accounts := stored), frame, gas, steps[1..], size);
        var last := LastWord(steps, acct.storage);
        assert stored[frame.self := stored[frame.self].(storage := last)]
            == w.accounts[frame.self := acct.(storage := last)];
    }
  }

  /** And with less it fails, having used up the gas it was given when that was a call. */
  lemma {:induction false} StraightFails(rules: Rules, w: World, frame: Frame, gas: nat, steps: seq<Step>, size: nat)
    requires gas < Burnt(steps)
    ensures Exec(rules, w, frame, gas, Straight(steps, Halt(Return(size)))).error == VmError
    decreases |steps|
  {
    match steps[0]
    case Burns(amount) =>
      if gas >= amount {
        StraightFails(rules, w, frame, gas - amount, steps[1..], size);
      }
    case Frees(amount) => StraightFails(rules, w.(refund := w.refund + amount), frame, gas, steps[1..], size);
    case Writes(word) =>
      var acct := GetOrNew(w.accounts, frame.self).(storage := word);
      StraightFails(rules, w.(accounts := w.accounts[frame.self := acct]), frame, gas, steps[1..], size);
  }

  /** How straight-line code that ends deliberately leaves its call: a revert is undone and gives back the gas not used,
      a failure is undone and takes all of it. */
  lemma CallEnds(rules: Rules, w: World, frame: Frame, kind: CallKind, addr: Address, value: nat, gas: nat,
                 amount: nat)
    requires CallRuns(rules, w, frame, kind, addr, value) && amount <= gas
    ensures Call(rules, w, frame, kind, addr, value, gas, Spend(amount, Halt(Reverted)))
         == Outcome(w, gas - amount, RevertError, 0)
    ensures Call(rules, w, frame, kind, addr, value, gas, Spend(amount, Halt(Failed))) == Outcome(w, 0, VmError, 0)
    ensures amount < gas ==>
      Call(rules, w, frame, kind, addr, value, amount, Spend(gas, Halt(Reverted))) == Outcome(w, 0, VmError, 0)
  {
    hide OpenCall;
    var open, inner := OpenCall(w, frame, kind, addr, value), CallFrame(frame, kind, addr);
    assert Exec(rules, open, inner, gas - amount, Halt(Reverted)) == Outcome(open, gas - amount, RevertError, 0);
    assert Exec(rules, open, inner, gas - amount, Halt(Failed)) == Outcome(open, gas - amount, VmError, 0);
  }

  /** Likewise for a creation, which keeps the creator's nonce taken. */
  lemma CreateEnds(rules: Rules, w: World, frame: Frame, value: nat, gas: nat, amount: nat)
    requires frame.depth <= 1024 && Balance(w.accounts, frame.self) >= value && amount <= gas
    requires var address := rules.contractAddress(frame.self, GetNonce(w.accounts, frame.self));
      address != frame.self && Nonce(w, address) == 0 && Code(w, address) == 0
    ensures Create(rules, w, frame, value, gas, Spend(amount, Halt(Reverted)))
         == Outcome(NonceTaken(w, frame), gas - amount, RevertError, 0)
    ensures Create(rules, w, frame, value, gas, Spend(amount, Halt(Failed)))
         == Outcome(NonceTaken(w, frame), 0, VmError, 0)
  {
    hide OpenCreate, NonceTaken;
    NonceTakenElsewhere(w, frame);
    var address := rules.contractAddress(frame.self, GetNonce(w.accounts, frame.self));
    var open, inner := OpenCreate(rules, NonceTaken(w, frame), frame.self, address, value),
                       Frame(address, frame.depth + 1, frame.readOnly);
    assert Exec(rules, open, inner, gas - amount, Halt(Reverted)) == Outcome(open, gas - amount, RevertError, 0);
    assert Exec(rules, open, inner, gas - amount, Halt(Failed)) == Outcome(open, gas - amount, VmError, 0);
  }

  /** A call instruction charges the gas it hands over and its fee, at least 9000 for value it sends, and gives back
      what the callee leaves of the gas and of 2300 that come with the value. What follows runs whether the call
      failed. */
  lemma CallCharges(rules: Rules, w: World, frame: Frame, gas: nat, kind: CallKind, addr: Address, value: nat,
                    given: nat, fee: nat, body: Trace, rest: Trace)
    requires !(rules.hardfork2 && frame.readOnly && kind == PlainCall && value > 0)
    ensures var sends := value > 0 && kind in {PlainCall, CallCode};
      var charge := given + if sends && fee < 9000 then 9000 else fee;
      var r := Call(rules, w, frame, kind, addr, value, given + (if sends then 2300 else 0), body);
      var x := Exec(rules, w, frame, gas, SubCall(kind, addr, value, given, fee, body, rest));
      if gas < charge then x == Outcome(w, gas, VmError, 0)
      else x == Exec(rules, if r.error == NoError then r.world else w, frame, gas - charge + r.gas, rest)
  {
    hide Call;
    var sends := value > 0 && kind in {PlainCall, CallCode};
    FailedCallRestores(rules, w, frame, kind, addr, value, given + (if sends then 2300 else 0), body);
  }

  /** Likewise for a creation. */
  lemma CreateCharges(rules: Rules, w: World, frame: Frame, gas: nat, value: nat, given: nat, body: Trace, rest: Trace)
    ensures var r := Create(rules, w, frame, value, given, body);
      var x := Exec(rules, w, frame, gas, SubCreate(value, given, body, rest));
      if (rules.hardfork2 && frame.readOnly) || gas < given then x == Outcome(w, gas, VmError, 0)
      else x == Exec(rules, r.world, frame, gas - given + r.gas, rest)
  {
    hide Create;
  }

  /** A self-destruct in favour of another account moves the whole balance there and marks the account. */
  lemma SelfDestructPays(rules: Rules, w: World, frame: Frame, gas: int, b: Address, a: Address)
    requires !(rules.hardfork2 && frame.readOnly) && b != frame.self && frame.self in w.accounts
    ensures var r := Exec(rules, w, frame, gas, Halt(SelfDestruct(b)));
      && r.error == NoError && r.gas == gas && r.world.refund == w.refund
      && r.world.suicided == w.suicided + {frame.self}
      && GetOrNew(r.world.accounts, a) == GetOrNew(w.accounts, a).(balance :=
           if a == frame.self then 0
           else Balance(w.accounts, a) + if a == b then Balance(w.accounts, frame.self) else 0)
  {
  }
}
