/** The miner's transaction loop (miner/worker.go): transactions that fail are skipped and their state undone, but the
    gas they took from the pool may stay taken. */
module Miner {
  import opened Types
  import opened Ledger
  import opened Execution
  import opened Transactions
  import opened Processing

  const ZERO_ADDRESS: Address := 0

  /** A pool transaction with what the loop's filters look at. */
  datatype Candidate = Candidate(tx: Tx, isProtected: bool)

  /** What the filters of the loop go by: the node's own accounts, its price, and whether replay protection is
      active. */
  datatype Policy = Policy(owned: set<Address>, gasPrice: nat, diehard: bool)

  /** Everything the loop works on. */
  datatype Session = Session(p: Progress, txs: seq<Tx>, ignored: set<Address>, lowGas: set<Address>,
                             lowGasTxs: seq<Tx>, removed: seq<Tx>, tcount: nat)

  /** The sender the filters see; none can be recovered for a foreign chain id. */
  function Sender(tx: Tx): Address { if tx.msg.signed then tx.msg.from else ZERO_ADDRESS }

  /** One transaction that passed the filters: committed, or undone and its sender ignored or itself removed. */
  function Tried(c: BlockContext, s: Session, tx: Tx): Session {
    match ApplyMessage(c.rules, c.atlantis, c.coinbase, s.p.world, s.p.pool, tx.msg)
    case Applied(_, _, _, _) =>
      s.(p := ApplyTransaction(c, s.p, tx).value, txs := s.txs + [tx], tcount := s.tcount + 1)
    case Rejected(_, pool, error) =>
      var t := s.(p := s.p.(pool := pool));
      if error == PoolExhausted then t.(ignored := s.ignored + {Sender(tx)}) else t.(removed := s.removed + [tx])
  }

  /** One turn of the loop. */
  function Considered(c: BlockContext, policy: Policy, s: Session, cand: Candidate): Session {
    var from := Sender(cand.tx);
    var cheap := cand.tx.msg.price < policy.gasPrice && from !in policy.owned;
    var t := if cheap then s.(lowGas := s.lowGas + {from}) else s;
    if cand.isProtected && !policy.diehard then s
    else if from in t.lowGas then (if from in policy.owned then t else t.(lowGasTxs := t.lowGasTxs + [cand.tx]))
    else if from in t.ignored then t
    else Tried(c, t, cand.tx)
  }

  function CommitAll(c: BlockContext, policy: Policy, s: Session, candidates: seq<Candidate>): Session {
    if candidates == [] then s else
      var n := |candidates| - 1;
      Considered(c, policy, CommitAll(c, policy, s, candidates[..n]), candidates[n])
  }

  /** A candidate may be put into the block: its protection is understood, it pays the price or is one of the node's
      own, and its sender was neither found too cheap nor stopped by the gas limit before. */
  ghost predicate Eligible(policy: Policy, s: Session, cand: Candidate) {
    && (!cand.isProtected || policy.diehard)
    && (cand.tx.msg.price >= policy.gasPrice || Sender(cand.tx) in policy.owned)
    && Sender(cand.tx) !in s.lowGas && Sender(cand.tx) !in s.ignored
  }

  /** Exactly what one turn does: an eligible candidate that applies is committed; one that finds too little gas in the
      block has its sender stopped; any other failure has it removed; and what is too cheap has its sender passed
      over. */
  lemma TurnExactly(c: BlockContext, policy: Policy, s: Session, cand: Candidate)
    ensures var t, from, m := Considered(c, policy, s, cand), Sender(cand.tx), cand.tx.msg;
      var r := ApplyMessage(c.rules, c.atlantis, c.coinbase, s.p.world, s.p.pool, m);
      && (r.Applied? <==> ApplyTransaction(c, s.p, cand.tx).Some?)
      && t.txs == s.txs + (if Eligible(policy, s, cand) && r.Applied? then [cand.tx] else [])
      && t.ignored == s.ignored + (if Eligible(policy, s, cand) && r.Rejected? && r.error == PoolExhausted
                                   then {from} else {})
      && t.removed == s.removed + (if Eligible(policy, s, cand) && r.Rejected? && r.error != PoolExhausted
                                   then [cand.tx] else [])
      && t.lowGas == s.lowGas + (if (!cand.isProtected || policy.diehard) && m.price < policy.gasPrice
                                    && from !in policy.owned then {from} else {})
      && t.lowGasTxs == s.lowGasTxs + (if (!cand.isProtected || policy.diehard) && from in t.lowGas
                                          && from !in policy.owned then [cand.tx] else [])
      && t.p == (if !Eligible(policy, s, cand) then s.p else if r.Rejected? then s.p.(pool := r.pool)
                 else ApplyTransaction(c, s.p, cand.tx).value)
      && t.tcount == s.tcount + |t.txs| - |s.txs|
  {
    AppliedIff(c, s.p, cand.tx);
    hide ApplyMessage, ApplyTransaction;
  }

  /** A transaction of the candidates whose protection is understood and that pays the price or is the node's own. */
  ghost predicate Offered(policy: Policy, candidates: seq<Candidate>, tx: Tx) {
    exists cand :: cand in candidates && cand.tx == tx && (!cand.isProtected || policy.diehard)
                   && (tx.msg.price >= policy.gasPrice || Sender(tx) in policy.owned)
  }

  lemma OfferedMore(policy: Policy, candidates: seq<Candidate>, tx: Tx)
    requires candidates != [] && Offered(policy, candidates[..|candidates| - 1], tx)
    ensures Offered(policy, candidates, tx)
  {
  }

  /** Over a whole call: what is added to the block was offered so, and no account of the node is ever passed over for
      its price. */
  lemma {:induction false} IncludedPay(c: BlockContext, policy: Policy, s: Session, candidates: seq<Candidate>)
    ensures var t := CommitAll(c, policy, s, candidates);
      && s.txs <= t.txs && s.lowGas <= t.lowGas && s.ignored <= t.ignored
      && (forall k :: |s.txs| <= k < |t.txs| ==> Offered(policy, candidates, t.txs[k]))
      && (forall a :: a in t.lowGas && a in policy.owned ==> a in s.lowGas)
  {
    hide Considered, Offered;
    if candidates != [] {
      var n := |candidates| - 1;
      var before, cand := CommitAll(c, policy, s, candidates[..n]), candidates[n];
      IncludedPay(c, policy, s, candidates[..n]);
      TurnExactly(c, policy, before, cand);
      var t := CommitAll(c, policy, s, candidates);
      forall k | |s.txs| <= k < |t.txs|
        ensures Offered(policy, candidates, t.txs[k])
      {
        if k < |before.txs| {
          OfferedMore(policy, candidates, before.txs[k]);
        } else {
          LastOffered(policy, candidates, before);
        }
      }
    }
  }

  lemma LastOffered(policy: Policy, candidates: seq<Candidate>, s: Session)
    requires candidates != [] && Eligible(policy, s, candidates[|candidates| - 1])
    ensures Offered(policy, candidates, candidates[|candidates| - 1].tx)
  {
    assert candidates[|candidates| - 1] in candidates;
  }

  /** Once a sender is passed over or stopped, nothing of theirs is added any more. */
  lemma {:induction false} PassedOverStaysOut(c: BlockContext, policy: Policy, s: Session, candidates: seq<Candidate>,
                                              a: Address)
    requires a in s.lowGas || a in s.ignored
    ensures var t := CommitAll(c, policy, s, candidates);
      forall k :: |s.txs| <= k < |t.txs| ==> Sender(t.txs[k]) != a
    decreases |candidates|
  {
    hide Considered;
    IncludedPay(c, policy, s, candidates);
    if candidates != [] {
      var n := |candidates| - 1;
      var before := CommitAll(c, policy, s, candidates[..n]);
      PassedOverStaysOut(c, policy, s, candidates[..n], a);
      IncludedPay(c, policy, s, candidates[..n]);
      TurnExactly(c, policy, before, candidates[n]);
    }
  }

  /** More gas in the pool changes nothing about a transaction that goes through. */
  lemma PoolMonotone(c: BlockContext, p: Progress, more: nat, tx: Tx)
    requires ApplyTransaction(c, p, tx).Some?
    ensures var q := ApplyTransaction(c, p, tx).value;
      ApplyTransaction(c, p.(pool := p.pool + more), tx) == Some(q.(pool := q.pool + more))
  {
    hide RunMessage, Opened, Intrinsic;
  }

  lemma RejectedBounds(c: BlockContext, w: World, pool: int, msg: Message)
    requires pool >= 0
    ensures var r := ApplyMessage(c.rules, c.atlantis, c.coinbase, w, pool, msg);
      r.Rejected? ==> 0 <= r.pool <= pool
  {
    hide RunMessage, Opened;
  }

  ghost predicate Sane(c: BlockContext, s: Session) {
    NonNegative(s.p.world.accounts) && FreshAddresses(c.rules) && s.p.pool >= 0
  }

  /** A turn never takes gas used back, and what pool and gas used have together only shrinks. */
  lemma ConsideredBounds(c: BlockContext, policy: Policy, s: Session, cand: Candidate)
    requires Sane(c, s)
    ensures var t := Considered(c, policy, s, cand);
      Sane(c, t) && s.p.used <= t.p.used && t.p.pool + t.p.used <= s.p.pool + s.p.used
  {
    hide ApplyMessage, NonNegative, FreshAddresses, Total, HeldBy, MessageLost, Intrinsic;
    var msg := cand.tx.msg;
    AppliedKeeps(c.rules, c.atlantis, c.coinbase, s.p.world, s.p.pool, msg);
    RejectedBounds(c, s.p.world, s.p.pool, msg);
    var r := ApplyMessage(c.rules, c.atlantis, c.coinbase, s.p.world, s.p.pool, msg);
    if r.Applied? {
      FinalisedKeeps(r.world, c.atlantis, cand.tx.touched);
    }
  }

  /** One call never adds more than the gas it started with. */
  lemma {:induction false} CommitBounds(c: BlockContext, policy: Policy, s: Session, candidates: seq<Candidate>)
    requires Sane(c, s)
    ensures var t := CommitAll(c, policy, s, candidates);
      Sane(c, t) && s.p.used <= t.p.used && t.p.pool + t.p.used <= s.p.pool + s.p.used
  {
    hide Considered, Sane;
    if candidates != [] {
      var n := |candidates| - 1;
      CommitBounds(c, policy, s, candidates[..n]);
      ConsideredBounds(c, policy, CommitAll(c, policy, s, candidates[..n]), candidates[n]);
    }
  }

  /** A block under construction from `w` replays: processing its transactions gives its state, receipts and gas. */
  ghost predicate Replays(c: BlockContext, w: World, s: Session) {
    && s.p.pool + s.p.used <= c.gasLimit
    && ProcessTxs(c, w, s.txs) == Some(s.p.(pool := c.gasLimit - s.p.used))
  }

  lemma TriedReplays(c: BlockContext, w: World, s: Session, tx: Tx)
    requires Sane(c, s) && Replays(c, w, s)
    ensures Replays(c, w, Tried(c, s, tx))
  {
    hide ApplyMessage, ApplyTransaction, NonNegative, FreshAddresses, ProcessTxs;
    RejectedBounds(c, s.p.world, s.p.pool, tx.msg);
    AppliedIff(c, s.p, tx);
    if ApplyTransaction(c, s.p, tx).Some? {
      PoolMonotone(c, s.p, c.gasLimit - s.p.used - s.p.pool, tx);
      AppliedExactly(c, s.p, tx);
      ProcessOneMore(c, w, s.txs, tx);
    }
  }

  lemma ProcessOneMore(c: BlockContext, w: World, txs: seq<Tx>, tx: Tx)
    requires ProcessTxs(c, w, txs).Some?
    ensures ProcessTxs(c, w, txs + [tx]) == ApplyTransaction(c, ProcessTxs(c, w, txs).value, tx)
  {
    hide ApplyTransaction;
    assert (txs + [tx])[..|txs|] == txs;
  }

  lemma AppliedExactly(c: BlockContext, p: Progress, tx: Tx)
    requires NonNegative(p.world.accounts) && FreshAddresses(c.rules) && ApplyTransaction(c, p, tx).Some?
    ensures var q := ApplyTransaction(c, p, tx).value; q.pool + q.used == p.pool + p.used
  {
    hide ApplyMessage, NonNegative, FreshAddresses, Total, MessageLost, Intrinsic;
    AppliedKeeps(c.rules, c.atlantis, c.coinbase, p.world, p.pool, tx.msg);
  }

  lemma AppliedIff(c: BlockContext, p: Progress, tx: Tx)
    ensures ApplyTransaction(c, p, tx).Some? <==>
            ApplyMessage(c.rules, c.atlantis, c.coinbase, p.world, p.pool, tx.msg).Applied?
  {
    hide ApplyMessage;
  }

  lemma {:induction false} CommitReplays(c: BlockContext, policy: Policy, w: World, s: Session,
                                         candidates: seq<Candidate>)
    requires Sane(c, s) && Replays(c, w, s)
    ensures Replays(c, w, CommitAll(c, policy, s, candidates))
  {
    hide Tried, ProcessTxs, Sane;
    if candidates != [] {
      var n := |candidates| - 1;
      var before := CommitAll(c, policy, s, candidates[..n]);
      CommitReplays(c, policy, w, s, candidates[..n]);
      CommitBounds(c, policy, s, candidates[..n]);
      ListedSane(c, before, before.(lowGas := before.lowGas + {Sender(candidates[n].tx)}));
      TriedReplays(c, w, before, candidates[n].tx);
      TriedReplays(c, w, before.(lowGas := before.lowGas + {Sender(candidates[n].tx)}), candidates[n].tx);
    }
  }

  lemma ListedSane(c: BlockContext, s: Session, t: Session)
    requires Sane(c, s) && t.p == s.p
    ensures Sane(c, t)
  {
  }

  /** A message from an account to itself that uses up its gas limit and asks no price. */
  function Spender(a: Address, nonce: nat, gasLimit: nat): Tx
    requires gasLimit >= TX_GAS
  {
    Tx(Message(true, a, Some(a), nonce, 0, gasLimit, 0, [], Spend(gasLimit - TX_GAS, Halt(Return(0)))), {})
  }

  lemma SpenderUses(c: BlockContext, p: Progress, a: Address)
    requires c.gasLimit >= TX_GAS && p.pool == c.gasLimit && p.world.refund == 0 && Balance(p.world.accounts, a) >= 0
    ensures var q := ApplyTransaction(c, p, Spender(a, GetNonce(p.world.accounts, a), c.gasLimit));
      q.Some? && q.value.used == p.used + c.gasLimit
  {
    var msg := Spender(a, GetNonce(p.world.accounts, a), c.gasLimit).msg;
    assert Intrinsic([], false, c.rules.homestead) == TX_GAS;
    assert msg.gasLimit * msg.price == 0;
    var o := Opened(c.rules, c.atlantis, p.world, msg);
    assert a in o.accounts && Balance(o.accounts, a) >= 0 && o.refund == 0;
    var gas, frame := c.gasLimit - TX_GAS, Frame(a, 0, false);
    assert OpenCall(o, frame, PlainCall, a, 0) == o;
    var body := Halt(Return(0));
    assert Exec(c.rules, o, CallFrame(frame, PlainCall, a), 0, body) == Outcome(o, 0, NoError, 0);
    assert Exec(c.rules, o, CallFrame(frame, PlainCall, a), gas, Spend(gas, body)) == Outcome(o, 0, NoError, 0);
    assert RunMessage(c.rules, o, msg, gas) == Outcome(o, 0, NoError, 0);
  }

  lemma {:induction false} BeyondAll(s: set<Address>) returns (a: Address)
    ensures forall b :: b in s ==> b < a
    decreases s
  {
    if s == {} {
      a := 0;
    } else {
      var b :| b in s;
      var rest := s - {b};
      var beyond := BeyondAll(rest);
      a := if beyond <= b then b + 1 else beyond;
      assert forall x :: x in s ==> x == b || x in rest;
    }
  }

  lemma TooLittleGas(c: BlockContext, policy: Policy, s: Session, cand: Candidate)
    requires s.p.pool < TX_GAS
    ensures Considered(c, policy, s, cand).p.used == s.p.used
  {
    hide RunMessage, Opened;
  }

  lemma {:induction false} TooLittleGasForAny(c: BlockContext, policy: Policy, s: Session, candidates: seq<Candidate>)
    requires Sane(c, s) && s.p.pool < TX_GAS
    ensures var t := CommitAll(c, policy, s, candidates); t.p.used == s.p.used && t.p.pool < TX_GAS
  {
    hide Considered, Sane;
    if candidates != [] {
      var n := |candidates| - 1;
      TooLittleGasForAny(c, policy, s, candidates[..n]);
      CommitBounds(c, policy, s, candidates[..n]);
      var before := CommitAll(c, policy, s, candidates[..n]);
      TooLittleGas(c, policy, before, candidates[n]);
      ConsideredBounds(c, policy, before, candidates[n]);
    }
  }

  /** The pool is refilled on every call. So a call stays within the block's gas limit whatever it is given exactly when
      no gas was used before it, or the limit is too small for any transaction and not passed yet. */
  lemma CallStaysWithinIff(c: BlockContext, owned: set<Address>, diehard: bool, s: Session)
    requires Sane(c, s) && s.p.pool == c.gasLimit && s.p.used >= 0 && s.p.world.refund == 0
    ensures (forall gasPrice: nat, candidates: seq<Candidate> ::
               CommitAll(c, Policy(owned, gasPrice, diehard), s, candidates).p.used <= c.gasLimit)
            <==> s.p.used == 0 || (c.gasLimit < TX_GAS && s.p.used <= c.gasLimit)
  {
    hide CommitAll;
    if s.p.used == 0 || (c.gasLimit < TX_GAS && s.p.used <= c.gasLimit) {
      forall gasPrice: nat, candidates: seq<Candidate>
        ensures CommitAll(c, Policy(owned, gasPrice, diehard), s, candidates).p.used <= c.gasLimit
      {
        CommitBounds(c, Policy(owned, gasPrice, diehard), s, candidates);
        if s.p.used > 0 {
          TooLittleGasForAny(c, Policy(owned, gasPrice, diehard), s, candidates);
        }
      }
    } else {
      var candidates := SecondCallCanExceed(c, owned, diehard, s);
    }
  }

  /** Candidates that take a call past the limit. */
  lemma SecondCallCanExceed(c: BlockContext, owned: set<Address>, diehard: bool, s: Session)
    returns (candidates: seq<Candidate>)
    requires Sane(c, s) && s.p.pool == c.gasLimit && s.p.world.refund == 0
    requires s.p.used > 0 && (c.gasLimit < TX_GAS ==> s.p.used > c.gasLimit)
    ensures CommitAll(c, Policy(owned, 0, diehard), s, candidates).p.used > c.gasLimit
  {
    hide ApplyMessage;
    if c.gasLimit < TX_GAS {
      candidates := [];
    } else {
      var a := BeyondAll(s.lowGas + s.ignored);
      assert a !in s.lowGas && a !in s.ignored;
      var tx := Spender(a, GetNonce(s.p.world.accounts, a), c.gasLimit);
      BalanceNonNegative(s.p.world.accounts, a);
      SpenderUses(c, s.p, a);
      candidates := [Candidate(tx, false)];
      assert candidates[..0] == [];
      assert CommitAll(c, Policy(owned, 0, diehard), s, candidates[..0]) == s;
    }
  }

  class Work {
    const c: BlockContext
    const env: Env
    const diehard: bool
    const ownedAccounts: set<Address>
    var gasUsed: int
    var txs: seq<Tx>
    var receipts: seq<TxReceipt>
    var ignoredTransactors: set<Address>
    var lowGasTransactors: set<Address>
    var lowGasTxs: seq<Tx>
    var removed: seq<Tx>
    var tcount: nat

    constructor (c: BlockContext, env: Env, diehard: bool, ownedAccounts: set<Address>)
      requires env.rules == c.rules
      ensures this.c == c && this.env == env && this.diehard == diehard && this.ownedAccounts == ownedAccounts
      ensures Fresh()
    {
      this.c, this.env, this.diehard, this.ownedAccounts := c, env, diehard, ownedAccounts;
      gasUsed, txs, receipts, tcount := 0, [], [], 0;
      ignoredTransactors, lowGasTransactors, lowGasTxs, removed := {}, {}, [], [];
    }

    ghost function Now(pool: int): Session
      reads this, env
    {
      Session(Progress(env.Now(), pool, gasUsed, receipts), txs, ignoredTransactors, lowGasTransactors,
              lowGasTxs, removed, tcount)
    }

    /** A header just built by commitNewWork. */
    ghost predicate Fresh()
      reads this
    {
      gasUsed == 0 && txs == [] && receipts == []
    }

    ghost predicate Usable()
      reads this, env
    {
      env.rules == c.rules && NonNegative(env.accounts) && FreshAddresses(c.rules)
    }

    /** commitTransaction: applied and recorded, or undone with an error. */
    method CommitTransaction(tx: Tx, gp: GasPool) returns (err: Option<TxError>)
      requires env.rules == c.rules
      modifies this`gasUsed, this`txs, this`receipts, env, gp
      ensures match ApplyMessage(c.rules, c.atlantis, c.coinbase, old(env.Now()), old(gp.gas), tx.msg)
              case Applied(_, _, _, _) =>
                && err == None && txs == old(txs) + [tx]
                && ApplyTransaction(c, Progress(old(env.Now()), old(gp.gas), old(gasUsed), old(receipts)), tx)
                   == Some(Progress(env.Now(), gp.gas, gasUsed, receipts))
              case Rejected(_, pool, error) =>
                && err == Some(error) && gp.gas == pool && env.Now() == old(env.Now())
                && gasUsed == old(gasUsed) && txs == old(txs) && receipts == old(receipts)
    {
      hide ApplyMessage, ApplyTransaction;
      var snap := env.SnapshotDatabase();
      AppliedIff(c, Progress(snap, gp.gas, gasUsed, receipts), tx);
      var ok, total, receipt, e := ApplyTx(env, gp, c, tx, gasUsed);
      if !ok {
        env.RevertToSnapshot(snap);
        return e;
      }
      gasUsed := total;
      txs := txs + [tx];
      receipts := receipts + [receipt];
      err := None;
    }

    /** commitTransactions: on a fresh header, whatever was skipped, dropped or failed on the way, the block built
        replays from its parent's state to the same state, receipts and gas, within the gas limit. */
    method CommitTransactions(candidates: seq<Candidate>, gasPrice: nat) returns (ghost left: int)
      requires Usable()
      modifies this, env
      ensures Usable()
      ensures Now(left) == CommitAll(c, Policy(ownedAccounts, gasPrice, diehard), old(Now(c.gasLimit)), candidates)
      ensures old(gasUsed) <= gasUsed <= old(gasUsed) + c.gasLimit
      ensures old(Fresh()) ==>
        && gasUsed <= c.gasLimit
        && ProcessTxs(c, old(env.Now()), txs) == Some(Progress(env.Now(), c.gasLimit - gasUsed, gasUsed, receipts))
    {
      hide Considered, NonNegative, FreshAddresses, ProcessTxs;
      ghost var policy, start := Policy(ownedAccounts, gasPrice, diehard), Now(c.gasLimit);
      var gp := new GasPool(c.gasLimit);
      var i := 0;
      assert candidates[..0] == [];
      while i < |candidates|
        invariant 0 <= i <= |candidates| && fresh(gp) && env.rules == c.rules
        invariant Now(gp.gas) == CommitAll(c, policy, start, candidates[..i])
      {
        assert candidates[..i + 1][..i] == candidates[..i];
        Consider(candidates[i], gasPrice, gp);
        i := i + 1;
      }
      assert candidates[..i] == candidates;
      left := gp.gas;
      CommitBounds(c, policy, start, candidates);
      if old(Fresh()) {
        NothingProcessed(c, start.p.world);
        CommitReplays(c, policy, start.p.world, start, candidates);
      }
    }

    /** One turn of the loop. */
    method Consider(cand: Candidate, gasPrice: nat, gp: GasPool)
      requires env.rules == c.rules
      modifies this, env, gp
      ensures env.rules == c.rules
      ensures Now(gp.gas) == Considered(c, Policy(ownedAccounts, gasPrice, diehard), old(Now(gp.gas)), cand)
    {
      hide ApplyMessage, ApplyTransaction;
      var tx, from := cand.tx, Sender(cand.tx);
      if cand.isProtected && !diehard {
        return;
      }
      if tx.msg.price < gasPrice && from !in ownedAccounts {
        lowGasTransactors := lowGasTransactors + {from};
      }
      if from in lowGasTransactors {
        if from !in ownedAccounts {
          lowGasTxs := lowGasTxs + [tx];
        }
        return;
      }
      if from in ignoredTransactors {
        return;
      }
      var err := CommitTransaction(tx, gp);
      match err {
        case None =>
          tcount := tcount + 1;
        case Some(e) =>
          if e == PoolExhausted {
            ignoredTransactors := ignoredTransactors + {from};
          } else {
            removed := removed + [tx];
          }
      }
    }
  }

  lemma NothingProcessed(c: BlockContext, w: World)
    ensures ProcessTxs(c, w, []) == Some(Progress(w, c.gasLimit, 0, []))
  {
  }
}
