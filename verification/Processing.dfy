/** Block processing (core/state_processor.go): transactions in order, finalisation, and the rewards. */
module Processing {
  import opened Types
  import opened Arithmetic
  import opened Ledger
  import opened Execution
  import opened Transactions
  import Rewards

  /** The parts of a block's header and configuration that processing reads. */
  datatype BlockContext = BlockContext(rules: Rules, atlantis: bool, coinbase: Address, number: nat, gasLimit: nat)

  /** `touched` are the accounts the transaction's journal lists. */
  datatype Tx = Tx(msg: Message, touched: set<Address>)

  datatype TxReceipt = TxReceipt(cumulative: int, used: int, failed: bool)

  predicate IsEmpty(a: Account) {
    a.nonce == STARTING_NONCE && a.balance == 0 && a.code == 0
  }

  /** The accounts Finalise deletes: self-destructed ones and, from Atlantis on, touched ones that are empty. */
  function Deleted(w: World, atlantis: bool, touched: set<Address>): set<Address> {
    w.suicided + set a | a in touched && a in w.accounts && atlantis && IsEmpty(w.accounts[a])
  }

  /** Finalising deletes accounts and clears the refund. */
  function Finalised(w: World, gone: set<Address>): World {
    World(w.accounts - gone, 0, {})
  }

  method Finalise(env: Env, atlantis: bool, touched: set<Address>)
    modifies env
    ensures env.Now() == Finalised(old(env.Now()), Deleted(old(env.Now()), atlantis, touched))
  {
    ghost var w := env.Now();
    var gone := Deleted(env.SnapshotDatabase(), atlantis, touched);
    var todo := gone;
    assert env.accounts - (gone - todo) == env.accounts;
    while todo != {}
      invariant todo <= gone
      invariant env.accounts == w.accounts - (gone - todo)
      decreases todo
    {
      var a :| a in todo;
      env.accounts := env.accounts - {a};
      todo := todo - {a};
      assert w.accounts - (gone - todo) == w.accounts - (gone - (todo + {a})) - {a};
    }
    assert gone - todo == gone;
    env.suicided, env.refund := {}, 0;
  }

  /** Which accounts are left: all but the self-destructed and, from Atlantis on, the touched ones without nonce,
      balance and code; the others as they were. */
  lemma FinalisedAccounts(w: World, atlantis: bool, touched: set<Address>, a: Address)
    ensures var f := Finalised(w, Deleted(w, atlantis, touched));
      && f.refund == 0 && f.suicided == {}
      && (a in f.accounts <==>
            && a in w.accounts && a !in w.suicided
            && !(atlantis && a in touched && w.accounts[a].nonce == 0 && w.accounts[a].balance == 0
                 && w.accounts[a].code == 0))
      && (a in f.accounts ==> f.accounts[a] == w.accounts[a])
  {
  }

  /** Finalising destroys exactly what the self-destructed accounts hold by then; the empty ones hold nothing. */
  lemma FinalisedKeeps(w: World, atlantis: bool, touched: set<Address>)
    requires NonNegative(w.accounts)
    ensures var f := Finalised(w, Deleted(w, atlantis, touched));
      && Total(f.accounts) == Total(w.accounts) - HeldBy(w.accounts, w.suicided)
      && HeldBy(w.accounts, w.suicided) >= 0 && NonNegative(f.accounts)
  {
    hide Total;
    var empty := set a | a in touched && a in w.accounts && atlantis && IsEmpty(w.accounts[a]);
    HeldApart(w.accounts, w.suicided + empty);
    HeldWithEmpty(w.accounts, w.suicided, empty);
    HeldNonNegative(w.accounts, w.suicided);
  }

  /** The state between two transactions of a block. */
  datatype Progress = Progress(world: World, pool: int, used: int, receipts: seq<TxReceipt>)

  /** ApplyTransaction: None when the message is rejected. */
  function ApplyTransaction(c: BlockContext, p: Progress, tx: Tx): Option<Progress> {
    match ApplyMessage(c.rules, c.atlantis, c.coinbase, p.world, p.pool, tx.msg)
    case Rejected(_, _, _) => None
    case Applied(w, pool, used, failed) =>
      Some(Progress(Finalised(w, Deleted(w, c.atlantis, tx.touched)), pool, p.used + used,
                    p.receipts + [TxReceipt(p.used + used, used, failed)]))
  }

  function Start(c: BlockContext, w: World): Progress {
    Progress(w, c.gasLimit, 0, [])
  }

  /** All transactions in order; None as soon as one fails. */
  function ProcessTxs(c: BlockContext, w: World, txs: seq<Tx>): Option<Progress> {
    if txs == [] then Some(Start(c, w)) else
      var n := |txs| - 1;
      match ProcessTxs(c, w, txs[..n])
      case None => None
      case Some(p) => ApplyTransaction(c, p, txs[n])
  }

  /** What a transaction destroys: in its run by self-destructs to oneself, and at its end with the self-destructed
      accounts, should they have received anything since. */
  ghost function TxLost(c: BlockContext, p: Progress, tx: Tx): int {
    match ApplyMessage(c.rules, c.atlantis, c.coinbase, p.world, p.pool, tx.msg)
    case Rejected(_, _, _) => 0
    case Applied(w, _, _, _) =>
      MessageLost(c.rules, c.atlantis, p.world, tx.msg) + HeldBy(w.accounts, w.suicided)
  }

  ghost function TxsLost(c: BlockContext, w: World, txs: seq<Tx>): int {
    if txs == [] then 0 else
      var n := |txs| - 1;
      match ProcessTxs(c, w, txs[..n])
      case None => 0
      case Some(p) => TxsLost(c, w, txs[..n]) + TxLost(c, p, txs[n])
  }

  /** What holds between any two transactions of a block that starts in `w` and has destroyed `lost` so far. */
  ghost predicate InStep(c: BlockContext, w: World, p: Progress, lost: int) {
    && p.pool + p.used == c.gasLimit
    && 0 <= p.used <= c.gasLimit
    && Total(p.world.accounts) == Total(w.accounts) - lost && lost >= 0
    && NonNegative(p.world.accounts)
    && RunningSums(p.receipts) && p.used == SumUsed(p.receipts)
  }

  ghost predicate RunningSums(receipts: seq<TxReceipt>) {
    forall i :: 0 <= i < |receipts| ==> receipts[i].cumulative == SumUsed(receipts[..i + 1])
  }

  function SumUsed(receipts: seq<TxReceipt>): int {
    if receipts == [] then 0 else SumUsed(receipts[..|receipts| - 1]) + receipts[|receipts| - 1].used
  }

  /** Between half a message's intrinsic gas and its gas limit. */
  ghost predicate UsesFairly(c: BlockContext, tx: Tx, used: int) {
    Intrinsic(tx.msg.data, tx.msg.to.None?, c.rules.homestead) <= 2 * used && used <= tx.msg.gasLimit
  }

  lemma ApplyTransactionKeeps(c: BlockContext, w: World, p: Progress, lost: int, tx: Tx)
    requires InStep(c, w, p, lost) && FreshAddresses(c.rules)
    ensures ApplyTransaction(c, p, tx).Some? ==>
      var q := ApplyTransaction(c, p, tx).value;
      && InStep(c, w, q, lost + TxLost(c, p, tx))
      && |q.receipts| == |p.receipts| + 1 && q.receipts[..|p.receipts|] == p.receipts
      && UsesFairly(c, tx, q.receipts[|p.receipts|].used)
  {
    hide Total, NonNegative, TxLost, RunningSums, SumUsed, UsesFairly, ApplyTransaction;
    var r := ApplyTransaction(c, p, tx);
    if r.Some? {
      TransactionKeeps(c, p, tx);
      SumsGrow(p.receipts, r.value.receipts[|p.receipts|]);
    }
  }

  lemma TransactionKeeps(c: BlockContext, p: Progress, tx: Tx)
    requires Usable(p.world, c.rules) && ApplyTransaction(c, p, tx).Some?
    ensures var q := ApplyTransaction(c, p, tx).value;
      && Total(q.world.accounts) == Total(p.world.accounts) - TxLost(c, p, tx) && TxLost(c, p, tx) >= 0
      && NonNegative(q.world.accounts)
      && |q.receipts| == |p.receipts| + 1
      && var last := q.receipts[|p.receipts|];
      && q.receipts == p.receipts + [last] && last.cumulative == q.used == p.used + last.used
      && q.pool + last.used == p.pool && 0 <= last.used <= tx.msg.gasLimit <= p.pool
      && UsesFairly(c, tx, last.used)
  {
    hide ApplyMessage, MessageLost, Total, NonNegative, Deleted, Intrinsic, HeldBy, Finalised;
    AppliedKeeps(c.rules, c.atlantis, c.coinbase, p.world, p.pool, tx.msg);
    var r := ApplyMessage(c.rules, c.atlantis, c.coinbase, p.world, p.pool, tx.msg);
    assert r.Applied?;
    FinalisedKeeps(r.world, c.atlantis, tx.touched);
  }

  lemma SumsGrow(receipts: seq<TxReceipt>, next: TxReceipt)
    requires RunningSums(receipts) && next.cumulative == SumUsed(receipts) + next.used
    ensures RunningSums(receipts + [next]) && SumUsed(receipts + [next]) == next.cumulative
  {
    var more, n := receipts + [next], |receipts|;
    assert more[..n] == receipts && more[..n + 1] == more;
    forall i | 0 <= i < n
      ensures more[i].cumulative == SumUsed(more[..i + 1])
    {
      assert more[..i + 1] == receipts[..i + 1];
    }
  }

  /** After every prefix of a block's transactions: pool gas plus gas used is the block's limit, each receipt carries
      the running sum and uses between half its transaction's intrinsic gas and its limit, and the sum of balances has
      fallen by exactly what self-destruction destroyed. */
  lemma {:induction false} EveryPrefixInStep(c: BlockContext, w: World, txs: seq<Tx>)
    requires NonNegative(w.accounts) && FreshAddresses(c.rules)
    ensures ProcessTxs(c, w, txs).Some? ==>
      var p := ProcessTxs(c, w, txs).value;
      && InStep(c, w, p, TxsLost(c, w, txs)) && |p.receipts| == |txs|
      && forall i :: 0 <= i < |txs| ==> UsesFairly(c, txs[i], p.receipts[i].used)
  {
    hide ApplyTransaction, TxLost, UsesFairly, NonNegative, Total;
    if txs != [] {
      var n := |txs| - 1;
      EveryPrefixInStep(c, w, txs[..n]);
      if ProcessTxs(c, w, txs[..n]).Some? {
        var p := ProcessTxs(c, w, txs[..n]).value;
        ApplyTransactionKeeps(c, w, p, TxsLost(c, w, txs[..n]), txs[n]);
        if ApplyTransaction(c, p, txs[n]).Some? {
          var q := ApplyTransaction(c, p, txs[n]).value;
          forall i | 0 <= i < |txs|
            ensures UsesFairly(c, txs[i], q.receipts[i].used)
          {
            if i < n {
              assert q.receipts[i] == q.receipts[..n][i] && txs[i] == txs[..n][i];
            }
          }
        }
      }
    }
  }

  /** A block of transactions whose runs never self-destruct, starting with no account marked, destroys nothing. */
  lemma {:induction false} TxsLoseNothing(c: BlockContext, w: World, txs: seq<Tx>)
    requires w.suicided == {} && forall tx <- txs :: NoSelfDestruct(tx.msg.trace)
    ensures TxsLost(c, w, txs) == 0
    ensures ProcessTxs(c, w, txs).Some? ==> ProcessTxs(c, w, txs).value.world.suicided == {}
  {
    hide ApplyMessage, MessageLost, NoSelfDestruct;
    if txs != [] {
      var n := |txs| - 1;
      TxsLoseNothing(c, w, txs[..n]);
      if ProcessTxs(c, w, txs[..n]).Some? {
        var p := ProcessTxs(c, w, txs[..n]).value;
        MessageLosesNothing(c.rules, c.atlantis, c.coinbase, p.world, p.pool, txs[n].msg);
        var r := ApplyMessage(c.rules, c.atlantis, c.coinbase, p.world, p.pool, txs[n].msg);
        if r.Applied? {
          assert Only(r.world.accounts, {}) == map[];
        }
      }
    }
  }

  function Era(number: nat): nat {
    Max(Rewards.BlockEra(number, Rewards.ERA_LENGTH), 0)
  }

  /** Eras are a hundred thousand blocks long, the first of them starting behind genesis. */
  lemma EraOfBlock(number: nat)
    ensures Era(number) == if number == 0 then 0 else (number - 1) / 100000
  {
    Rewards.BlockEraIsQuotient(number, Rewards.ERA_LENGTH);
  }

  /** Crediting the uncles' miners, in order. */
  function PayUncles(m: Accounts, share: int, uncles: seq<Header>): Accounts {
    if uncles == [] then m else
      var n := |uncles| - 1;
      AddBalance(PayUncles(m, share, uncles[..n]), uncles[n].coinbase, share)
  }

  function Rewarded(m: Accounts, c: BlockContext, uncles: seq<Header>): Accounts {
    var era := Era(c.number);
    var share := Rewards.UncleShare(era);
    PayUncles(AddBalance(m, c.coinbase, Rewards.WinnerReward(era) + |uncles| * share), share, uncles)
  }

  method WinnerRewardForUncles(era: nat, uncles: seq<Header>) returns (r: int)
    ensures r == |uncles| * Rewards.UncleShare(era)
  {
    r := 0;
    var i := 0;
    while i < |uncles|
      invariant 0 <= i <= |uncles| && r == i * Rewards.UncleShare(era)
    {
      r := r + Rewards.UncleShare(era);
      i := i + 1;
    }
  }

  method AccumulateRewards(env: Env, c: BlockContext, uncles: seq<Header>)
    modifies env`accounts
    ensures env.accounts == Rewarded(old(env.accounts), c, uncles)
  {
    hide Rewards.WinnerReward, Rewards.BlockEra, AddBalance;
    var era := Era(c.number);
    var wurs := WinnerRewardForUncles(era, uncles);
    env.accounts := AddBalance(env.accounts, c.coinbase, Rewards.WinnerReward(era) + wurs);
    ghost var paid := env.accounts;
    var i := 0;
    while i < |uncles|
      invariant 0 <= i <= |uncles|
      invariant env.accounts == PayUncles(paid, Rewards.UncleShare(era), uncles[..i])
    {
      assert uncles[..i + 1][..i] == uncles[..i];
      env.accounts := AddBalance(env.accounts, uncles[i].coinbase, Rewards.UncleShare(era));
      i := i + 1;
    }
    assert uncles[..i] == uncles;
  }

  lemma {:induction false} PayUnclesTotal(m: Accounts, share: int, uncles: seq<Header>)
    requires NonNegative(m) && share >= 0
    ensures Total(PayUncles(m, share, uncles)) == Total(m) + |uncles| * share
    ensures NonNegative(PayUncles(m, share, uncles))
  {
    hide Total, NonNegative, AddBalance, Balance;
    if uncles != [] {
      var n := |uncles| - 1;
      PayUnclesTotal(m, share, uncles[..n]);
      var before := PayUncles(m, share, uncles[..n]);
      BalanceNonNegative(before, uncles[n].coinbase);
      TotalAddBalance(before, uncles[n].coinbase, share);
      assert |uncles| * share == n * share + share;
    }
  }

  lemma RewardedTotal(m: Accounts, c: BlockContext, uncles: seq<Header>)
    requires NonNegative(m)
    ensures Total(Rewarded(m, c, uncles)) == Total(m) + Rewards.BlockIssue(Era(c.number), |uncles|)
    ensures NonNegative(Rewarded(m, c, uncles))
  {
    hide Total, NonNegative, AddBalance, Balance, Rewards.WinnerReward, Rewards.BlockEra;
    var era := Era(c.number);
    var share := Rewards.UncleShare(era);
    Rewards.WinnerRewardBelowCurve(era);
    var win := Rewards.WinnerReward(era) + |uncles| * share;
    assert |uncles| * share >= 0;
    BalanceNonNegative(m, c.coinbase);
    TotalAddBalance(m, c.coinbase, win);
    PayUnclesTotal(AddBalance(m, c.coinbase, win), share, uncles);
  }

  ghost function Mined(uncles: seq<Header>, a: Address): set<nat> {
    set i: nat | i < |uncles| && uncles[i].coinbase == a
  }

  /** How many of the uncles someone mined. */
  ghost function MinedBy(uncles: seq<Header>, a: Address): nat { |Mined(uncles, a)| }

  lemma MinedNext(uncles: seq<Header>, a: Address)
    requires uncles != []
    ensures var n := |uncles| - 1;
      && n !in Mined(uncles[..n], a)
      && Mined(uncles, a) == Mined(uncles[..n], a) + if uncles[n].coinbase == a then {n} else {}
  {
  }

  lemma MinedByNext(uncles: seq<Header>, a: Address)
    requires uncles != []
    ensures var n := |uncles| - 1;
      MinedBy(uncles, a) == MinedBy(uncles[..n], a) + if uncles[n].coinbase == a then 1 else 0
  {
    MinedNext(uncles, a);
    hide Mined;
  }

  lemma NoneMined(a: Address)
    ensures MinedBy([], a) == 0
  {
    assert Mined([], a) == {};
  }

  lemma {:induction false} PayUnclesBalance(m: Accounts, share: int, uncles: seq<Header>, a: Address)
    ensures Balance(PayUncles(m, share, uncles), a) == Balance(m, a) + MinedBy(uncles, a) * share
  {
    hide MinedBy;
    if uncles == [] {
      NoneMined(a);
    } else {
      var n := |uncles| - 1;
      PayUnclesBalance(m, share, uncles[..n], a);
      MinedByNext(uncles, a);
      assert (MinedBy(uncles[..n], a) + 1) * share == MinedBy(uncles[..n], a) * share + share;
    }
  }

  /** Who earns what: everyone one share for each uncle of theirs, the block's miner the winner's reward and one share
      for each uncle included. */
  lemma RewardedBalance(m: Accounts, c: BlockContext, uncles: seq<Header>, a: Address)
    ensures var era := Era(c.number);
      Balance(Rewarded(m, c, uncles), a) == Balance(m, a) + MinedBy(uncles, a) * Rewards.UncleShare(era)
        + if a == c.coinbase then Rewards.WinnerReward(era) + |uncles| * Rewards.UncleShare(era) else 0
  {
    hide Rewards.WinnerReward, Rewards.BlockEra;
    var era := Era(c.number);
    var win := Rewards.WinnerReward(era) + |uncles| * Rewards.UncleShare(era);
    PayUnclesBalance(AddBalance(m, c.coinbase, win), Rewards.UncleShare(era), uncles, a);
  }

  datatype Processed = Processed(world: World, receipts: seq<TxReceipt>, used: int)

  /** Process: all transactions, then the rewards; None when the block is invalid. */
  function ProcessBlock(c: BlockContext, w: World, txs: seq<Tx>, uncles: seq<Header>): Option<Processed> {
    match ProcessTxs(c, w, txs)
    case None => None
    case Some(p) => Some(Processed(p.world.(accounts := Rewarded(p.world.accounts, c, uncles)), p.receipts, p.used))
  }

  /** Processing any valid block raises the sum of balances by exactly the winner's and uncles' rewards less what
      self-destruction destroyed, keeps balances non-negative, and uses no more gas than the limit. */
  lemma BlockRaisesTotalByRewards(c: BlockContext, w: World, txs: seq<Tx>, uncles: seq<Header>)
    requires NonNegative(w.accounts) && FreshAddresses(c.rules)
    ensures ProcessBlock(c, w, txs, uncles).Some? ==>
      var r := ProcessBlock(c, w, txs, uncles).value;
      && Total(r.world.accounts) ==
           Total(w.accounts) + Rewards.BlockIssue(Era(c.number), |uncles|) - TxsLost(c, w, txs)
      && TxsLost(c, w, txs) >= 0 && NonNegative(r.world.accounts)
      && r.used == SumUsed(r.receipts) <= c.gasLimit
  {
    hide Total, NonNegative, Rewarded, ProcessTxs, Era, Rewards.BlockIssue, TxsLost;
    EveryPrefixInStep(c, w, txs);
    if ProcessTxs(c, w, txs).Some? {
      RewardedTotal(ProcessTxs(c, w, txs).value.world.accounts, c, uncles);
    }
  }

  /** Without self-destructs it is exactly the rewards. */
  lemma QuietBlockRaisesTotalByRewards(c: BlockContext, w: World, txs: seq<Tx>, uncles: seq<Header>)
    requires NonNegative(w.accounts) && FreshAddresses(c.rules)
    requires w.suicided == {} && forall tx <- txs :: NoSelfDestruct(tx.msg.trace)
    ensures ProcessBlock(c, w, txs, uncles).Some? ==>
      Total(ProcessBlock(c, w, txs, uncles).value.world.accounts) ==
        Total(w.accounts) + Rewards.BlockIssue(Era(c.number), |uncles|)
  {
    hide Total, NonNegative, ProcessBlock, Era, Rewards.BlockIssue, TxsLost, NoSelfDestruct;
    BlockRaisesTotalByRewards(c, w, txs, uncles);
    TxsLoseNothing(c, w, txs);
  }

  /** Between two transactions no nonce has fallen, and the second one's sender has passed the first one's. */
  lemma TransactionSpendsNonce(c: BlockContext, p: Progress, tx: Tx)
    requires ApplyTransaction(c, p, tx).Some? && NoSelfDestruct(tx.msg.trace) && p.world.suicided == {}
    ensures var q := ApplyTransaction(c, p, tx).value;
      && GetNonce(p.world.accounts, tx.msg.from) == tx.msg.nonce < GetNonce(q.world.accounts, tx.msg.from)
      && q.world.suicided == {}
      && forall a :: GetNonce(p.world.accounts, a) <= GetNonce(q.world.accounts, a)
  {
    hide ApplyMessage, MessageLost, NoSelfDestruct, Deleted, Finalised;
    MessageLosesNothing(c.rules, c.atlantis, c.coinbase, p.world, p.pool, tx.msg);
    var r := ApplyMessage(c.rules, c.atlantis, c.coinbase, p.world, p.pool, tx.msg);
    NonceSpent(c.rules, c.atlantis, c.coinbase, p.world, p.pool, tx.msg);
    forall a
      ensures GetNonce(ApplyTransaction(c, p, tx).value.world.accounts, a) == GetNonce(r.world.accounts, a)
    {
      FinalisedAccounts(r.world, c.atlantis, tx.touched, a);
    }
    FinalisedAccounts(r.world, c.atlantis, tx.touched, tx.msg.from);
  }

  /** In a block without self-destructs no transaction is applied twice: the nonces of each sender's transactions
      rise. */
  lemma {:induction false} NoReplayInBlock(c: BlockContext, w: World, txs: seq<Tx>)
    requires w.suicided == {} && (forall tx <- txs :: NoSelfDestruct(tx.msg.trace)) && ProcessTxs(c, w, txs).Some?
    ensures var p := ProcessTxs(c, w, txs).value;
      && p.world.suicided == {}
      && forall i :: 0 <= i < |txs| ==> txs[i].msg.nonce < GetNonce(p.world.accounts, txs[i].msg.from)
    ensures forall i, j :: 0 <= i < j < |txs| && txs[i].msg.from == txs[j].msg.from ==>
      txs[i].msg.nonce < txs[j].msg.nonce
  {
    hide ApplyTransaction, NoSelfDestruct, GetNonce;
    if txs != [] {
      var n := |txs| - 1;
      NoReplayInBlock(c, w, txs[..n]);
      TransactionSpendsNonce(c, ProcessTxs(c, w, txs[..n]).value, txs[n]);
      assert forall i :: 0 <= i < n ==> txs[..n][i] == txs[i];
    }
  }

  /** A receipt tells what its message used and whether its run failed. */
  lemma ReceiptTells(c: BlockContext, p: Progress, tx: Tx)
    requires ApplyTransaction(c, p, tx).Some?
    ensures var r := ApplyMessage(c.rules, c.atlantis, c.coinbase, p.world, p.pool, tx.msg);
      var q := ApplyTransaction(c, p, tx).value;
      && r.Applied? && |q.receipts| == |p.receipts| + 1 && q.receipts[..|p.receipts|] == p.receipts
      && q.receipts[|p.receipts|] == TxReceipt(p.used + r.used, r.used, r.failed)
      && q.used == p.used + r.used && q.pool == r.pool
  {
    hide ApplyMessage;
  }

  method ApplyTx(env: Env, gp: GasPool, c: BlockContext, tx: Tx, usedGas: int)
    returns (ok: bool, total: int, receipt: TxReceipt, err: Option<TxError>)
    requires env.rules == c.rules
    modifies env, gp
    ensures forall receipts ::
      var r := ApplyTransaction(c, Progress(old(env.Now()), old(gp.gas), usedGas, receipts), tx);
      && ok == r.Some?
      && (ok ==> r.value == Progress(env.Now(), gp.gas, total, receipts + [receipt]))
    ensures !ok ==>
      var r := ApplyMessage(c.rules, c.atlantis, c.coinbase, old(env.Now()), old(gp.gas), tx.msg);
      r.Rejected? && gp.gas == r.pool && err == Some(r.error)
  {
    hide ApplyMessage;
    var st := new StateTransition(env, tx.msg, gp, c.coinbase, c.atlantis);
    var used, failed, e := st.TransitionDb();
    ok, total, receipt, err := e.None?, usedGas + used, TxReceipt(usedGas + used, used, failed), e;
    if ok {
      Finalise(env, c.atlantis, tx.touched);
    }
  }

  method Process(env: Env, c: BlockContext, txs: seq<Tx>, uncles: seq<Header>)
    returns (ok: bool, receipts: seq<TxReceipt>, used: int)
    requires env.rules == c.rules
    modifies env
    ensures var r := ProcessBlock(c, old(env.Now()), txs, uncles);
      ok == r.Some? && (ok ==> r.value == Processed(env.Now(), receipts, used))
  {
    hide ApplyTransaction, Rewarded;
    ghost var w := env.Now();
    receipts, used, ok := [], 0, true;
    var gp := new GasPool(c.gasLimit);
    var i := 0;
    while i < |txs|
      invariant 0 <= i <= |txs| && fresh(gp)
      invariant ProcessTxs(c, w, txs[..i]) == Some(Progress(env.Now(), gp.gas, used, receipts))
    {
      assert txs[..i + 1][..i] == txs[..i];
      var good, receipt, err;
      good, used, receipt, err := ApplyTx(env, gp, c, txs[i], used);
      if !good {
        ok := false;
        StaysNone(c, w, txs, i + 1);
        return;
      }
      receipts := receipts + [receipt];
      i := i + 1;
    }
    assert txs[..i] == txs;
    AccumulateRewards(env, c, uncles);
  }

  lemma {:induction false} StaysNone(c: BlockContext, w: World, txs: seq<Tx>, k: nat)
    requires k <= |txs| && ProcessTxs(c, w, txs[..k]).None?
    ensures ProcessTxs(c, w, txs).None?
    decreases |txs| - k
  {
    if k == |txs| {
      assert txs[..k] == txs;
    } else {
      assert txs[..k + 1][..k] == txs[..k];
      StaysNone(c, w, txs, k + 1);
    }
  }
}
