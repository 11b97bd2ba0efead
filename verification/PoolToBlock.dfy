/** Where the pool meets the block: what the pool keeps ready can be applied. */
module PoolToBlock {
  import opened Types
  import opened PoolSteps
  import TxPool
  import Ledger
  import Execution
  import Transactions

  /** The pool's view of the accounts is the block's state. */
  ghost predicate SameState(state: ChainState, w: Ledger.World) {
    forall a :: StateNonce(state, a) == Ledger.GetNonce(w.accounts, a)
                && StateBalance(state, a) == Ledger.Balance(w.accounts, a)
  }

  /** A pool transaction and the message it is applied as. */
  ghost predicate Carries(rules: Execution.Rules, tx: Tx, msg: Transactions.Message) {
    && msg.signed == tx.signed && msg.from == tx.from && msg.nonce == tx.nonce
    && msg.price == tx.price && msg.gasLimit == tx.gas && msg.value == tx.value
    && tx.intrinsic == Transactions.Intrinsic(msg.data, msg.to.None?, rules.homestead)
  }

  /** Every account with pending transactions has one with exactly the account's nonce. */
  lemma PendingStartsNow(named: Naming, state: ChainState, pending: set<Hash>, h: Hash)
    requires GapFree(named, state, pending) && h in pending
    ensures exists u :: u in pending && named(u).from == named(h).from
                        && named(u).nonce == StateNonce(state, named(h).from) && Live(state, named(u))
  {
    var a := named(h).from;
    if named(h).nonce > StateNonce(state, a) {
      assert Covered(named, pending, a, StateNonce(state, a));
      var u :| u in pending && named(u).from == a && named(u).nonce == StateNonce(state, a);
      assert Live(state, named(u));
    } else {
      assert Live(state, named(h));
    }
  }

  /** And that one is applied, if it was validated and the block has its gas left. */
  lemma NextInLineApplies(rules: Execution.Rules, atlantis: bool, coinbase: Address, w: Ledger.World, pool: int,
                          state: ChainState, tx: Tx, msg: Transactions.Message)
    requires SameState(state, w) && Carries(rules, tx, msg)
    requires Live(state, tx) && tx.nonce == StateNonce(state, tx.from)
    requires tx.signed && tx.gas >= tx.intrinsic && tx.gas <= pool
    ensures Transactions.ApplyMessage(rules, atlantis, coinbase, w, pool, msg).Applied?
  {
    hide Transactions.ApplyMessage, Transactions.Intrinsic;
    assert msg.gasLimit * msg.price == tx.price * tx.gas;
    Transactions.MessageAppliedIff(rules, atlantis, coinbase, w, pool, msg);
  }

  /** A transaction the pool accepts is applied at once when it is next in line, and is refused otherwise just for its
      nonce. */
  lemma AcceptedApplies(rules: Execution.Rules, atlantis: bool, coinbase: Address, w: Ledger.World, pool: int,
                        state: ChainState, isLocal: bool, minGasPrice: nat, gasLimit: nat, tx: Tx,
                        msg: Transactions.Message)
    requires SameState(state, w) && Carries(rules, tx, msg) && gasLimit <= pool
    requires TxPool.ValidateTx(state, isLocal, minGasPrice, gasLimit, tx) == None
    ensures var r := Transactions.ApplyMessage(rules, atlantis, coinbase, w, pool, msg);
      if tx.nonce == StateNonce(state, tx.from) then r.Applied?
      else r == Transactions.Rejected(w, pool, Transactions.NonceMismatch)
  {
    hide Transactions.Intrinsic, Transactions.Opened, Transactions.RunMessage, Transactions.Settled;
    if tx.nonce == StateNonce(state, tx.from) {
      NextInLineApplies(rules, atlantis, coinbase, w, pool, state, tx, msg);
    }
  }
}
