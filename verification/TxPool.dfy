/** The transaction pool itself (core/tx_pool.go): maps changed inside loops over maps, in any iteration order. */
module TxPool {
  import opened Types
  import opened Arithmetic
  import opened PoolSteps

  datatype PoolError = Known | Cheap | InvalidSender | NonExistentAccount | NonceTooLow | GasLimitExceeded
                     | NegativeValue | InsufficientFunds | IntrinsicGasTooLow

  type TxMap = map<Hash, Tx>
  type Queue = map<Address, TxMap>

  function QueueOf(queue: Queue, a: Address): TxMap { if a in queue then queue[a] else map[] }

  ghost function Hashes(queue: Queue): Queued { (a: Address) => QueueOf(queue, a).Keys }

  ghost predicate Named(named: Naming, txs: TxMap) {
    forall h :: h in txs ==> txs[h] == named(h) && named(h).hash == h
  }

  ghost predicate AllNamed(named: Naming, queue: Queue) {
    forall a :: a in queue ==> Named(named, queue[a])
  }

  /** The checks made before a transaction is queued, in their order. */
  function ValidateTx(state: ChainState, isLocal: bool, minGasPrice: nat, gasLimit: nat, tx: Tx): (r: Option<PoolError>)
    ensures r.None? <==>
      && (isLocal || minGasPrice <= tx.price) && tx.signed && tx.from in state && Live(state, tx)
      && tx.gas <= gasLimit && tx.value >= 0 && tx.gas >= tx.intrinsic
    ensures r.None? ==> state[tx.from].nonce <= tx.nonce && tx.price * tx.gas + tx.value <= state[tx.from].balance
  {
    if !isLocal && minGasPrice > tx.price then Some(Cheap)
    else if !tx.signed then Some(InvalidSender)
    else if tx.from !in state then Some(NonExistentAccount)
    else if StateNonce(state, tx.from) > tx.nonce then Some(NonceTooLow)
    else if gasLimit < tx.gas then Some(GasLimitExceeded)
    else if tx.value < 0 then Some(NegativeValue)
    else if StateBalance(state, tx.from) < tx.Cost() then Some(InsufficientFunds)
    else if tx.gas < tx.intrinsic then Some(IntrinsicGasTooLow)
    else None
  }

  /** The checks, as what makes each of them fail. */
  ghost function PoolChecks(state: ChainState, isLocal: bool, minGasPrice: nat, gasLimit: nat, tx: Tx): seq<bool> {
    var known := tx.from in state;
    [!isLocal && tx.price < minGasPrice, !tx.signed, !known, known && tx.nonce < state[tx.from].nonce,
     gasLimit < tx.gas, tx.value < 0, known && state[tx.from].balance < tx.price * tx.gas + tx.value,
     tx.gas < tx.intrinsic]
  }

  /** The first check that fails decides which error is reported. */
  lemma FirstCheckDecides(state: ChainState, isLocal: bool, minGasPrice: nat, gasLimit: nat, tx: Tx, i: nat)
    requires i < 8
    ensures var errors := [Cheap, InvalidSender, NonExistentAccount, NonceTooLow, GasLimitExceeded, NegativeValue,
                           InsufficientFunds, IntrinsicGasTooLow];
      ValidateTx(state, isLocal, minGasPrice, gasLimit, tx) == Some(errors[i]) <==>
        FirstAt(PoolChecks(state, isLocal, minGasPrice, gasLimit, tx), i)
  {
    hide FirstAt;
    FirstOfEight(PoolChecks(state, isLocal, minGasPrice, gasLimit, tx), i);
  }

  // Sorting by nonce. The input order is arbitrary, so every order of equal nonces is possible.

  ghost predicate SortedByNonce(txs: seq<Tx>) {
    forall i, j :: 0 <= i < j < |txs| ==> txs[i].nonce <= txs[j].nonce
  }

  ghost predicate DistinctHashes(txs: seq<Tx>) {
    forall i, j :: 0 <= i < j < |txs| ==> txs[i].hash != txs[j].hash
  }

  function InsertByNonce(txs: seq<Tx>, tx: Tx): (r: seq<Tx>)
    ensures |r| == |txs| + 1
    ensures forall t :: t in r <==> t == tx || t in txs
  {
    if txs == [] || tx.nonce <= txs[0].nonce then [tx] + txs
    else
      assert txs == [txs[0]] + txs[1..];
      [txs[0]] + InsertByNonce(txs[1..], tx)
  }

  lemma {:induction false} InsertSorted(txs: seq<Tx>, tx: Tx)
    requires SortedByNonce(txs) && DistinctHashes(txs) && (forall t <- txs :: t.hash != tx.hash)
    ensures SortedByNonce(InsertByNonce(txs, tx)) && DistinctHashes(InsertByNonce(txs, tx))
  {
    if txs == [] || tx.nonce <= txs[0].nonce {
      PutFirst(tx, txs);
    } else {
      InsertSorted(txs[1..], tx);
      hide SortedByNonce, DistinctHashes;
      var rest := InsertByNonce(txs[1..], tx);
      PutFirst(txs[0], rest);
    }
  }

  lemma PutFirst(tx: Tx, txs: seq<Tx>)
    requires SortedByNonce(txs) && DistinctHashes(txs)
    requires forall t <- txs :: tx.nonce <= t.nonce && t.hash != tx.hash
    ensures SortedByNonce([tx] + txs) && DistinctHashes([tx] + txs)
  {
  }

  function SortByNonce(txs: seq<Tx>): (r: seq<Tx>)
    ensures |r| == |txs|
    ensures forall t :: t in r <==> t in txs
  {
    if txs == [] then [] else
      assert txs == txs[..|txs| - 1] + [txs[|txs| - 1]];
      InsertByNonce(SortByNonce(txs[..|txs| - 1]), txs[|txs| - 1])
  }

  lemma {:induction false} SortSorted(txs: seq<Tx>)
    requires DistinctHashes(txs)
    ensures SortedByNonce(SortByNonce(txs)) && DistinctHashes(SortByNonce(txs))
  {
    if txs != [] {
      var n := |txs| - 1;
      SortSorted(txs[..n]);
      forall t | t in SortByNonce(txs[..n])
        ensures t.hash != txs[n].hash
      {
        var i :| 0 <= i < n && txs[..n][i] == t;
      }
      InsertSorted(SortByNonce(txs[..n]), txs[n]);
    }
  }

  ghost function HashSet(txs: seq<Tx>): (r: set<Hash>) {
    set t | t in txs :: t.hash
  }

  lemma {:induction false} HashSetSize(txs: seq<Tx>)
    requires DistinctHashes(txs)
    ensures |HashSet(txs)| == |txs|
  {
    if txs != [] {
      var n := |txs| - 1;
      HashSetSize(txs[..n]);
      assert txs == txs[..n] + [txs[n]];
      assert txs[n].hash !in HashSet(txs[..n]);
      assert HashSet(txs) == HashSet(txs[..n]) + {txs[n].hash};
    }
  }

  lemma LiveIff(state: ChainState, tx: Tx)
    ensures Live(state, tx) <==> !(tx.nonce < StateNonce(state, tx.from) || StateBalance(state, tx.from) < tx.Cost())
  {
  }

  lemma NoneDistinct()
    ensures DistinctHashes([]) && HashSet([]) == {}
  {
  }

  lemma AppendDistinct(txs: seq<Tx>, tx: Tx)
    requires DistinctHashes(txs) && tx.hash !in HashSet(txs)
    ensures DistinctHashes(txs + [tx]) && HashSet(txs + [tx]) == HashSet(txs) + {tx.hash}
  {
    forall i | 0 <= i < |txs|
      ensures txs[i].hash in HashSet(txs)
    {
    }
  }

  /** Drops the transactions the state cannot take and lists the others in any order. */
  method CollectLive(txs: TxMap, state: ChainState, address: Address, ghost named: Naming)
    returns (rest: TxMap, promote: seq<Tx>)
    requires Named(named, txs) && forall h :: h in txs ==> named(h).from == address
    ensures Named(named, rest) && rest.Keys == LiveOf(named, state, txs.Keys)
    ensures DistinctHashes(promote) && HashSet(promote) == rest.Keys
    ensures forall t :: t in promote ==> t == named(t.hash)
  {
    hide HashSet, DistinctHashes, Live, Tx.Cost, StateNonce, StateBalance;
    rest, promote := txs, [];
    var todo := txs.Keys;
    ghost var live: set<Hash> := {};
    NoneDistinct();
    while todo != {}
      invariant todo <= txs.Keys
      invariant forall h :: h in live <==> h in txs && h !in todo && Live(state, named(h))
      invariant forall h :: h in rest <==> h in todo || h in live
      invariant forall h :: h in rest ==> rest[h] == named(h)
      invariant DistinctHashes(promote) && HashSet(promote) == live
      invariant forall t :: t in promote ==> t == named(t.hash)
      decreases |todo|
    {
      var hash :| hash in todo;
      todo := todo - {hash};
      var tx := txs[hash];
      LiveIff(state, tx);
      if tx.nonce < StateNonce(state, address) || StateBalance(state, address) < tx.Cost() {
        rest := rest - {hash};
      } else {
        AppendDistinct(promote, tx);
        promote := promote + [tx];
        live := live + {hash};
      }
    }
  }

  lemma HashAt(txs: seq<Tx>, h: Hash) returns (i: nat)
    requires h in HashSet(txs)
    ensures i < |txs| && txs[i].hash == h
  {
    var t :| t in txs && t.hash == h;
    i :| 0 <= i < |txs| && txs[i] == t;
  }

  lemma HashSetSplit(txs: seq<Tx>, i: nat)
    requires DistinctHashes(txs) && i <= |txs|
    ensures HashSet(txs[i..]) == HashSet(txs) - HashSet(txs[..i])
    ensures HashSet(txs[..i]) <= HashSet(txs)
  {
    assert txs == txs[..i] + txs[i..];
    forall h | h in HashSet(txs[i..])
      ensures h !in HashSet(txs[..i])
    {
      var j := HashAt(txs[i..], h);
      assert txs[i + j].hash == h;
      forall k | 0 <= k < i
        ensures txs[..i][k].hash != h
      {
        assert txs[k].hash != txs[i + j].hash;
      }
    }
  }

  /** The transactions that stay queued when the sorted list is cut at `i`. */
  ghost function Staying(txs: seq<Tx>, i: nat): seq<Tx>
    requires i <= |txs|
  {
    txs[i..Min(|txs|, i + MAX_QUEUED)]
  }

  lemma StayingHashes(txs: seq<Tx>, i: nat)
    requires DistinctHashes(txs) && i <= |txs|
    ensures HashSet(Staying(txs, i)) == HashSet(txs[i..]) - HashSet(txs[Min(|txs|, i + MAX_QUEUED)..])
    ensures |HashSet(txs[i..])| == |txs| - i && |HashSet(Staying(txs, i))| == Min(|txs| - i, MAX_QUEUED)
  {
    var rest := txs[i..];
    var n := Min(|txs| - i, MAX_QUEUED);
    HashSetSize(rest);
    HashSetSize(rest[..n]);
    HashSetSplit(rest, n);
    assert rest[..n] == Staying(txs, i);
    assert rest[n..] == txs[Min(|txs|, i + MAX_QUEUED)..];
  }

  lemma NonceOf(named: Naming, txs: seq<Tx>, i: nat)
    requires i < |txs| && forall t :: t in txs ==> t == named(t.hash)
    ensures txs[i].hash in HashSet(txs) && named(txs[i].hash) == txs[i]
  {
  }

  lemma SortedSides(named: Naming, txs: seq<Tx>, guessed: nat, i: nat, h: Hash)
    requires SortedByNonce(txs) && DistinctHashes(txs) && forall t :: t in txs ==> t == named(t.hash)
    requires i <= |txs| && forall j :: 0 <= j < i ==> txs[j].nonce < guessed
    requires i < |txs| ==> txs[i].nonce > guessed
    requires h in HashSet(txs)
    ensures if h in HashSet(txs[..i]) then named(h).nonce < guessed else named(h).nonce > guessed
  {
    if h in HashSet(txs[..i]) {
      var j := HashAt(txs[..i], h);
      NonceOf(named, txs, j);
    } else {
      HashSetSplit(txs, i);
      var j := HashAt(txs[i..], h);
      NonceOf(named, txs, i + j);
    }
  }

  lemma SortedCrowded(named: Naming, txs: seq<Tx>, m: nat, h: Hash, k: Hash)
    requires SortedByNonce(txs) && forall t :: t in txs ==> t == named(t.hash)
    requires m <= |txs| && h in HashSet(txs[m..]) && k in HashSet(txs[..m])
    ensures named(k).nonce <= named(h).nonce
  {
    var j := HashAt(txs[m..], h);
    var l := HashAt(txs[..m], k);
    NonceOf(named, txs, m + j);
    NonceOf(named, txs, l);
  }

  lemma StayingBefore(txs: seq<Tx>, i: nat, m: nat)
    requires i <= |txs| && m == Min(|txs|, i + MAX_QUEUED)
    ensures HashSet(Staying(txs, i)) <= HashSet(txs[..m])
    ensures |txs| <= i + MAX_QUEUED ==> HashSet(txs[m..]) == {}
  {
    assert txs[..m] == txs[..i] + txs[i..m];
  }

  lemma HasNonceAt(named: Naming, txs: seq<Tx>, i: nat)
    requires i < |txs| && forall t :: t in txs ==> t == named(t.hash)
    ensures HasNonce(named, HashSet(txs), txs[i].nonce)
  {
    NonceOf(named, txs, i);
  }

  /** Stopping at the first nonce past the guess cuts the queue where the run of nonces ends. */
  lemma SortedCut(named: Naming, txs: seq<Tx>, first: nat, guessed: nat, i: nat)
    requires SortedByNonce(txs) && DistinctHashes(txs) && forall t :: t in txs ==> t == named(t.hash)
    requires first <= guessed && i <= |txs|
    requires forall n: nat :: first <= n < guessed ==> HasNonce(named, HashSet(txs), n)
    requires forall j :: 0 <= j < i ==> txs[j].nonce < guessed
    requires i < |txs| ==> txs[i].nonce > guessed
    ensures Cut(named, HashSet(txs), first, guessed, HashSet(txs[..i]), HashSet(Staying(txs, i)))
  {
    hide HashSet, SortedByNonce, DistinctHashes, Staying;
    var live, promoted, kept := HashSet(txs), HashSet(txs[..i]), HashSet(Staying(txs, i));
    var m := Min(|txs|, i + MAX_QUEUED);
    HashSetSplit(txs, i);
    StayingHashes(txs, i);
    StayingBefore(txs, i, m);
    forall h | h in live
      ensures named(h).nonce != guessed && (h in promoted <==> named(h).nonce < guessed)
    {
      SortedSides(named, txs, guessed, i, h);
    }
    assert live - promoted == HashSet(txs[i..]);
    forall h, k | h in live && h !in promoted && h !in kept && k in kept
      ensures named(k).nonce <= named(h).nonce
    {
      SortedCrowded(named, txs, m, h, k);
    }
  }

  lemma SortedMoved(named: Naming, txs: seq<Tx>, i: nat, tracked: nat)
    requires SortedByNonce(txs) && forall t :: t in txs ==> t == named(t.hash)
    requires i <= |txs|
    ensures Moved(named, HashSet(txs[..i]), tracked, if i == 0 then tracked else txs[i - 1].nonce + 1)
  {
    var promoted := HashSet(txs[..i]);
    if i > 0 {
      NonceOf(named, txs[..i], i - 1);
      forall h | h in promoted
        ensures named(h).nonce <= txs[i - 1].nonce
      {
        var j := HashAt(txs[..i], h);
        NonceOf(named, txs[..i], j);
      }
    } else {
      assert promoted == {};
    }
  }

  lemma SameHashes(txs: seq<Tx>, txs': seq<Tx>)
    requires forall t :: t in txs <==> t in txs'
    ensures HashSet(txs) == HashSet(txs')
  {
  }

  lemma InHashSet(txs: seq<Tx>, tx: Tx)
    requires tx in txs
    ensures tx.hash in HashSet(txs)
  {
  }

  /** Drops everything past the allowed number of queued transactions. */
  method DropCrowded(txs: TxMap, promote: seq<Tx>, i: nat, ghost named: Naming) returns (rest: TxMap)
    requires DistinctHashes(promote) && i <= |promote| && txs.Keys == HashSet(promote[i..]) && Named(named, txs)
    ensures rest.Keys == HashSet(Staying(promote, i)) && Named(named, rest)
  {
    hide HashSet, DistinctHashes, Staying, Named;
    StayingHashes(promote, i);
    rest := txs;
    if |promote| - i > MAX_QUEUED {
      var drop := promote[i + MAX_QUEUED..];
      var k := 0;
      NoneDistinct();
      assert drop[..0] == [];
      SliceDistinct(promote, i + MAX_QUEUED);
      while k < |drop|
        invariant k <= |drop| && rest == txs - HashSet(drop[..k])
      {
        HashSetNext(drop, k);
        DropNext(txs, HashSet(drop[..k]), drop[k].hash);
        rest := rest - {drop[k].hash};
        k := k + 1;
      }
      assert drop[..k] == drop;
      NamedFewer(named, txs, HashSet(drop));
    } else {
      NoneDistinct();
      assert promote[Min(|promote|, i + MAX_QUEUED)..] == [];
    }
  }

  lemma NamedFewer(named: Naming, txs: TxMap, gone: set<Hash>)
    requires Named(named, txs)
    ensures Named(named, txs - gone)
  {
  }

  lemma SliceDistinct(txs: seq<Tx>, i: nat)
    requires DistinctHashes(txs) && i <= |txs|
    ensures DistinctHashes(txs[i..])
  {
  }

  /** One account of the pool through a check; the others stay as they are. */
  ghost predicate CheckedOne(named: Naming, state: ChainState, address: Address,
                             pending: set<Hash>, queue: Queue, overlay: map<Address, nat>,
                             pending': set<Hash>, queue': Queue, overlay': map<Address, nat>) {
    && pending <= pending' <= pending + Hashes(queue)(address)
    && queue'.Keys - {address} == queue.Keys - {address}
    && (forall a :: a != address ==>
        QueueOf(queue', a) == QueueOf(queue, a) && Tracked(state, overlay', a) == Tracked(state, overlay, a))
    && Checked(named, LiveOf(named, state, Hashes(queue)(address)), Tracked(state, overlay, address),
               Hashes(queue)(address) * pending', Hashes(queue')(address), Tracked(state, overlay', address))
  }

  /** When the run stops, the account's live queue is cut as `Checked` says. */
  lemma RunDone(named: Naming, state: ChainState, promote: seq<Tx>, address: Address, before: TxMap,
                base: map<Address, nat>,
                live: TxMap, i: nat, guessed: nat, pending: TxMap, overlay: map<Address, nat>, rest: TxMap)
    requires SortedByNonce(promote) && DistinctHashes(promote) && HashSet(promote) == live.Keys && i <= |promote|
    requires Named(named, live) && forall t :: t in promote ==> t == named(t.hash)
    requires RunSoFar(named, promote, address, before, base, live, i, pending, overlay, rest)
    requires GuessSoFar(named, promote, Tracked(state, base, address), i, guessed)
    requires i < |promote| ==> promote[i].nonce > guessed
    ensures rest.Keys == HashSet(promote[i..]) && Named(named, rest) && HashSet(promote[..i]) <= live.Keys
    ensures pending.Keys == before.Keys + HashSet(promote[..i]) && Named(named, pending)
    ensures forall a :: a != address ==> Tracked(state, overlay, a) == Tracked(state, base, a)
    ensures Checked(named, live.Keys, Tracked(state, base, address), HashSet(promote[..i]),
                    HashSet(Staying(promote, i)), Tracked(state, overlay, address))
  {
    hide SortedByNonce, DistinctHashes, HashSet, Staying, Moved, Cut;
    HashSetSplit(promote, i);
    SortedCut(named, promote, Tracked(state, base, address), guessed, i);
    SortedMoved(named, promote, i, Tracked(state, base, address));
  }

  lemma FiledAt(named: Naming, pending: set<Hash>, queue: Queue, address: Address)
    requires Filed(named, pending, Hashes(queue)) && address in queue
    ensures forall h :: h in queue[address] ==> named(h).from == address && h !in pending
    ensures Hashes(queue)(address) == queue[address].Keys
  {
    forall h | h in queue[address]
      ensures named(h).from == address && h !in pending
    {
      assert h in Hashes(queue)(address);
    }
  }

  /** The queue with an account's transactions replaced, and no entry for an account without any. */
  function Refiled(queue: Queue, address: Address, txs: TxMap): (r: Queue)
    ensures forall a :: QueueOf(r, a) == if a == address then txs else QueueOf(queue, a)
    ensures r.Keys - {address} == queue.Keys - {address}
  {
    if |txs| == 0 then queue - {address} else queue[address := txs]
  }

  lemma RefiledNamed(named: Naming, queue: Queue, address: Address, txs: TxMap)
    requires AllNamed(named, queue) && Named(named, txs)
    ensures AllNamed(named, Refiled(queue, address, txs))
  {
    hide Named;
  }

  lemma RefiledFiled(named: Naming, pending: set<Hash>, queue: Queue, address: Address, pending': set<Hash>, txs: TxMap)
    requires Filed(named, pending, Hashes(queue)) && address in queue
    requires txs.Keys <= queue[address].Keys && pending' <= pending + queue[address].Keys && txs.Keys !! pending'
    ensures Filed(named, pending', Hashes(Refiled(queue, address, txs)))
  {
    hide Refiled;
    FiledAt(named, pending, queue, address);
    forall a, h | h in Hashes(Refiled(queue, address, txs))(a)
      ensures named(h).from == a && h !in pending'
    {
      if a != address {
        assert h in Hashes(queue)(a);
      }
    }
  }

  lemma PromotedOnly(named: Naming, state: ChainState, queued: set<Hash>, pending: set<Hash>, tracked: nat,
                     promoted: set<Hash>, kept: set<Hash>, next: nat)
    requires Checked(named, LiveOf(named, state, queued), tracked, promoted, kept, next) && queued !! pending
    ensures promoted <= queued && queued * (pending + promoted) == promoted
    ensures kept <= queued && kept !! pending + promoted
  {
    hide Live, Checked;
    KeptWasQueued(named, LiveOf(named, state, queued), tracked, promoted, kept, next);
  }

  /** A checked account keeps the pool sound. */
  lemma CheckedOneSound(named: Naming, state: ChainState, address: Address, pending: set<Hash>, queue: Queue,
                        tracked: nat, txs: TxMap, next: nat, promoted: set<Hash>)
    requires AllNamed(named, queue) && Filed(named, pending, Hashes(queue)) && address in queue && Named(named, txs)
    requires Checked(named, LiveOf(named, state, queue[address].Keys), tracked, promoted, txs.Keys, next)
    ensures AllNamed(named, Refiled(queue, address, txs))
    ensures Filed(named, pending + promoted, Hashes(Refiled(queue, address, txs)))
    ensures promoted <= queue[address].Keys && queue[address].Keys * (pending + promoted) == promoted
  {
    hide LiveOf, Checked, Named, AllNamed, Filed, Refiled, Hashes;
    FiledAt(named, pending, queue, address);
    PromotedOnly(named, state, queue[address].Keys, pending, tracked, promoted, txs.Keys, next);
    RefiledNamed(named, queue, address, txs);
    RefiledFiled(named, pending, queue, address, pending + promoted, txs);
  }

  lemma CheckedOneHolds(named: Naming, state: ChainState, address: Address, pending: set<Hash>, queue: Queue,
                        overlay: map<Address, nat>,
                        pending': set<Hash>, txs: TxMap, overlay': map<Address, nat>, promoted: set<Hash>)
    requires pending' == pending + promoted && promoted <= QueueOf(queue, address).Keys
    requires QueueOf(queue, address).Keys * pending' == promoted
    requires forall a :: a != address ==> Tracked(state, overlay', a) == Tracked(state, overlay, a)
    requires Checked(named, LiveOf(named, state, QueueOf(queue, address).Keys), Tracked(state, overlay, address),
                     promoted, txs.Keys, Tracked(state, overlay', address))
    ensures CheckedOne(named, state, address, pending, queue, overlay, pending', Refiled(queue, address, txs), overlay')
  {
    hide Tracked, Checked, LiveOf, Refiled, QueueOf;
  }

  /** All accounts but those still to do are checked. */
  ghost predicate CheckedSome(named: Naming, state: ChainState, todo: set<Address>,
                              pending: set<Hash>, queue: Queue, overlay: map<Address, nat>,
                              pending': set<Hash>, queue': Queue, overlay': map<Address, nat>) {
    && pending <= pending'
    && (forall h :: h in pending' ==> h in pending || (h in Hashes(queue)(named(h).from) && named(h).from !in todo))
    && (forall a :: a in todo ==>
        QueueOf(queue', a) == QueueOf(queue, a) && Tracked(state, overlay', a) == Tracked(state, overlay, a))
    && forall a :: a !in todo ==>
         Checked(named, LiveOf(named, state, Hashes(queue)(a)), Tracked(state, overlay, a),
                 Hashes(queue)(a) * pending', Hashes(queue')(a), Tracked(state, overlay', a))
  }

  lemma CheckedNone(named: Naming, tracked: nat)
    ensures Checked(named, {}, tracked, {}, {}, tracked)
  {
    var none: set<Hash> := {};
    assert none - none == none;
    assert Cut(named, none, tracked, tracked, none, none);
  }

  lemma CheckStarts(named: Naming, state: ChainState, pending: set<Hash>, queue: Queue, overlay: map<Address, nat>)
    ensures CheckedSome(named, state, queue.Keys, pending, queue, overlay, pending, queue, overlay)
  {
    hide Checked, Tracked, Live;
    forall a | a !in queue
      ensures Checked(named, LiveOf(named, state, Hashes(queue)(a)), Tracked(state, overlay, a),
                      Hashes(queue)(a) * pending, Hashes(queue)(a), Tracked(state, overlay, a))
    {
      CheckedNone(named, Tracked(state, overlay, a));
      assert Hashes(queue)(a) == {};
      assert LiveOf(named, state, {}) == {};
      assert {} * pending == {};
    }
  }

  lemma CheckStep(named: Naming, state: ChainState, todo: set<Address>, address: Address,
                  first: set<Hash>, queue0: Queue, overlay0: map<Address, nat>,
                  pending: set<Hash>, queue: Queue, overlay: map<Address, nat>,
                  pending': set<Hash>, queue': Queue, overlay': map<Address, nat>)
    requires Filed(named, first, Hashes(queue0)) && address in todo
    requires CheckedSome(named, state, todo, first, queue0, overlay0, pending, queue, overlay)
    requires CheckedOne(named, state, address, pending, queue, overlay, pending', queue', overlay')
    ensures queue.Keys - {address} <= queue'.Keys
    ensures CheckedSome(named, state, todo - {address}, first, queue0, overlay0, pending', queue', overlay')
  {
    hide Checked, Tracked, LiveOf, QueueOf;
    forall h | h in pending'
      ensures h in first || (h in Hashes(queue0)(named(h).from) && named(h).from !in todo - {address})
    {
      if h !in pending {
        assert h in Hashes(queue0)(address);
      }
    }
    forall a | a !in todo
      ensures Hashes(queue0)(a) * pending' == Hashes(queue0)(a) * pending
    {
      forall h | h in pending' && h !in pending
        ensures h !in Hashes(queue0)(a)
      {
        assert h in Hashes(queue0)(address);
      }
    }
  }

  lemma CheckDone(named: Naming, state: ChainState, pending: set<Hash>, queue: Queue, overlay: map<Address, nat>,
                  pending': set<Hash>, queue': Queue, overlay': map<Address, nat>)
    requires CheckedSome(named, state, {}, pending, queue, overlay, pending', queue', overlay')
    ensures CheckedAll(named, state, pending, Hashes(queue), overlay, pending', Hashes(queue'), overlay')
  {
    hide Checked, Tracked, LiveOf, QueueOf;
  }

  /** The smallest nonce seen of an unfunded transaction, account by account. */
  ghost predicate GapsFor(named: Naming, state: ChainState, seen: set<Hash>, gaps: map<Address, nat>) {
    && (forall a :: a in gaps ==>
          exists u :: u in seen && named(u).from == a && named(u).nonce == gaps[a] && Unfunded(state, named(u)))
    && forall u :: u in seen && Unfunded(state, named(u)) ==>
         named(u).from in gaps && gaps[named(u).from] <= named(u).nonce
  }

  lemma GapsSay(named: Naming, state: ChainState, pending: set<Hash>, gaps: map<Address, nat>, h: Hash)
    requires GapsFor(named, state, pending, gaps)
    ensures Postponed(named, state, pending, h) <==> named(h).from in gaps && named(h).nonce >= gaps[named(h).from]
  {
    hide Unfunded;
  }

  lemma GapsStep(named: Naming, state: ChainState, seen: set<Hash>, gaps: map<Address, nat>, h: Hash)
    requires GapsFor(named, state, seen, gaps)
    ensures !Unfunded(state, named(h)) ==> GapsFor(named, state, seen + {h}, gaps)
    ensures Unfunded(state, named(h)) ==>
              var a := named(h).from;
              GapsFor(named, state, seen + {h},
                      if a !in gaps || named(h).nonce < gaps[a] then gaps[a := named(h).nonce] else gaps)
  {
    hide Unfunded;
    assert h in seen + {h};
    forall a | a in gaps
      ensures exists u ::
        u in seen + {h} && named(u).from == a && named(u).nonce == gaps[a] && Unfunded(state, named(u))
    {
      var u :| u in seen && named(u).from == a && named(u).nonce == gaps[a] && Unfunded(state, named(u));
      assert u in seen + {h};
    }
  }

  lemma UnfundedIff(state: ChainState, tx: Tx)
    ensures Unfunded(state, tx) <==>
      !(StateNonce(state, tx.from) > tx.nonce) && StateBalance(state, tx.from) < tx.Cost()
    ensures Live(state, tx) <==> !(StateNonce(state, tx.from) > tx.nonce) && !(StateBalance(state, tx.from) < tx.Cost())
  {
  }

  function Enqueued(queue: Queue, tx: Tx): Queue {
    queue[tx.from := QueueOf(queue, tx.from)[tx.hash := tx]]
  }

  lemma EnqueuedHashes(named: Naming, queue: Queue, tx: Tx)
    requires AllNamed(named, queue) && tx == named(tx.hash)
    ensures AllNamed(named, Enqueued(queue, tx))
    ensures forall a ::
      Hashes(Enqueued(queue, tx))(a) == if a == tx.from then Hashes(queue)(a) + {tx.hash} else Hashes(queue)(a)
  {
  }

  class TxPool {
    ghost const named: Naming
    var state: ChainState
    var minGasPrice: nat
    var gasLimit: nat
    var isLocal: set<Hash>
    /** The nonces tracked on top of the state, absent until the first reset. */
    var overlay: Option<map<Address, nat>>
    var pending: TxMap
    var queue: Queue

    /** Contents match their hashes, and no hash is both pending and queued. */
    ghost predicate Sound()
      reads this
    {
      && Named(named, pending) && AllNamed(named, queue) && Filed(named, pending.Keys, Hashes(queue))
    }

    /** Makes an unknown transaction pending. A pool without tracked nonces is reset first; `base` and `tracked` are the
        pending set and the nonces the transaction finds. */
    method AddTx(tx: Tx) returns (ghost base: TxMap, ghost tracked: map<Address, nat>)
      requires overlay.None? ==> Valid()
      modifies this`state, this`pending, this`queue, this`overlay
      ensures state == old(state)
      ensures old(overlay).Some? ==> queue == old(queue) && base == old(pending) && Some(tracked) == old(overlay)
      ensures old(overlay).None? ==>
        Conserved(named, state, old(pending.Keys), Hashes(old(queue)), base.Keys, Hashes(queue))
      ensures pending == if tx.hash in base then base else base[tx.hash := tx]
      ensures overlay == Some(if tx.hash in base then tracked else tracked[tx.from := tx.nonce + 1])
      decreases if overlay.None? then 2 else 0, 0
    {
      hide Conserved, Hashes, Valid;
      if overlay.None? {
        ResetState(state);
      }
      base, tracked := pending, overlay.value;
      if tx.hash !in pending {
        pending := pending[tx.hash := tx];
        overlay := Some(overlay.value[tx.from := tx.nonce + 1]);
      }
    }

    /** Promotes from the sorted list while nonces do not pass the guess. */
    method PromoteRun(promote: seq<Tx>, address: Address, txs: TxMap) returns (rest: TxMap, i: nat, ghost guessed: nat)
      requires overlay.Some? && Named(named, pending) && DistinctHashes(promote)
      requires forall t :: t in promote ==> t == named(t.hash) && t.from == address && t.hash !in pending
      modifies this`state, this`queue, this`pending, this`overlay
      ensures state == old(state) && queue == old(queue)
      ensures i <= |promote| && overlay.Some?
      ensures RunSoFar(named, promote, address, old(pending), old(overlay.value), txs, i, pending, overlay.value, rest)
      ensures GuessSoFar(named, promote, Tracked(state, old(overlay.value), address), i, guessed)
      ensures i < |promote| ==> promote[i].nonce > guessed
      decreases 0, 1
    {
      hide RunSoFar, GuessSoFar, DistinctHashes, Tracked, Named;
      var guessedNonce := Tracked(state, overlay.value, address);
      rest, i := txs, 0;
      RunStarts(named, promote, address, pending, overlay.value, txs, guessedNonce);
      while i < |promote| && promote[i].nonce <= guessedNonce
        invariant i <= |promote| && overlay.Some? && state == old(state) && queue == old(queue)
        invariant RunSoFar(named, promote, address, old(pending), old(overlay.value), txs, i, pending, overlay.value,
                           rest)
        invariant GuessSoFar(named, promote, Tracked(state, old(overlay.value), address), i, guessedNonce)
      {
        var tx := promote[i];
        RunStep(named, promote, address, old(pending), old(overlay.value), txs, i, pending, overlay.value, rest);
        GuessStep(named, promote, Tracked(state, old(overlay.value), address), i, guessedNonce);
        var _, _ := AddTx(tx);
        rest := rest - {tx.hash};
        if tx.nonce == guessedNonce {
          guessedNonce := guessedNonce + 1;
        }
        i := i + 1;
      }
      guessed := guessedNonce;
    }

    /** Checks one account's queue. */
    method CheckAccount(address: Address)
      requires Sound() && overlay.Some? && address in queue
      modifies this`state, this`pending, this`overlay, this`queue
      ensures state == old(state) && Sound() && overlay.Some?
      ensures CheckedOne(named, state, address, old(pending.Keys), old(queue), old(overlay.value), pending.Keys, queue,
                         overlay.value)
      decreases 0, 2
    {
      hide SortedByNonce, DistinctHashes, HashSet, RunSoFar, GuessSoFar, Live, Tracked, Checked, CheckedOne, Filed,
        Staying;
      FiledAt(named, pending.Keys, queue, address);
      var txs, promote := CollectLive(queue[address], state, address, named);
      SortSorted(promote);
      SameHashes(promote, SortByNonce(promote));
      promote := SortByNonce(promote);
      ghost var live := txs;
      forall t | t in promote
        ensures t == named(t.hash) && t.from == address && t.hash !in pending
      {
        InHashSet(promote, t);
      }
      var i;
      ghost var guessed;
      txs, i, guessed := PromoteRun(promote, address, txs);
      RunDone(named, state, promote, address, old(pending), old(overlay.value), live, i, guessed, pending,
              overlay.value, txs);
      txs := DropCrowded(txs, promote, i, named);
      ghost var promoted := HashSet(promote[..i]);
      CheckedOneSound(named, state, address, old(pending.Keys), queue, Tracked(state, old(overlay.value), address),
                      txs, Tracked(state, overlay.value, address), promoted);
      CheckedOneHolds(named, state, address, old(pending.Keys), queue, old(overlay.value), pending.Keys, txs,
                      overlay.value, promoted);
      if |txs| == 0 {
        queue := queue - {address};
      } else {
        queue := queue[address := txs];
      }
    }

    /** Moves what has become processable to the pending set, account by account in any order. */
    method CheckQueues()
      requires Sound() && overlay.Some?
      modifies this`state, this`pending, this`overlay, this`queue
      ensures state == old(state) && Sound() && overlay.Some?
      ensures CheckedAll(named, state, old(pending.Keys), Hashes(old(queue)), old(overlay.value),
                         pending.Keys, Hashes(queue), overlay.value)
      decreases 0, 3
    {
      hide CheckedSome, CheckedOne, CheckedAll, Filed, Named, AllNamed, Hashes;
      var todo := queue.Keys;
      CheckStarts(named, state, pending.Keys, queue, overlay.value);
      while todo != {}
        invariant Sound() && overlay.Some? && todo <= queue.Keys && state == old(state)
        invariant CheckedSome(named, state, todo, old(pending.Keys), old(queue), old(overlay.value), pending.Keys,
                              queue, overlay.value)
        decreases |todo|
      {
        var address :| address in todo;
        label before:
        CheckAccount(address);
        CheckStep(named, state, todo, address, old(pending.Keys), old(queue), old(overlay.value),
                  old@before(pending.Keys), old@before(queue), old@before(overlay.value), pending.Keys, queue,
                    overlay.value);
        todo := todo - {address};
      }
      CheckDone(named, state, old(pending.Keys), old(queue), old(overlay.value), pending.Keys, queue, overlay.value);
    }

    method QueueTx(tx: Tx)
      requires AllNamed(named, queue) && tx == named(tx.hash)
      modifies this`queue
      ensures queue == Enqueued(old(queue), tx)
    {
      if tx.from !in queue {
        queue := queue[tx.from := map[]];
      }
      var txs: TxMap := queue[tx.from];
      queue := queue[tx.from := txs[tx.hash := tx]];
    }

    /** Drops what the state cannot take and notes the first unfunded nonce of each account. */
    method CleanPending() returns (gaps: map<Address, nat>)
      requires Named(named, pending)
      modifies this`pending
      ensures Named(named, pending) && pending.Keys == LiveOf(named, state, old(pending.Keys))
      ensures GapsFor(named, state, old(pending.Keys), gaps)
    {
      hide GapsFor, Sifted, Live, Unfunded, StateNonce, StateBalance, Tx.Cost, Named;
      gaps := map[];
      var todo := pending.Keys;
      ghost var seen: set<Hash> := {};
      GapsNone(named, state);
      SiftStarts(named, state, pending);
      while todo != {}
        invariant todo + seen == old(pending.Keys) && Sifted(named, state, seen, todo, pending)
        invariant GapsFor(named, state, seen, gaps)
        decreases |todo|
      {
        var hash :| hash in todo;
        SiftStep(named, state, seen, todo, pending, hash);
        GapsStep(named, state, seen, gaps, hash);
        var tx := pending[hash];
        UnfundedIff(state, tx);
        todo, seen := todo - {hash}, seen + {hash};
        var past := StateNonce(state, tx.from) > tx.nonce;
        if past || StateBalance(state, tx.from) < tx.Cost() {
          pending := pending - {hash};
          if !past {
            if tx.from !in gaps || tx.nonce < gaps[tx.from] {
              gaps := gaps[tx.from := tx.nonce];
            }
          }
        }
      }
      SiftDone(named, state, seen, pending);
      assert seen == old(pending.Keys);
    }

    /** Drops pending transactions the state cannot take and moves those past an unfunded one back to the queue. */
    method ValidatePool()
      requires Sound()
      modifies this`pending, this`queue
      ensures Sound()
      ensures pending.Keys == Validated(named, state, old(pending.Keys))
      ensures forall a :: Hashes(queue)(a) == Hashes(old(queue))(a) + Demoted(named, state, old(pending.Keys), a)
    {
      hide GapsFor, Live, Hashes, Named, AllNamed, PastGap, Demoting, Filed, Validated, Demoted;
      var gaps := CleanPending();
      ghost var live := pending.Keys;
      var todo := pending.Keys;
      DemotingStarts(named, gaps, pending, queue);
      while todo != {}
        invariant todo <= live && Demoting(named, gaps, live, todo, old(queue), pending, queue)
        decreases |todo|
      {
        var hash :| hash in todo;
        DemotingStep(named, gaps, live, todo, old(queue), pending, queue, hash);
        var tx := pending[hash];
        if tx.from in gaps && tx.nonce >= gaps[tx.from] {
          QueueTx(tx);
          pending := pending - {hash};
        }
        todo := todo - {hash};
      }
      DemotingDone(named, state, gaps, old(pending.Keys), old(queue), pending, queue);
    }

    ghost predicate Valid()
      reads this
    {
      && Sound() && GapFree(named, state, pending.Keys)
      && (overlay.Some? ==> BackedAll(named, state, pending.Keys, overlay.value))
    }

    constructor (state: ChainState, gasLimit: nat, ghost named: Naming)
      ensures Valid() && pending == map[] && queue == map[] && overlay == None
      ensures this.state == state && this.gasLimit == gasLimit && this.named == named
    {
      this.state, this.gasLimit, this.named := state, gasLimit, named;
      minGasPrice, isLocal, overlay, pending, queue := 0, {}, None, map[], map[];
    }

    /** Bases the tracked nonces on the pending transactions. */
    method BaseNonces()
      requires Named(named, pending) && GapFree(named, state, pending.Keys) && overlay == Some(map[])
      modifies this`overlay
      ensures overlay.Some? && BackedAll(named, state, pending.Keys, overlay.value)
      ensures TightAll(named, state, pending.Keys, overlay.value)
    {
      hide NoncesFor, GapFree, Tracked, BackedAll, TightAll, Named;
      var todo := pending.Keys;
      ghost var seen: set<Hash> := {};
      NoncesNone(named, state);
      while todo != {}
        invariant todo + seen == pending.Keys && overlay.Some?
        invariant NoncesFor(named, state, seen, overlay.value)
        decreases |todo|
      {
        var hash :| hash in todo;
        var tx := pending[hash];
        NamedAt(named, pending, hash);
        NoncesStep(named, state, seen, overlay.value, hash);
        if Tracked(state, overlay.value, tx.from) <= tx.nonce {
          overlay := Some(overlay.value[tx.from := tx.nonce + 1]);
        }
        todo, seen := todo - {hash}, seen + {hash};
      }
      assert seen == pending.Keys;
      NoncesDone(named, state, pending.Keys, overlay.value);
    }

    /** Takes over a new head state, in which no account's nonce has gone back. */
    method ResetState(head: ChainState)
      requires Valid()
      requires forall a :: StateNonce(state, a) <= StateNonce(head, a)
      modifies this`state, this`pending, this`queue, this`overlay
      ensures Valid() && state == head && overlay.Some?
      ensures Conserved(named, state, old(pending.Keys), Hashes(old(queue)), pending.Keys, Hashes(queue))
      ensures Settled(named, state, Hashes(queue), overlay.value)
      ensures BehindGaps(named, state, pending.Keys, Hashes(queue))
      decreases 1, 0
    {
      hide GapFree, BackedAll, Hashes, Named, AllNamed, Filed, Settled, BehindGaps, CheckedAll, TightAll, Conserved,
        Live, Validated, Demoted;
      ValidatedGapFree(named, state, head, pending.Keys);
      state := head;
      overlay := Some(map[]);
      ValidatePool();
      BaseNonces();
      label based:
      CheckQueues();
      ghost var pending0, queued0, overlay0 := old@based(pending.Keys), Hashes(old@based(queue)),
        old@based(overlay.value);
      CheckKeepsGapFree(named, state, pending0, queued0, overlay0, pending.Keys, Hashes(queue), overlay.value);
      CheckSettles(named, state, pending0, queued0, overlay0, pending.Keys, Hashes(queue), overlay.value);
      TightGaps(named, state, pending0, queued0, overlay0, pending.Keys, Hashes(queue), overlay.value);
      CheckConserves(named, state, pending0, queued0, overlay0, pending.Keys, Hashes(queue), overlay.value);
      ResetConserves(named, state, old(pending.Keys), Hashes(old(queue)), pending0, queued0, pending.Keys,
                     Hashes(queue));
    }

    method CheckQueue()
      requires Valid()
      modifies this`state, this`pending, this`queue, this`overlay
      ensures Valid() && state == old(state) && overlay.Some?
      ensures old(overlay).Some? ==> CheckedAll(named, state, old(pending.Keys), Hashes(old(queue)), old(overlay.value),
                                                pending.Keys, Hashes(queue), overlay.value)
      ensures Conserved(named, state, old(pending.Keys), Hashes(old(queue)), pending.Keys, Hashes(queue))
      ensures Settled(named, state, Hashes(queue), overlay.value)
    {
      hide GapFree, BackedAll, Hashes, Named, AllNamed, Filed, Settled, BehindGaps, CheckedAll, Conserved;
      if overlay.None? {
        ResetState(state);
      }
      label reset:
      CheckQueues();
      ghost var pending0, queued0, overlay0 := old@reset(pending.Keys), Hashes(old@reset(queue)),
        old@reset(overlay.value);
      CheckKeepsGapFree(named, state, pending0, queued0, overlay0, pending.Keys, Hashes(queue), overlay.value);
      CheckSettles(named, state, pending0, queued0, overlay0, pending.Keys, Hashes(queue), overlay.value);
      CheckConserves(named, state, pending0, queued0, overlay0, pending.Keys, Hashes(queue), overlay.value);
      if old(overlay).None? {
        SettledStays(named, state, pending0, queued0, overlay0, pending.Keys, Hashes(queue), overlay.value);
        ConservedSame(named, state, old(pending.Keys), Hashes(old(queue)), pending0, queued0, pending.Keys,
                      Hashes(queue));
      }
    }

    /** The verdict on a new transaction: a pending hash is known, anything else is validated. */
    ghost function Verdict(tx: Tx): Option<PoolError>
      reads this
    {
      if tx.hash in pending then Some(Known) else ValidateTx(state, tx.hash in isLocal, minGasPrice, gasLimit, tx)
    }

    ghost function Accepted(txs: seq<Tx>): set<Tx>
      reads this
    {
      set tx | tx in txs && Verdict(tx).None?
    }

    /** Validates and queues, without promoting. */
    method Enqueue(tx: Tx) returns (e: Option<PoolError>)
      requires Valid() && tx == named(tx.hash)
      modifies this`queue
      ensures Valid() && e == old(Verdict(tx))
      ensures queue == if e.None? then Enqueued(old(queue), tx) else old(queue)
    {
      hide GapFree, BackedAll;
      if tx.hash in pending {
        return Some(Known);
      }
      e := ValidateTx(state, tx.hash in isLocal, minGasPrice, gasLimit, tx);
      if e.None? {
        EnqueuedHashes(named, queue, tx);
        QueueTx(tx);
      }
    }

    method Add(tx: Tx) returns (e: Option<PoolError>)
      requires Valid() && tx == named(tx.hash)
      modifies this`state, this`pending, this`queue, this`overlay
      ensures Valid() && state == old(state) && e == old(Verdict(tx))
      ensures e.Some? ==> pending == old(pending) && queue == old(queue) && overlay == old(overlay)
      ensures e.None? ==> Conserved(named, state, old(pending.Keys), Hashes(Enqueued(old(queue), tx)), pending.Keys,
                                    Hashes(queue))
      ensures e.None? ==> overlay.Some? && Settled(named, state, Hashes(queue), overlay.value)
      ensures e.None? && old(overlay).Some? ==>
                CheckedAll(named, state, old(pending.Keys), Hashes(Enqueued(old(queue), tx)), old(overlay.value),
                           pending.Keys, Hashes(queue), overlay.value)
    {
      hide Valid, Conserved, Settled, CheckedAll;
      e := Enqueue(tx);
      if e.None? {
        CheckQueue();
      }
    }

    method AddTransactions(txs: seq<Tx>)
      requires Valid() && forall tx :: tx in txs ==> tx == named(tx.hash)
      modifies this`state, this`pending, this`queue, this`overlay
      ensures Valid() && state == old(state) && overlay.Some? && Settled(named, state, Hashes(queue), overlay.value)
      ensures Conserved(named, state, old(pending.Keys),
                        Hashes(EnqueuedAll(old(queue), old(Accepted(txs)), txs)), pending.Keys, Hashes(queue))
    {
      hide Valid, Conserved, Settled;
      ghost var accepted := Accepted(txs);
      var i := 0;
      assert txs[..0] == [];
      while i < |txs|
        invariant i <= |txs| && Valid() && pending == old(pending) && state == old(state) && overlay == old(overlay)
        invariant forall tx :: Verdict(tx) == old(Verdict(tx))
        invariant queue == EnqueuedAll(old(queue), accepted, txs[..i])
      {
        assert txs[..i + 1] == txs[..i] + [txs[i]];
        var _ := Enqueue(txs[i]);
        i := i + 1;
      }
      assert txs[..i] == txs;
      CheckQueue();
    }

    /** All pending transactions, in any order. */
    method GetTransactions() returns (txs: seq<Tx>)
      requires Valid()
      modifies this`state, this`pending, this`queue, this`overlay
      ensures Valid() && state == old(state) && overlay.Some? && Settled(named, state, Hashes(queue), overlay.value)
      ensures Conserved(named, state, old(pending.Keys), Hashes(old(queue)), pending.Keys, Hashes(queue))
      ensures DistinctHashes(txs) && HashSet(txs) == pending.Keys && forall tx :: tx in txs ==> tx == named(tx.hash)
    {
      hide Conserved, Settled, DistinctHashes, HashSet, BackedAll, Filed;
      CheckQueue();
      label checked:
      ValidatePool();
      ValidatedAllLive(named, state, old@checked(pending.Keys));
      assert pending.Keys == old@checked(pending.Keys);
      ConservedSame(named, state, old(pending.Keys), Hashes(old(queue)), old@checked(pending.Keys),
                    Hashes(old@checked(queue)), pending.Keys, Hashes(queue));
      SettledSame(named, state, Hashes(old@checked(queue)), Hashes(queue), overlay.value);
      txs := ListPending();
    }

    method ListPending() returns (txs: seq<Tx>)
      requires Named(named, pending)
      ensures DistinctHashes(txs) && HashSet(txs) == pending.Keys && forall tx :: tx in txs ==> tx == named(tx.hash)
    {
      hide DistinctHashes, HashSet;
      txs := [];
      var todo := pending.Keys;
      NoneDistinct();
      while todo != {}
        invariant todo <= pending.Keys && HashSet(txs) == pending.Keys - todo
        invariant DistinctHashes(txs) && forall tx :: tx in txs ==> tx == named(tx.hash)
        decreases |todo|
      {
        var hash :| hash in todo;
        AppendDistinct(txs, pending[hash]);
        txs := txs + [pending[hash]];
        todo := todo - {hash};
      }
    }

    /** Takes a transaction out of whichever set holds it. This may open a nonce gap. */
    method RemoveTx(hash: Hash)
      requires Sound()
      modifies this`pending, this`queue
      ensures Sound()
      ensures pending == old(pending) - {hash}
      ensures forall a :: Hashes(queue)(a) == Hashes(old(queue))(a) - {hash}
    {
      hide Named, AllNamed, Filed, Hashes;
      PendingRemoved(named, pending, Hashes(queue), hash);
      pending := pending - {hash};
      var owner := FindOwner(hash);
      if owner.Some? {
        var address := owner.value;
        var txs: TxMap := queue[address];
        RemovedSound(named, old(pending.Keys), queue, address, hash, txs - {hash});
        if |txs| == 1 {
          queue := queue - {address};
        } else {
          queue := queue[address := txs - {hash}];
        }
      } else {
        NotQueued(queue, hash);
      }
    }

    /** The account whose queue holds the hash. */
    method FindOwner(hash: Hash) returns (owner: Option<Address>)
      ensures owner.Some? ==> owner.value in queue && hash in queue[owner.value]
      ensures owner.None? ==> forall a :: a in queue ==> hash !in queue[a]
    {
      var todo := queue.Keys;
      while todo != {}
        invariant todo <= queue.Keys
        invariant forall a :: a in queue && a !in todo ==> hash !in queue[a]
        decreases |todo|
      {
        var address :| address in todo;
        todo := todo - {address};
        if hash in queue[address] {
          return Some(address);
        }
      }
      owner := None;
    }
  }

  lemma PendingRemoved(named: Naming, pending: TxMap, queued: Queued, hash: Hash)
    requires Named(named, pending) && Filed(named, pending.Keys, queued)
    ensures (pending - {hash}).Keys == pending.Keys - {hash}
    ensures Named(named, pending - {hash}) && Filed(named, pending.Keys - {hash}, queued)
  {
  }

  lemma NotQueued(queue: Queue, hash: Hash)
    requires forall a :: a in queue ==> hash !in queue[a]
    ensures forall a :: Hashes(queue)(a) == Hashes(queue)(a) - {hash}
  {
  }

  lemma RemovedSound(named: Naming, pending: set<Hash>, queue: Queue, address: Address, hash: Hash, rest: TxMap)
    requires AllNamed(named, queue) && Filed(named, pending, Hashes(queue)) && address in queue
    requires hash in queue[address]
    requires rest == queue[address] - {hash}
    ensures rest.Keys == queue[address].Keys - {hash} && |rest| == |queue[address]| - 1
    ensures AllNamed(named, Refiled(queue, address, rest))
    ensures Filed(named, pending - {hash}, Hashes(Refiled(queue, address, rest)))
    ensures forall a :: Hashes(Refiled(queue, address, rest))(a) == Hashes(queue)(a) - {hash}
  {
    hide Refiled;
    FiledAt(named, pending, queue, address);
    assert rest.Keys == queue[address].Keys - {hash};
    RefiledNamed(named, queue, address, rest);
    RefiledFiled(named, pending, queue, address, pending - {hash}, rest);
    forall a
      ensures Hashes(Refiled(queue, address, rest))(a) == Hashes(queue)(a) - {hash}
    {
      if a != address {
        assert hash in Hashes(queue)(address);
        assert hash !in Hashes(queue)(a);
      }
    }
  }

  /** The accepted transactions of a list queued one after the other. */
  ghost function EnqueuedAll(queue: Queue, accepted: set<Tx>, txs: seq<Tx>): Queue {
    if txs == [] then queue else
      var tx := txs[|txs| - 1];
      var before := EnqueuedAll(queue, accepted, txs[..|txs| - 1]);
      if tx in accepted then Enqueued(before, tx) else before
  }

  /** What a batch adds to the queues: the hashes of its accepted transactions, each to its sender's. */
  lemma {:induction false} EnqueuedAllHashes(named: Naming, queue: Queue, accepted: set<Tx>, txs: seq<Tx>, a: Address)
    requires AllNamed(named, queue) && forall tx <- txs :: tx == named(tx.hash)
    ensures AllNamed(named, EnqueuedAll(queue, accepted, txs))
    ensures forall h :: h in Hashes(EnqueuedAll(queue, accepted, txs))(a) <==>
      h in Hashes(queue)(a) || exists k :: 0 <= k < |txs| && txs[k] in accepted && txs[k].from == a && txs[k].hash == h
  {
    if txs != [] {
      var n := |txs| - 1;
      EnqueuedAllHashes(named, queue, accepted, txs[..n], a);
      hide AllNamed, Hashes;
      var before := EnqueuedAll(queue, accepted, txs[..n]);
      EnqueuedHashes(named, before, txs[n]);
      assert forall k :: 0 <= k < n ==> txs[..n][k] == txs[k];
    }
  }

  lemma SettledSame(named: Naming, state: ChainState, queued: Queued, queued': Queued, overlay: map<Address, nat>)
    requires Settled(named, state, queued, overlay) && forall a :: queued'(a) == queued(a)
    ensures Settled(named, state, queued', overlay)
  {
    hide Live, Tracked;
  }


  ghost predicate TightAll(named: Naming, state: ChainState, pending: set<Hash>, overlay: map<Address, nat>) {
    forall a :: StateNonce(state, a) <= Tracked(state, overlay, a)
      && Tight(named, pending, a, Tracked(state, overlay, a))
  }

  lemma TightGaps(named: Naming, state: ChainState, pending: set<Hash>, queued: Queued, overlay: map<Address, nat>,
                  pending': set<Hash>, queued': Queued, overlay': map<Address, nat>)
    requires Filed(named, pending, queued) && TightAll(named, state, pending, overlay)
    requires CheckedAll(named, state, pending, queued, overlay, pending', queued', overlay')
    ensures BehindGaps(named, state, pending', queued')
  {
    hide Filed, CheckedAll, BehindGaps;
    CheckLeavesGaps(named, state, pending, queued, overlay, pending', queued', overlay');
  }

  lemma ConservedSame(named: Naming, state: ChainState, pending: set<Hash>, queued: Queued,
                      pending0: set<Hash>, queued0: Queued, pending': set<Hash>, queued': Queued)
    requires Conserved(named, state, pending, queued, pending0, queued0)
    requires pending' == pending0 && forall a :: queued'(a) == queued0(a)
    ensures Conserved(named, state, pending, queued, pending', queued')
  {
    hide Live;
  }

  /** Validating and then checking loses only what the new state cannot take or the limit crowds out. */
  lemma ResetConserves(named: Naming, state: ChainState, pending: set<Hash>, queued: Queued,
                       pending0: set<Hash>, queued0: Queued, pending': set<Hash>, queued': Queued)
    requires pending0 == Validated(named, state, pending)
    requires forall a :: queued0(a) == queued(a) + Demoted(named, state, pending, a)
    requires Conserved(named, state, pending0, queued0, pending', queued')
    ensures Conserved(named, state, pending, queued, pending', queued')
  {
    hide Live, Postponed, Crowded;
    forall h
      ensures Held(named, pending, queued, h) ==> Held(named, pending0, queued0, h) || !Live(state, named(h))
      ensures Held(named, pending0, queued0, h) ==> Held(named, pending, queued, h)
    {
    }
  }

  /** Tracked nonces based on the transactions seen. */
  ghost predicate NoncesFor(named: Naming, state: ChainState, seen: set<Hash>, overlay: map<Address, nat>) {
    && (forall a :: a in overlay ==> overlay[a] >= StateNonce(state, a)
                                     && exists h :: h in seen && named(h).from == a && named(h).nonce + 1 == overlay[a])
    && forall h :: h in seen ==> named(h).nonce < Tracked(state, overlay, named(h).from)
  }

  lemma NamedAt(named: Naming, txs: TxMap, h: Hash)
    requires Named(named, txs) && h in txs
    ensures txs[h] == named(h)
  {
  }

  lemma NoncesNone(named: Naming, state: ChainState)
    ensures NoncesFor(named, state, {}, map[])
  {
  }

  lemma NoncesStep(named: Naming, state: ChainState, seen: set<Hash>, overlay: map<Address, nat>, h: Hash)
    requires NoncesFor(named, state, seen, overlay)
    ensures var a := named(h).from;
            NoncesFor(named, state, seen + {h},
                      if Tracked(state, overlay, a) <= named(h).nonce then overlay[a := named(h).nonce + 1]
                      else overlay)
  {
    hide StateNonce;
    assert h in seen + {h};
    forall a | a in overlay
      ensures exists u :: u in seen + {h} && named(u).from == a && named(u).nonce + 1 == overlay[a]
    {
      var u :| u in seen && named(u).from == a && named(u).nonce + 1 == overlay[a];
      assert u in seen + {h};
    }
  }

  lemma NoncesDone(named: Naming, state: ChainState, pending: set<Hash>, overlay: map<Address, nat>)
    requires GapFree(named, state, pending) && NoncesFor(named, state, pending, overlay)
    ensures BackedAll(named, state, pending, overlay) && TightAll(named, state, pending, overlay)
  {
    forall a, n: nat | StateNonce(state, a) <= n < Tracked(state, overlay, a)
      ensures Covered(named, pending, a, n)
    {
      var h :| h in pending && named(h).from == a && named(h).nonce + 1 == overlay[a];
    }
  }

  predicate PastGap(gaps: map<Address, nat>, tx: Tx) {
    tx.from in gaps && tx.nonce >= gaps[tx.from]
  }

  /** Of the hashes done, those past a gap are queued and the others left. */
  ghost predicate Demoting(named: Naming, gaps: map<Address, nat>, live: set<Hash>, todo: set<Hash>, before: Queue,
                           pending: TxMap, queue: Queue) {
    && Named(named, pending) && AllNamed(named, queue)
    && pending.Keys == (set h | h in live && (h in todo || !PastGap(gaps, named(h))))
    && forall a :: Hashes(queue)(a) ==
         Hashes(before)(a) + (set h | h in live && h !in todo && named(h).from == a && PastGap(gaps, named(h)))
  }

  lemma DemotingStarts(named: Naming, gaps: map<Address, nat>, pending: TxMap, queue: Queue)
    requires Named(named, pending) && AllNamed(named, queue)
    ensures Demoting(named, gaps, pending.Keys, pending.Keys, queue, pending, queue)
  {
  }

  lemma DemotingStep(named: Naming, gaps: map<Address, nat>, live: set<Hash>, todo: set<Hash>, before: Queue,
                     pending: TxMap, queue: Queue, h: Hash)
    requires Demoting(named, gaps, live, todo, before, pending, queue) && h in todo && todo <= live
    ensures h in pending && pending[h] == named(h) && named(h).hash == h && AllNamed(named, queue)
    ensures PastGap(gaps, named(h)) <==> named(h).from in gaps && named(h).nonce >= gaps[named(h).from]
    ensures PastGap(gaps, named(h)) ==>
              Demoting(named, gaps, live, todo - {h}, before, pending - {h}, Enqueued(queue, named(h)))
    ensures !PastGap(gaps, named(h)) ==> Demoting(named, gaps, live, todo - {h}, before, pending, queue)
  {
    hide Hashes, AllNamed, Enqueued;
    EnqueuedHashes(named, queue, named(h));
  }

  /** Past a noted gap means past an unfunded transaction. */
  lemma DemotingDone(named: Naming, state: ChainState, gaps: map<Address, nat>, all: set<Hash>, before: Queue,
                     pending: TxMap, queue: Queue)
    requires GapsFor(named, state, all, gaps) && Filed(named, all, Hashes(before))
    requires Demoting(named, gaps, LiveOf(named, state, all), {}, before, pending, queue)
    ensures Named(named, pending) && AllNamed(named, queue) && Filed(named, pending.Keys, Hashes(queue))
    ensures pending.Keys == Validated(named, state, all)
    ensures forall a :: Hashes(queue)(a) == Hashes(before)(a) + Demoted(named, state, all, a)
  {
    hide Hashes, GapsFor, Live, Postponed;
    forall h
      ensures PastGap(gaps, named(h)) <==> Postponed(named, state, all, h)
    {
      GapsSay(named, state, all, gaps, h);
    }
  }


  /** Of the hashes seen the live ones are left, of those to do all. */
  ghost predicate Sifted(named: Naming, state: ChainState, seen: set<Hash>, todo: set<Hash>, pending: TxMap) {
    Named(named, pending) && todo !! seen && pending.Keys == todo + LiveOf(named, state, seen)
  }

  lemma SiftStarts(named: Naming, state: ChainState, pending: TxMap)
    requires Named(named, pending)
    ensures Sifted(named, state, {}, pending.Keys, pending)
  {
    assert LiveOf(named, state, {}) == {};
  }

  lemma SiftStep(named: Naming, state: ChainState, seen: set<Hash>, todo: set<Hash>, pending: TxMap, h: Hash)
    requires Sifted(named, state, seen, todo, pending) && h in todo
    ensures h in pending && pending[h] == named(h)
    ensures Sifted(named, state, seen + {h}, todo - {h}, if Live(state, named(h)) then pending else pending - {h})
  {
    hide Live;
    var live := LiveOf(named, state, seen);
    assert LiveOf(named, state, seen + {h}) == if Live(state, named(h)) then live + {h} else live;
  }

  lemma SiftDone(named: Naming, state: ChainState, seen: set<Hash>, pending: TxMap)
    requires Sifted(named, state, seen, {}, pending)
    ensures Named(named, pending) && pending.Keys == LiveOf(named, state, seen)
  {
  }

  lemma GapsNone(named: Naming, state: ChainState)
    ensures GapsFor(named, state, {}, map[])
  {
  }


  /** The first `i` of the sorted list are promoted: pending grew by them, the overlay holds the last one's next
      nonce. */
  ghost predicate RunSoFar(named: Naming, promote: seq<Tx>, address: Address, before: TxMap, base: map<Address, nat>,
                           txs: TxMap, i: nat, pending: TxMap, overlay: map<Address, nat>, rest: TxMap)
    requires i <= |promote|
  {
    && Named(named, pending) && pending.Keys == before.Keys + HashSet(promote[..i])
    && overlay == (if i == 0 then base else base[address := promote[i - 1].nonce + 1])
    && rest == txs - HashSet(promote[..i])
  }

  lemma RunStarts(named: Naming, promote: seq<Tx>, address: Address, before: TxMap, base: map<Address, nat>, txs: TxMap,
                  first: nat)
    requires Named(named, before)
    ensures RunSoFar(named, promote, address, before, base, txs, 0, before, base, txs)
    ensures GuessSoFar(named, promote, first, 0, first)
  {
    assert promote[..0] == [];
    assert HashSet([]) == {};
  }

  lemma RunStep(named: Naming, promote: seq<Tx>, address: Address, before: TxMap, base: map<Address, nat>, txs: TxMap,
                i: nat, pending: TxMap, overlay: map<Address, nat>, rest: TxMap)
    requires DistinctHashes(promote) && i < |promote| && promote[i] == named(promote[i].hash)
    requires promote[i].hash !in before
    requires RunSoFar(named, promote, address, before, base, txs, i, pending, overlay, rest)
    ensures promote[i].hash !in pending
    ensures RunSoFar(named, promote, address, before, base, txs, i + 1, pending[promote[i].hash := promote[i]],
                     overlay[address := promote[i].nonce + 1], rest - {promote[i].hash})
  {
    hide HashSet, DistinctHashes;
    HashSetNext(promote, i);
    DropNext(txs, HashSet(promote[..i]), promote[i].hash);
    SetTwice(base, address, if i == 0 then 0 else promote[i - 1].nonce + 1, promote[i].nonce + 1);
  }

  /** The guess has passed the first `i`, and every nonce it passed over is in the list. */
  ghost predicate GuessSoFar(named: Naming, promote: seq<Tx>, first: nat, i: nat, guessed: nat)
    requires i <= |promote|
  {
    && first <= guessed
    && (forall n: nat :: first <= n < guessed ==> HasNonce(named, HashSet(promote), n))
    && forall j :: 0 <= j < i ==> promote[j].nonce < guessed
  }

  lemma GuessStep(named: Naming, promote: seq<Tx>, first: nat, i: nat, guessed: nat)
    requires i < |promote| && promote[i].nonce <= guessed && forall t :: t in promote ==> t == named(t.hash)
    requires GuessSoFar(named, promote, first, i, guessed)
    ensures GuessSoFar(named, promote, first, i + 1, if promote[i].nonce == guessed then guessed + 1 else guessed)
  {
    HasNonceAt(named, promote, i);
  }

  lemma SetTwice(m: map<Address, nat>, a: Address, first: nat, next: nat)
    ensures m[a := first][a := next] == m[a := next]
  {
  }

  lemma DropNext(m: TxMap, hashes: set<Hash>, h: Hash)
    ensures m - hashes - {h} == m - (hashes + {h})
  {
  }

  lemma HashSetNext(txs: seq<Tx>, i: nat)
    requires DistinctHashes(txs) && i < |txs|
    ensures txs[i].hash !in HashSet(txs[..i]) && HashSet(txs[..i + 1]) == HashSet(txs[..i]) + {txs[i].hash}
  {
    assert txs[..i + 1] == txs[..i] + [txs[i]];
    AppendDistinct(txs[..i], txs[i]);
  }
}
