/** The full-block chain (core/blockchain.go): WriteBlock, insert, reorg and the per-block part of InsertChain,
    with the number index, the transaction and receipt lookups and the head markers they rewrite in place. */
module BlockChain {
  import opened Types
  import opened Ancestry
  import opened ForkChoice
  import opened TxIndex

  function HeadersOf(blocks: BlockDb): HeaderDb {
    map h | h in blocks :: blocks[h].header
  }

  /** The blocks a reorganisation abandons and adopts, both listed from the top down. */
  datatype SplitResult =
    | Split(common: Block, oldChain: seq<Block>, newChain: seq<Block>)
    | InvalidOldChain
    | InvalidNewChain

  /** What becomes of one imported block. `Queued` blocks wait in the set of future blocks. */
  datatype InsertResult =
    | KnownBlock | Queued | Inserted(status: WriteStatus)
    | BadSeal | ParentMissing | FarFuture | Rejected | BadNumber

  /** `chain` is the part of `path` above number `n`, from the top down. */
  ghost predicate Descends(blocks: BlockDb, chain: seq<Block>, path: seq<Hash>, n: nat) {
    && |chain| + n + 1 == |path|
    && forall i :: 0 <= i < |chain| ==>
      path[|path| - 1 - i] in blocks && chain[i] == blocks[path[|path| - 1 - i]]
  }

  /** The split point is the highest block on both paths. */
  ghost predicate IsSplit(blocks: BlockDb, oldPath: seq<Hash>, newPath: seq<Hash>, r: SplitResult) {
    && r.Split?
    && var n := r.common.header.number;
    && Descends(blocks, r.oldChain, oldPath, n)
    && Descends(blocks, r.newChain, newPath, n)
    && oldPath[n] == newPath[n] == r.common.header.hash
    && (n + 1 < |oldPath| && n + 1 < |newPath| ==> oldPath[n + 1] != newPath[n + 1])
  }

  ghost predicate BlocksChained(blocks: BlockDb, path: seq<Hash>) {
    && (forall i :: 0 <= i < |path| ==> path[i] in blocks && blocks[path[i]].header.number == i
                                        && blocks[path[i]].header.hash == path[i])
    && (forall i, j :: 0 <= i < j < |path| && j == i + 1 ==> blocks[path[j]].header.parentHash == path[i])
  }

  lemma BlocksMerge(blocks: BlockDb, a: seq<Hash>, b: seq<Hash>, n: nat)
    requires BlocksChained(blocks, a) && BlocksChained(blocks, b)
    requires n < |a| && n < |b| && a[n] == b[n]
    ensures forall i :: 0 <= i <= n ==> a[i] == b[i]
  {
    ChainedMerge(HeadersOf(blocks), a, b, n);
  }

  function GetBlock(blocks: BlockDb, h: Hash): Option<Block> {
    if h in blocks then Some(blocks[h]) else None
  }

  /** The database with the incoming block added, which the walks see as `blocks` plus their own start. */
  ghost predicate Walkable(blocks: BlockDb, all: BlockDb, path: seq<Hash>) {
    && BlocksChained(all, path)
    && (forall i :: 0 <= i < |path| - 1 ==> path[i] in blocks && blocks[path[i]] == all[path[i]])
  }

  /** First phase of reorg for one side: collects blocks from `start` down to, and stops at, `number`. */
  method WalkDown(blocks: BlockDb, start: Block, number: nat, ghost all: BlockDb, ghost path: seq<Hash>)
    returns (block: Option<Block>, chain: seq<Block>)
    requires Walkable(blocks, all, path) && path != [] && start == all[path[|path| - 1]]
    requires number <= start.header.number
    ensures number < |path| && block == Some(all[path[number]])
    ensures Descends(all, chain, path, number)
  {
    block, chain := Some(start), [];
    while block.Some? && block.value.header.number != number
      invariant block.Some? && number <= block.value.header.number < |path|
      invariant block.value == all[path[block.value.header.number]]
      invariant Descends(all, chain, path, block.value.header.number)
      decreases block.value.header.number
    {
      chain := chain + [block.value];
      assert path[block.value.header.number - 1] in blocks;
      block := GetBlock(blocks, block.value.header.parentHash);
    }
  }

  /** The two-phase walk of reorg. `blocks` is the stored database; the new block itself need not be in it yet. */
  method SplitChains(blocks: BlockDb, oldStart: Block, newStart: Block,
                     ghost all: BlockDb, ghost oldPath: seq<Hash>, ghost newPath: seq<Hash>)
    returns (r: SplitResult)
    requires Walkable(blocks, all, oldPath) && Walkable(blocks, all, newPath)
    requires oldPath != [] && newPath != [] && oldPath[0] == newPath[0]
    requires oldStart == all[oldPath[|oldPath| - 1]] && newStart == all[newPath[|newPath| - 1]]
    ensures IsSplit(all, oldPath, newPath, r)
  {
    var oldChain: seq<Block>, newChain: seq<Block> := [], [];
    var oldBlock, newBlock := Some(oldStart), Some(newStart);

    if oldStart.header.number > newStart.header.number {
      oldBlock, oldChain := WalkDown(blocks, oldStart, newStart.header.number, all, oldPath);
    } else {
      newBlock, newChain := WalkDown(blocks, newStart, oldStart.header.number, all, newPath);
    }
    if oldBlock.None? {
      return InvalidOldChain;
    }
    if newBlock.None? {
      return InvalidNewChain;
    }

    while oldBlock.value.header.hash != newBlock.value.header.hash
      invariant oldBlock.Some? && newBlock.Some?
      invariant oldBlock.value.header.number == newBlock.value.header.number
      invariant oldBlock.value.header.number < |oldPath| && oldBlock.value.header.number < |newPath|
      invariant oldBlock.value == all[oldPath[oldBlock.value.header.number]]
      invariant newBlock.value == all[newPath[newBlock.value.header.number]]
      invariant Descends(all, oldChain, oldPath, oldBlock.value.header.number)
      invariant Descends(all, newChain, newPath, newBlock.value.header.number)
      invariant var n := oldBlock.value.header.number;
        n + 1 < |oldPath| && n + 1 < |newPath| ==> oldPath[n + 1] != newPath[n + 1]
      decreases oldBlock.value.header.number
    {
      oldChain := oldChain + [oldBlock.value];
      newChain := newChain + [newBlock.value];
      assert oldBlock.value.header.number > 0;
      assert oldPath[oldBlock.value.header.number - 1] in blocks;
      assert newPath[newBlock.value.header.number - 1] in blocks;
      oldBlock, newBlock :=
        GetBlock(blocks, oldBlock.value.header.parentHash), GetBlock(blocks, newBlock.value.header.parentHash);
      if oldBlock.None? {
        return InvalidOldChain;
      }
      if newBlock.None? {
        return InvalidNewChain;
      }
    }
    r := Split(oldBlock.value, oldChain, newChain);
  }

  /** The head markers and the number index that `insert` updates. */
  datatype Heads = Heads(canon: map<nat, Hash>, block: Hash, header: Hash, fast: Hash)

  function Insert(h: Heads, b: Block): Heads {
    var updateHeads := GetCanonicalHash(h.canon, b.header.number) != b.header.hash;
    Heads(h.canon[b.header.number := b.header.hash],
          b.header.hash,
          if updateHeads then b.header.hash else h.header,
          if updateHeads then b.header.hash else h.fast)
  }

  function InsertAll(h: Heads, bs: seq<Block>): Heads {
    if bs == [] then h else Insert(InsertAll(h, bs[..|bs| - 1]), bs[|bs| - 1])
  }

  ghost predicate OnIndex(canon: map<nat, Hash>, path: seq<Hash>) {
    forall n :: 0 <= n < |path| ==> n in canon && canon[n] == path[n]
  }

  /** Inserting the first `k` blocks of a descending chain assigns exactly their numbers. */
  lemma {:induction false} InsertAllIndex(h: Heads, all: BlockDb, chain: seq<Block>, path: seq<Hash>, n: nat, k: nat)
    requires BlocksChained(all, path) && Descends(all, chain, path, n) && k <= |chain|
    ensures var canon := InsertAll(h, chain[..k]).canon;
      && (forall i :: |path| - k <= i < |path| ==> i in canon && canon[i] == path[i])
      && (forall i :: 0 <= i < |path| - k ==> (i in canon <==> i in h.canon))
      && (forall i :: 0 <= i < |path| - k && i in h.canon ==> canon[i] == h.canon[i])
  {
    hide InsertAll, Insert;
    if k == 0 {
      assert chain[..0] == [];
      InsertAllNone(h);
    } else {
      InsertAllIndex(h, all, chain, path, n, k - 1);
      InsertAllStep(h, chain, k);
      InsertCanon(InsertAll(h, chain[..k - 1]), chain[k - 1]);
      var at := |path| - k;
      assert chain[k - 1] == all[path[at]];
    }
  }

  lemma SplitIndex(h: Heads, all: BlockDb, oldPath: seq<Hash>, newPath: seq<Hash>, r: SplitResult)
    requires BlocksChained(all, newPath) && BlocksChained(all, oldPath)
    requires IsSplit(all, oldPath, newPath, r) && OnIndex(h.canon, oldPath)
    ensures OnIndex(InsertAll(h, r.newChain).canon, newPath)
  {
    var n := r.common.header.number;
    InsertAllIndex(h, all, r.newChain, newPath, n, |r.newChain|);
    assert r.newChain[..|r.newChain|] == r.newChain;
    BlocksMerge(all, oldPath, newPath, n);
  }

  predicate Assigned(canon: map<nat, Hash>, b: Block) {
    GetCanonicalHash(canon, b.header.number) == b.header.hash
  }

  /** Which header ends up as head header after the top-down insertion of the first `k` blocks. */
  lemma {:induction false} HeaderHeadDuring(h: Heads, all: BlockDb, chain: seq<Block>, path: seq<Hash>, n: nat, k: nat)
    requires BlocksChained(all, path) && Descends(all, chain, path, n) && 0 < k <= |chain|
    ensures InsertAll(h, chain[..k]).header == chain[0].header.hash <==>
      && (!Assigned(h.canon, chain[0]) || h.header == chain[0].header.hash)
      && (forall i :: 0 < i < k ==> Assigned(h.canon, chain[i]))
  {
    hide InsertAll, Insert, Assigned;
    InsertAllStep(h, chain, k);
    if k == 1 {
      InsertAllNone(h);
      assert chain[..0] == [];
      InsertHeader(h, chain[0]);
    } else {
      HeaderHeadDuring(h, all, chain, path, n, k - 1);
      var before := InsertAll(h, chain[..k - 1]);
      InsertHeader(before, chain[k - 1]);
      AssignedStill(h, all, chain, path, n, k - 1);
      assert chain[k - 1].header.hash != chain[0].header.hash by {
        assert all[path[|path| - k]].header.number != all[path[|path| - 1]].header.number;
      }
    }
  }

  lemma InsertAllNone(h: Heads)
    ensures InsertAll(h, []) == h
  {
  }

  lemma InsertAllStep(h: Heads, chain: seq<Block>, k: nat)
    requires 0 < k <= |chain|
    ensures InsertAll(h, chain[..k]) == Insert(InsertAll(h, chain[..k - 1]), chain[k - 1])
  {
    assert chain[..k][..k - 1] == chain[..k - 1];
  }

  lemma InsertHeader(h: Heads, b: Block)
    ensures Insert(h, b).header == if Assigned(h.canon, b) then h.header else b.header.hash
  {
  }

  /** A block that has not been inserted yet is assigned its number exactly when it was before. */
  lemma AssignedStill(h: Heads, all: BlockDb, chain: seq<Block>, path: seq<Hash>, n: nat, k: nat)
    requires BlocksChained(all, path) && Descends(all, chain, path, n) && k < |chain|
    ensures Assigned(InsertAll(h, chain[..k]).canon, chain[k]) <==> Assigned(h.canon, chain[k])
  {
    hide InsertAll;
    InsertAllIndex(h, all, chain, path, n, k);
    assert chain[k].header.number == |path| - 1 - k;
  }

  /** `insert` promises to move the head header along with the head block. After a reorganisation it has done so
      exactly when every adopted block below the new head already held its number. */
  lemma HeaderHeadIff(h: Heads, all: BlockDb, chain: seq<Block>, path: seq<Hash>, n: nat)
    requires BlocksChained(all, path) && Descends(all, chain, path, n) && chain != []
    ensures Insert(InsertAll(h, chain), chain[0]).header == chain[0].header.hash <==>
      && (!Assigned(h.canon, chain[0]) || h.header == chain[0].header.hash)
      && (forall i :: 0 < i < |chain| ==> Assigned(h.canon, chain[i]))
  {
    HeaderHeadDuring(h, all, chain, path, n, |chain|);
    InsertAllIndex(h, all, chain, path, n, |chain|);
    assert chain[..|chain|] == chain;
  }

  /** So whenever blocks are both abandoned and adopted, the head header is left at the lowest adopted block,
      and is the head block's only if a single block was adopted. */
  lemma HeaderHeadAfterReorg(h: Heads, all: BlockDb, oldPath: seq<Hash>, newPath: seq<Hash>, r: SplitResult)
    requires BlocksChained(all, newPath) && BlocksChained(all, oldPath) && ZERO_HASH !in all
    requires IsSplit(all, oldPath, newPath, r) && OnIndex(h.canon, oldPath)
    requires r.oldChain != [] && r.newChain != []
    ensures var after := Insert(InsertAll(h, r.newChain), r.newChain[0]);
      && after.header == newPath[r.common.header.number + 1]
      && after.block == r.newChain[0].header.hash
      && (after.header == after.block <==> |r.newChain| == 1)
  {
    hide InsertAll, Insert, Assigned;
    var n, k, chain := r.common.header.number, |r.newChain|, r.newChain;
    var lowest, before := chain[k - 1], InsertAll(h, chain[..k - 1]);
    assert chain[..k] == chain && lowest == all[newPath[n + 1]] && chain[0] == all[newPath[|newPath| - 1]];
    InsertAllStep(h, chain, k);
    AssignedStill(h, all, chain, newPath, n, k - 1);
    NotAssigned(h, all, oldPath, newPath, n);
    InsertHeader(before, lowest);
    InsertAllIndex(h, all, chain, newPath, n, k);
    AssignedByIndex(InsertAll(h, chain).canon, chain[0], newPath, |newPath| - 1);
    InsertHeader(InsertAll(h, chain), chain[0]);
    InsertBlockHead(InsertAll(h, chain), chain[0]);
    if k > 1 {
      assert all[newPath[n + 1]].header.number != all[newPath[|newPath| - 1]].header.number;
    }
  }

  lemma NotAssigned(h: Heads, all: BlockDb, oldPath: seq<Hash>, newPath: seq<Hash>, n: nat)
    requires BlocksChained(all, newPath) && OnIndex(h.canon, oldPath)
    requires n + 1 < |oldPath| && n + 1 < |newPath| && oldPath[n + 1] != newPath[n + 1]
    ensures !Assigned(h.canon, all[newPath[n + 1]])
  {
    assert h.canon[n + 1] == oldPath[n + 1];
  }

  lemma AssignedByIndex(canon: map<nat, Hash>, b: Block, path: seq<Hash>, i: nat)
    requires i < |path| && i in canon && canon[i] == path[i] == b.header.hash && b.header.number == i
    ensures Assigned(canon, b)
  {
  }

  lemma InsertBlockHead(h: Heads, b: Block)
    ensures Insert(h, b).block == b.header.hash
  {
  }

  /** How adopting a block moves the heads: straight on from its parent, or over a reorganisation. */
  ghost predicate HeadsMoved(all: BlockDb, oldPath: seq<Hash>, newPath: seq<Hash>, before: Heads, after: Heads,
                             block: Block, split: Option<SplitResult>) {
    match split
    case None => newPath == oldPath + [block.header.hash] && after == Insert(before, block)
    case Some(r) => IsSplit(all, oldPath, newPath, r) && after == Insert(InsertAll(before, r.newChain), block)
  }

  /** A reorganisation that abandons blocks leaves the head header at the lowest adopted one. */
  ghost predicate HeaderLags(newPath: seq<Hash>, after: Heads, r: SplitResult) {
    r.Split? && r.oldChain != [] && r.newChain != [] ==>
      && r.common.header.number + 1 < |newPath| && after.header == newPath[r.common.header.number + 1]
      && (after.header == after.block <==> |r.newChain| == 1)
  }

  lemma MovedHeaderLags(all: BlockDb, oldPath: seq<Hash>, newPath: seq<Hash>, before: Heads, after: Heads, block: Block,
                        r: SplitResult)
    requires BlocksChained(all, newPath) && BlocksChained(all, oldPath) && ZERO_HASH !in all
    requires OnIndex(before.canon, oldPath) && newPath != [] && newPath[|newPath| - 1] in all
    requires block == all[newPath[|newPath| - 1]] && HeadsMoved(all, oldPath, newPath, before, after, block, Some(r))
    ensures HeaderLags(newPath, after, r)
  {
    hide Insert, InsertAll, OnIndex;
    if r.oldChain != [] && r.newChain != [] {
      assert r.newChain[0] == block;
      HeaderHeadAfterReorg(before, all, oldPath, newPath, r);
    }
  }

  lemma LastOf(all: BlockDb, path: seq<Hash>)
    requires BlocksChained(all, path) && path != []
    ensures var last := |path| - 1;
      path[last] in all && all[path[last]].header.hash == path[last] && all[path[last]].header.number == last
  {
  }

  lemma InsertLast(all: BlockDb, path: seq<Hash>, canon: map<nat, Hash>)
    requires OnIndex(canon, path) && path != []
    ensures OnIndex(canon[|path| - 1 := path[|path| - 1]], path)
  {
  }

  lemma InsertNext(canon: map<nat, Hash>, oldPath: seq<Hash>, newPath: seq<Hash>)
    requires OnIndex(canon, oldPath) && |newPath| > 1 && newPath[..|newPath| - 1] == oldPath
    ensures OnIndex(canon[|newPath| - 1 := newPath[|newPath| - 1]], newPath)
  {
    assert forall n :: 0 <= n < |newPath| - 1 ==> newPath[n] == oldPath[n];
  }

  lemma InsertCanon(h: Heads, b: Block)
    ensures Insert(h, b).canon == h.canon[b.header.number := b.header.hash]
  {
  }

  /** A block on top of the head has the head's ancestry below it. */
  lemma OnTopOfHead(all: BlockDb, oldPath: seq<Hash>, newPath: seq<Hash>)
    requires BlocksChained(all, oldPath) && BlocksChained(all, newPath) && oldPath != [] && |newPath| > 1
    requires all[newPath[|newPath| - 1]].header.parentHash == all[oldPath[|oldPath| - 1]].header.hash
    ensures newPath == oldPath + [newPath[|newPath| - 1]] && newPath[..|newPath| - 1] == oldPath
  {
    var i, j := |oldPath| - 1, |newPath| - 2;
    assert all[newPath[j + 1]].header.parentHash == newPath[j];
    assert oldPath[i] == newPath[j];
    assert all[oldPath[i]].header.number == i && all[newPath[j]].header.number == j;
    assert i == j;
    BlocksMerge(all, oldPath, newPath, j);
  }

  /** The head header can be left behind: two blocks replace one, and it stays at the lower of the two. */
  lemma HeaderHeadLags(g: Hash, a1: Hash, b1: Block, b2: Block)
    requires b1.header.number == 1 && b2.header.number == 2 && b1.header.hash != a1
    requires b1.header.hash != b2.header.hash && b1.header.hash != ZERO_HASH && b2.header.hash != ZERO_HASH
    ensures var after := Insert(InsertAll(Heads(map[0 := g, 1 := a1], a1, a1, a1), [b2, b1]), b2);
      after.block == b2.header.hash && after.header == b1.header.hash != after.block
  {
    var h := Heads(map[0 := g, 1 := a1], a1, a1, a1);
    assert [b2, b1][..1] == [b2] && [b2][..0] == [];
    assert InsertAll(h, [b2]) == Insert(h, b2);
    assert InsertAll(h, [b2, b1]) == Insert(Insert(h, b2), b1);
  }

  function ReceiptsOf(blockReceipts: map<Hash, seq<Receipt>>, h: Hash): seq<Receipt> {
    if h in blockReceipts then blockReceipts[h] else []
  }

  ghost function TxRowsOf(all: BlockDb): map<Hash, Rows<TxPos>> {
    map h | h in all :: TxRows(all[h])
  }

  ghost function ReceiptRowsOf(all: BlockDb, blockReceipts: map<Hash, seq<Receipt>>): map<Hash, Rows<Receipt>> {
    map h | h in all :: ReceiptRows(ReceiptsOf(blockReceipts, h))
  }

  /** A stored block has distinct transactions, matching receipts and shares no transaction with an ancestor. */
  ghost predicate TxsSound(all: BlockDb, blockReceipts: map<Hash, seq<Receipt>>, genesis: Hash, h: Hash)
    requires Linked(HeadersOf(all), genesis) && h in all
  {
    && NoDuplicates(all[h].txs)
    && ReceiptsMatch(all[h], ReceiptsOf(blockReceipts, h))
    && Spread(all, Path(HeadersOf(all), genesis, h))
  }

  ghost predicate TxsOk(all: BlockDb, blockReceipts: map<Hash, seq<Receipt>>, genesis: Hash) {
    && Linked(HeadersOf(all), genesis)
    && forall h {:trigger TxsSound(all, blockReceipts, genesis, h)} :: h in all ==>
         TxsSound(all, blockReceipts, genesis, h)
  }

  /** The lookups hold exactly the transactions and receipts of the blocks on `path`, each at its place there. */
  ghost predicate LookupsHold(txMeta: map<Hash, TxPos>, receipts: map<Hash, Receipt>,
                              all: BlockDb, blockReceipts: map<Hash, seq<Receipt>>, path: seq<Hash>)
    requires forall h <- path :: h in all
  {
    && Holds(txMeta, PathRows(TxRowsOf(all), path))
    && Holds(receipts, PathRows(ReceiptRowsOf(all, blockReceipts), path))
  }

  lemma RowsKeyed(all: BlockDb, blockReceipts: map<Hash, seq<Receipt>>, genesis: Hash)
    requires TxsOk(all, blockReceipts, genesis)
    ensures KeyedByTxs(all, TxRowsOf(all)) && KeyedByTxs(all, ReceiptRowsOf(all, blockReceipts))
  {
    forall h | h in all
      ensures KeysOf(TxRows(all[h])) == TxSet(all[h]) == KeysOf(ReceiptRows(ReceiptsOf(blockReceipts, h)))
    {
      assert TxsSound(all, blockReceipts, genesis, h);
      RowKeys(all[h], ReceiptsOf(blockReceipts, h));
    }
  }

  /** Where the blocks of a path have a transaction, block by block. */
  lemma TxOnPathIff(all: BlockDb, path: seq<Hash>, m: map<Hash, TxPos>, t: Hash, p: TxPos)
    requires BlocksChained(all, path) && Holds(m, PathRows(TxRowsOf(all), path))
    ensures t in m && m[t] == p <==>
      exists n: nat, i: nat ::
        n < |path| && i < |all[path[n]].txs| && all[path[n]].txs[i] == t && p == TxPos(path[n], n, i)
  {
    hide Holds, PathRows, TxRows;
    HoldsIff(m, PathRows(TxRowsOf(all), path), t, p);
    InPathRows(TxRowsOf(all), path, (t, p));
    if t in m && m[t] == p {
      var n :| 0 <= n < |path| && (t, p) in TxRowsOf(all)[path[n]];
      InTxRows(all[path[n]], t, p);
    }
    if n: nat, i: nat :| n < |path| && i < |all[path[n]].txs| && all[path[n]].txs[i] == t && p == TxPos(path[n], n, i) {
      InTxRows(all[path[n]], t, p);
      assert (t, p) in TxRowsOf(all)[path[n]];
    }
  }

  lemma ReceiptOnPathIff(all: BlockDb, blockReceipts: map<Hash, seq<Receipt>>, path: seq<Hash>, m: map<Hash, Receipt>,
                         t: Hash, r: Receipt)
    requires BlocksChained(all, path) && Holds(m, PathRows(ReceiptRowsOf(all, blockReceipts), path))
    ensures t in m && m[t] == r <==>
      exists n: nat, i: nat ::
        && n < |path| && path[n] in blockReceipts
        && i < |blockReceipts[path[n]]| && blockReceipts[path[n]][i] == r && r.txHash == t
  {
    hide Holds, PathRows, ReceiptRows;
    var rowsOf := ReceiptRowsOf(all, blockReceipts);
    HoldsIff(m, PathRows(rowsOf, path), t, r);
    InPathRows(rowsOf, path, (t, r));
    if t in m && m[t] == r {
      var n :| 0 <= n < |path| && (t, r) in rowsOf[path[n]];
      var list := ReceiptsOf(blockReceipts, path[n]);
      InReceiptRows(list, t, r);
      var i :| 0 <= i < |list| && list[i] == r && r.txHash == t;
      assert blockReceipts[path[n]][i] == r;
    }
    if n: nat, i: nat :|
      && n < |path| && path[n] in blockReceipts
      && i < |blockReceipts[path[n]]| && blockReceipts[path[n]][i] == r && r.txHash == t
    {
      InReceiptRows(ReceiptsOf(blockReceipts, path[n]), t, r);
      assert (t, r) in rowsOf[path[n]];
    }
  }

  /** Overwriting with the rows of a path's last block completes the lookup of the path. */
  lemma LastBlockRows<V>(m: map<Hash, V>, m': map<Hash, V>, all: BlockDb, rowsOf: map<Hash, Rows<V>>, path: seq<Hash>)
    requires KeyedByTxs(all, rowsOf) && path != [] && (forall h <- path :: h in all) && Spread(all, path)
    requires Holds(m, PathRows(rowsOf, path)) || Holds(m, PathRows(rowsOf, path[..|path| - 1]))
    requires Overwritten(m, m', rowsOf[path[|path| - 1]])
    ensures Holds(m', PathRows(rowsOf, path))
  {
    var n := |path| - 1;
    var shared, last := PathRows(rowsOf, path[..n]), rowsOf[path[n]];
    StretchesDisjoint(all, rowsOf, path, 0, n, n + 1);
    assert path[n..] == [path[n]] && path[0..n] == path[..n];
    assert PathRows(rowsOf, [path[n]]) == last by {
      assert [path[n]][..0] == [];
    }
    CompleteRows(m, m', shared, last);
  }

  /** The ancestry of a stored block, with the facts every walk needs. */
  ghost function BlockPath(blocks: BlockDb, genesis: Hash, h: Hash): (path: seq<Hash>)
    requires Linked(HeadersOf(blocks), genesis) && h in blocks
    ensures path == Path(HeadersOf(blocks), genesis, h)
    ensures BlocksChained(blocks, path) && |path| == blocks[h].header.number + 1
    ensures path[0] == genesis && path[blocks[h].header.number] == h
  {
    PathShape(HeadersOf(blocks), genesis, h);
    Path(HeadersOf(blocks), genesis, h)
  }

  ghost function SetOf(txs: seq<Hash>): set<Hash> {
    set t | t in txs
  }

  function TxDifference(a: seq<Hash>, b: seq<Hash>): (diff: seq<Hash>)
    ensures forall t :: t in diff <==> t in a && t !in b
  {
    if a == [] then [] else
      assert a == [a[0]] + a[1..];
      (if a[0] in b then [] else [a[0]]) + TxDifference(a[1..], b)
  }

  function TxsOfAll(chain: seq<Block>): seq<Hash> {
    if chain == [] then [] else TxsOfAll(chain[..|chain| - 1]) + chain[|chain| - 1].txs
  }

  /** The transactions of a descending chain are those of the stretch of path it lists. */
  lemma {:induction false} DescendingTxs(all: BlockDb, chain: seq<Block>, path: seq<Hash>, n: nat)
    requires BlocksChained(all, path) && Descends(all, chain, path, n)
    ensures SetOf(TxsOfAll(chain)) == TxsOn(all, path[n + 1..])
    decreases |chain|
  {
    if chain != [] {
      var k := |chain| - 1;
      DescendingTxs(all, chain[..k], path, n + 1);
      assert chain[k] == all[path[n + 1]];
      assert path[n + 1..] == [path[n + 1]] + path[n + 2..];
      TxsOnCons(all, path[n + 1], path[n + 2..]);
    }
  }

  lemma TxsOnCons(all: BlockDb, h: Hash, rest: seq<Hash>)
    ensures TxsOn(all, [h] + rest) == TxsAt(all, h) + TxsOn(all, rest)
  {
    var path := [h] + rest;
    forall t | t in TxsAt(all, h) + TxsOn(all, rest)
      ensures t in TxsOn(all, path)
    {
      if t in TxsAt(all, h) {
        assert t in TxsAt(all, path[0]);
      } else {
        var i :| 0 <= i < |rest| && t in TxsAt(all, rest[i]);
        assert path[i + 1] == rest[i];
      }
    }
  }

  ghost function ChainTxRows(chain: seq<Block>): Rows<TxPos> {
    if chain == [] then {} else ChainTxRows(chain[..|chain| - 1]) + TxRows(chain[|chain| - 1])
  }

  ghost function ChainReceiptRows(chain: seq<Block>, blockReceipts: map<Hash, seq<Receipt>>): Rows<Receipt> {
    if chain == [] then {} else
      ChainReceiptRows(chain[..|chain| - 1], blockReceipts)
      + ReceiptRows(ReceiptsOf(blockReceipts, chain[|chain| - 1].header.hash))
  }

  /** Blocks that can be written one after the other without two of them sharing a transaction. */
  ghost predicate ChainSound(chain: seq<Block>, blockReceipts: map<Hash, seq<Receipt>>) {
    && (forall i :: 0 <= i < |chain| ==> NoDuplicates(chain[i].txs)
                                         && ReceiptsMatch(chain[i], ReceiptsOf(blockReceipts, chain[i].header.hash)))
    && (forall i, j :: 0 <= i < j < |chain| ==> TxSet(chain[i]) !! TxSet(chain[j]))
  }

  lemma {:induction false} ChainKeys(chain: seq<Block>, blockReceipts: map<Hash, seq<Receipt>>)
    requires ChainSound(chain, blockReceipts)
    ensures KeysOf(ChainTxRows(chain)) == KeysOf(ChainReceiptRows(chain, blockReceipts)) == SetOf(TxsOfAll(chain))
    ensures forall t :: t in TxsOfAll(chain) ==> exists i :: 0 <= i < |chain| && t in TxSet(chain[i])
  {
    if chain != [] {
      var k := |chain| - 1;
      ChainKeys(chain[..k], blockReceipts);
      RowKeys(chain[k], ReceiptsOf(blockReceipts, chain[k].header.hash));
      KeysOfUnion(ChainTxRows(chain[..k]), TxRows(chain[k]));
      KeysOfUnion(ChainReceiptRows(chain[..k], blockReceipts),
                  ReceiptRows(ReceiptsOf(blockReceipts, chain[k].header.hash)));
      forall t | t in TxsOfAll(chain)
        ensures exists i :: 0 <= i < |chain| && t in TxSet(chain[i])
      {
        if t in TxsOfAll(chain[..k]) {
          var i :| 0 <= i < k && t in TxSet(chain[..k][i]);
          assert t in TxSet(chain[i]);
        } else {
          assert t in TxSet(chain[k]);
        }
      }
    }
  }

  /** The rows written for all but the last block share no key with the last block's rows. */
  lemma ChainLastDisjoint(chain: seq<Block>, blockReceipts: map<Hash, seq<Receipt>>)
    requires ChainSound(chain, blockReceipts) && chain != []
    ensures var k := |chain| - 1;
      && KeysOf(ChainTxRows(chain[..k])) !! KeysOf(TxRows(chain[k]))
      && KeysOf(ChainReceiptRows(chain[..k], blockReceipts))
         !! KeysOf(ReceiptRows(ReceiptsOf(blockReceipts, chain[k].header.hash)))
  {
    var k := |chain| - 1;
    ChainKeys(chain[..k], blockReceipts);
    RowKeys(chain[k], ReceiptsOf(blockReceipts, chain[k].header.hash));
    forall t | t in SetOf(TxsOfAll(chain[..k]))
      ensures t !in TxSet(chain[k])
    {
      var i :| 0 <= i < k && t in TxSet(chain[..k][i]);
      assert chain[..k][i] == chain[i];
    }
  }

  /** One more block written after `chain[..k]` extends the overwritten rows by that block's. */
  lemma TxsWritten(chain: seq<Block>, k: nat, blockReceipts: map<Hash, seq<Receipt>>,
                   m: map<Hash, TxPos>, m1: map<Hash, TxPos>, m2: map<Hash, TxPos>)
    requires ChainSound(chain, blockReceipts) && k < |chain|
    requires Overwritten(m, m1, ChainTxRows(chain[..k])) && Overwritten(m1, m2, TxRows(chain[k]))
    ensures Overwritten(m, m2, ChainTxRows(chain[..k + 1]))
  {
    hide Overwritten, TxRows, ReceiptRows, KeysOf;
    var done := chain[..k + 1];
    assert done[..k] == chain[..k];
    ChainLastDisjoint(done, blockReceipts);
    OverwrittenTwice(m, m1, m2, ChainTxRows(chain[..k]), TxRows(chain[k]));
  }

  lemma ReceiptsWritten(chain: seq<Block>, k: nat, blockReceipts: map<Hash, seq<Receipt>>,
                        m: map<Hash, Receipt>, m1: map<Hash, Receipt>, m2: map<Hash, Receipt>)
    requires ChainSound(chain, blockReceipts) && k < |chain|
    requires Overwritten(m, m1, ChainReceiptRows(chain[..k], blockReceipts))
    requires Overwritten(m1, m2, ReceiptRows(ReceiptsOf(blockReceipts, chain[k].header.hash)))
    ensures Overwritten(m, m2, ChainReceiptRows(chain[..k + 1], blockReceipts))
  {
    hide Overwritten, TxRows, ReceiptRows, KeysOf;
    var done := chain[..k + 1];
    assert done[..k] == chain[..k];
    ChainLastDisjoint(done, blockReceipts);
    OverwrittenTwice(m, m1, m2, ChainReceiptRows(chain[..k], blockReceipts),
                     ReceiptRows(ReceiptsOf(blockReceipts, chain[k].header.hash)));
  }

  lemma NoRows<V>(rowsOf: map<Hash, Rows<V>>)
    ensures PathRows(rowsOf, []) == {}
  {
  }

  /** The rows of a descending chain are those of the stretch of path it lists. */
  lemma {:induction false} DescendingTxRows(all: BlockDb, chain: seq<Block>, path: seq<Hash>, n: nat)
    requires BlocksChained(all, path) && Descends(all, chain, path, n)
    ensures ChainTxRows(chain) == PathRows(TxRowsOf(all), path[n + 1..])
    decreases |chain|
  {
    hide TxRows, PathRows;
    if chain == [] {
      assert path[n + 1..] == [];
      NoRows(TxRowsOf(all));
    } else {
      var k := |chain| - 1;
      DescendingTxRows(all, chain[..k], path, n + 1);
      var h, rest := path[n + 1], path[n + 2..];
      assert path[n + 1..] == [h] + rest && chain[k] == all[h];
      assert TxRowsOf(all)[h] == TxRows(all[h]);
      PathRowsOne(TxRowsOf(all), h);
      PathRowsConcat(TxRowsOf(all), [h], rest);
    }
  }

  lemma {:induction false} DescendingReceiptRows(all: BlockDb, blockReceipts: map<Hash, seq<Receipt>>,
                                                 chain: seq<Block>, path: seq<Hash>, n: nat)
    requires BlocksChained(all, path) && Descends(all, chain, path, n)
    ensures ChainReceiptRows(chain, blockReceipts) == PathRows(ReceiptRowsOf(all, blockReceipts), path[n + 1..])
    decreases |chain|
  {
    hide ReceiptRows, PathRows;
    if chain == [] {
      assert path[n + 1..] == [];
      NoRows(ReceiptRowsOf(all, blockReceipts));
    } else {
      var k := |chain| - 1;
      DescendingReceiptRows(all, blockReceipts, chain[..k], path, n + 1);
      var h, rest := path[n + 1], path[n + 2..];
      assert path[n + 1..] == [h] + rest && chain[k] == all[h];
      PathRowsOne(ReceiptRowsOf(all, blockReceipts), h);
      PathRowsConcat(ReceiptRowsOf(all, blockReceipts), [h], rest);
    }
  }

  /** A lookup of the old path becomes one of the new path: rows above the split are overwritten by the adopted
      blocks', and transactions that only the abandoned blocks had are deleted. */
  lemma LookupAfterReorg<V>(m: map<Hash, V>, m1: map<Hash, V>, all: BlockDb, rowsOf: map<Hash, Rows<V>>,
                            oldPath: seq<Hash>, newPath: seq<Hash>, n: nat)
    requires KeyedByTxs(all, rowsOf) && (forall h <- oldPath + newPath :: h in all)
    requires Spread(all, oldPath) && Spread(all, newPath)
    requires n < |oldPath| && n < |newPath| && oldPath[..n + 1] == newPath[..n + 1]
    requires Holds(m, PathRows(rowsOf, oldPath))
    requires Overwritten(m, m1, PathRows(rowsOf, newPath[n + 1..]))
    ensures Holds(m1 - (TxsOn(all, oldPath[n + 1..]) - TxsOn(all, newPath[n + 1..])), PathRows(rowsOf, newPath))
  {
    SplitRows(all, rowsOf, oldPath, n + 1);
    SplitRows(all, rowsOf, newPath, n + 1);
    RowsAfterReorg(m, m1, PathRows(rowsOf, newPath[..n + 1]),
                   PathRows(rowsOf, oldPath[n + 1..]), PathRows(rowsOf, newPath[n + 1..]));
  }

  /** A spread path's rows fall into a lower and an upper part with different keys. */
  lemma SplitRows<V>(all: BlockDb, rowsOf: map<Hash, Rows<V>>, path: seq<Hash>, n: nat)
    requires KeyedByTxs(all, rowsOf) && (forall h <- path :: h in all) && Spread(all, path) && n <= |path|
    ensures PathRows(rowsOf, path) == PathRows(rowsOf, path[..n]) + PathRows(rowsOf, path[n..])
    ensures KeysOf(PathRows(rowsOf, path[..n])) !! KeysOf(PathRows(rowsOf, path[n..]))
    ensures KeysOf(PathRows(rowsOf, path[n..])) == TxsOn(all, path[n..])
  {
    hide Spread, TxsOn, PathRows, KeysOf, TxSet;
    assert path == path[..n] + path[n..];
    PathRowsConcat(rowsOf, path[..n], path[n..]);
    StretchesDisjoint(all, rowsOf, path, 0, n, |path|);
    assert path[0..n] == path[..n] && path[n..|path|] == path[n..];
    PathKeys(all, rowsOf, path[n..]);
  }

  ghost function Removed(split: SplitResult): set<Hash>
    requires split.Split?
  {
    SetOf(TxDifference(TxsOfAll(split.oldChain), TxsOfAll(split.newChain)))
  }

  /** What reorg announces as removed is what the old path had and the new path lacks. */
  lemma RemovedTxs(all: BlockDb, oldPath: seq<Hash>, newPath: seq<Hash>, split: SplitResult)
    requires BlocksChained(all, oldPath) && BlocksChained(all, newPath) && IsSplit(all, oldPath, newPath, split)
    requires Spread(all, oldPath)
    ensures var n := split.common.header.number;
      Removed(split) == TxsOn(all, oldPath[n + 1..]) - TxsOn(all, newPath[n + 1..])
    ensures Removed(split) == TxsOn(all, oldPath) - TxsOn(all, newPath)
  {
    hide TxsOn, Spread, TxsOfAll;
    var n := split.common.header.number;
    DescendingTxs(all, split.oldChain, oldPath, n);
    DescendingTxs(all, split.newChain, newPath, n);
    BlocksMerge(all, oldPath, newPath, n);
    TxsOnSplit(all, oldPath, n + 1);
    TxsOnSplit(all, newPath, n + 1);
    SpreadApart(all, oldPath, n + 1);
    assert oldPath[..n + 1] == newPath[..n + 1];
  }

  lemma SpreadApart(all: BlockDb, path: seq<Hash>, n: nat)
    requires Spread(all, path) && n <= |path|
    ensures TxsOn(all, path[..n]) !! TxsOn(all, path[n..])
  {
    var lower, upper := path[..n], path[n..];
    forall t | t in TxsOn(all, upper)
      ensures t !in TxsOn(all, lower)
    {
      var k :| 0 <= k < |upper| && t in TxsAt(all, upper[k]);
      forall i | 0 <= i < |lower|
        ensures t !in TxsAt(all, lower[i])
      {
        assert TxsAt(all, path[i]) !! TxsAt(all, path[n + k]);
      }
    }
  }

  lemma TxsOnSplit(all: BlockDb, path: seq<Hash>, n: nat)
    requires n <= |path|
    ensures TxsOn(all, path) == TxsOn(all, path[..n]) + TxsOn(all, path[n..])
  {
    forall t | t in TxsOn(all, path)
      ensures t in TxsOn(all, path[..n]) + TxsOn(all, path[n..])
    {
      var i :| 0 <= i < |path| && t in TxsAt(all, path[i]);
      if i < n {
        assert t in TxsAt(all, path[..n][i]);
      } else {
        assert t in TxsAt(all, path[n..][i - n]);
      }
    }
    forall t | t in TxsOn(all, path[n..])
      ensures t in TxsOn(all, path)
    {
      var i :| 0 <= i < |path| - n && t in TxsAt(all, path[n..][i]);
      assert t in TxsAt(all, path[n + i]);
    }
  }

  /** Adopting the new chain's rows and deleting the removed transactions moves both lookups to the new path. */
  lemma LookupsMoved(all: BlockDb, blockReceipts: map<Hash, seq<Receipt>>, genesis: Hash,
                     oldPath: seq<Hash>, newPath: seq<Hash>, split: SplitResult,
                     txs: map<Hash, TxPos>, txs1: map<Hash, TxPos>,
                     receipts: map<Hash, Receipt>, receipts1: map<Hash, Receipt>)
    requires BlocksChained(all, oldPath) && BlocksChained(all, newPath) && IsSplit(all, oldPath, newPath, split)
    requires TxsOk(all, blockReceipts, genesis) && Spread(all, oldPath) && Spread(all, newPath)
    requires LookupsHold(txs, receipts, all, blockReceipts, oldPath)
    requires Overwritten(txs, txs1, ChainTxRows(split.newChain))
    requires Overwritten(receipts, receipts1, ChainReceiptRows(split.newChain, blockReceipts))
    ensures LookupsHold(txs1 - Removed(split), receipts1 - Removed(split), all, blockReceipts, newPath)
  {
    hide Overwritten, Holds, Spread, KeyedByTxs, TxsOn, PathRows, TxsOk, ChainTxRows, ChainReceiptRows, Removed;
    var n := split.common.header.number;
    RowsKeyed(all, blockReceipts, genesis);
    BlocksMerge(all, oldPath, newPath, n);
    assert oldPath[..n + 1] == newPath[..n + 1];
    RemovedTxs(all, oldPath, newPath, split);
    DescendingTxRows(all, split.newChain, newPath, n);
    LookupAfterReorg(txs, txs1, all, TxRowsOf(all), oldPath, newPath, n);
    DescendingReceiptRows(all, blockReceipts, split.newChain, newPath, n);
    LookupAfterReorg(receipts, receipts1, all, ReceiptRowsOf(all, blockReceipts), oldPath, newPath, n);
  }

  /** The blocks of a descending chain can be written together. */
  lemma DescendingSound(all: BlockDb, blockReceipts: map<Hash, seq<Receipt>>, genesis: Hash,
                        chain: seq<Block>, path: seq<Hash>, n: nat)
    requires BlocksChained(all, path) && Descends(all, chain, path, n)
    requires TxsOk(all, blockReceipts, genesis) && Spread(all, path)
    ensures ChainSound(chain, blockReceipts)
  {
    forall i | 0 <= i < |chain|
      ensures NoDuplicates(chain[i].txs) && ReceiptsMatch(chain[i], ReceiptsOf(blockReceipts, chain[i].header.hash))
    {
      assert TxsSound(all, blockReceipts, genesis, path[|path| - 1 - i]);
    }
    forall i, j | 0 <= i < j < |chain|
      ensures TxSet(chain[i]) !! TxSet(chain[j])
    {
      assert TxsAt(all, path[|path| - 1 - j]) !! TxsAt(all, path[|path| - 1 - i]);
    }
  }

  /** What block processing and collision-free hashing give about a block before it is stored: its receipts match,
      it has no duplicate transaction, and none of its transactions is already on its ancestry. */
  ghost predicate Admissible(blocks: BlockDb, blockReceipts: map<Hash, seq<Receipt>>, genesis: Hash,
                             block: Block, receipts: seq<Receipt>)
    requires Linked(HeadersOf(blocks), genesis)
  {
    && block.header.hash != ZERO_HASH
    && (block.header.hash in blocks ==>
          blocks[block.header.hash] == block && ReceiptsOf(blockReceipts, block.header.hash) == receipts)
    && NoDuplicates(block.txs) && ReceiptsMatch(block, receipts)
    && (block.header.parentHash in blocks ==>
          TxSet(block) !! TxsOn(blocks, BlockPath(blocks, genesis, block.header.parentHash)))
  }

  /** What is stored agrees with a fixed collection of blocks and receipts. */
  ghost predicate Within(blocks: BlockDb, blockReceipts: map<Hash, seq<Receipt>>,
                         world: BlockDb, worldReceipts: map<Hash, seq<Receipt>>) {
    forall h :: h in blocks ==>
      h in world && blocks[h] == world[h] && ReceiptsOf(blockReceipts, h) == ReceiptsOf(worldReceipts, h)
  }

  lemma WithinStored(blocks: BlockDb, blockReceipts: map<Hash, seq<Receipt>>,
                     world: BlockDb, worldReceipts: map<Hash, seq<Receipt>>, h: Hash)
    requires Within(blocks, blockReceipts, world, worldReceipts)
    ensures h in world ==>
      Within(blocks[h := world[h]], blockReceipts[h := ReceiptsOf(worldReceipts, h)], world, worldReceipts)
  {
  }

  /** A block of a collection whose paths repeat no transaction is admissible whenever its parent is stored. */
  lemma WithinAdmissible(blocks: BlockDb, blockReceipts: map<Hash, seq<Receipt>>,
                         world: BlockDb, worldReceipts: map<Hash, seq<Receipt>>, genesis: Hash, h: Hash)
    requires Within(blocks, blockReceipts, world, worldReceipts) && TxsOk(world, worldReceipts, genesis)
    requires Linked(HeadersOf(blocks), genesis) && h in world && world[h].header.parentHash in blocks
    ensures Admissible(blocks, blockReceipts, genesis, world[h], ReceiptsOf(worldReceipts, h))
  {
    assert TxsSound(world, worldReceipts, genesis, h);
    var parent := world[h].header.parentHash;
    assert HasParent(HeadersOf(world), h);
    PathStable(HeadersOf(blocks), HeadersOf(world), genesis, parent);
    var lower := BlockPath(blocks, genesis, parent);
    assert BlockPath(world, genesis, h) == lower + [h];
    forall i | 0 <= i < |lower|
      ensures TxsAt(blocks, lower[i]) !! TxSet(world[h])
    {
      assert (lower + [h])[i] == lower[i] && (lower + [h])[|lower|] == h;
      assert TxsAt(world, lower[i]) !! TxsAt(world, h);
    }
  }

  /** One element of an imported chain, with everything the environment decides about it. `interrupted` asks the import
      to stop before the block; `sealOk` is the outcome of the nonce and fork checks; `stateKnown` says whether the
      state of an already stored block is present; `future` and `farFuture` compare its time with the clock;
      `otherChecks` is the outcome of every other validation and processing step. */
  datatype Incoming = Incoming(block: Block, receipts: seq<Receipt>, interrupted: bool, sealOk: bool, stateKnown: bool,
                               future: bool, farFuture: bool, otherChecks: bool, coin: bool)

  ghost predicate Contiguous(chain: seq<Incoming>) {
    forall i, j :: 0 <= i < j < |chain| && j == i + 1 ==>
      && chain[j].block.header.number == chain[i].block.header.number + 1
      && chain[j].block.header.parentHash == chain[i].block.header.hash
  }

  /** Every block but the first is a child of the one before it. */
  lemma ContiguousIff(chain: seq<Incoming>)
    ensures Contiguous(chain) <==> forall i :: 1 <= i < |chain| ==>
      && chain[i].block.header.number == chain[i - 1].block.header.number + 1
      && chain[i].block.header.parentHash == chain[i - 1].block.header.hash
  {
  }

  method CheckContiguous(chain: seq<Incoming>) returns (ok: bool)
    ensures ok <==> Contiguous(chain)
  {
    var i := 1;
    while i < |chain|
      invariant 1 <= i && Contiguous(chain[..if i <= |chain| then i else |chain|])
    {
      ghost var longer := chain[..i + 1];
      assert longer[..i] == chain[..i] && longer[i] == chain[i] && longer[i - 1] == chain[i - 1];
      if chain[i].block.header.number != chain[i - 1].block.header.number + 1
         || chain[i].block.header.parentHash != chain[i - 1].block.header.hash {
        return false;
      }
      i := i + 1;
    }
    assert chain[..|chain|] == chain;
    ok := true;
  }

  datatype ImportResult = Imported | NonContiguous | Interrupted(index: nat) | Failed(index: nat, reason: InsertResult)

  lemma NoZero(blocks: BlockDb, genesis: Hash)
    requires Linked(HeadersOf(blocks), genesis)
    ensures ZERO_HASH !in blocks
  {
    assert ZERO_HASH !in HeadersOf(blocks);
  }

  lemma StoredHeaders(blocks: BlockDb, genesis: Hash, block: Block)
    requires Linked(HeadersOf(blocks), genesis) && Writable(HeadersOf(blocks), block.header)
    requires block.header.parentHash in blocks
    ensures var all := blocks[block.header.hash := block];
      && HeadersOf(all) == HeadersOf(blocks)[block.header.hash := block.header]
      && Linked(HeadersOf(all), genesis) && block.header.hash != genesis
      && (forall h {:trigger BlockPath(all, genesis, h)} :: h in blocks ==>
            BlockPath(all, genesis, h) == BlockPath(blocks, genesis, h))
      && BlockPath(all, genesis, block.header.hash)
         == BlockPath(blocks, genesis, block.header.parentHash) + [block.header.hash]
  {
    var all := blocks[block.header.hash := block];
    assert HeadersOf(all) == HeadersOf(blocks)[block.header.hash := block.header];
    LinkedAfterWrite(HeadersOf(blocks), genesis, block.header);
    forall h | h in blocks
      ensures BlockPath(all, genesis, h) == BlockPath(blocks, genesis, h)
    {
      PathStable(HeadersOf(blocks), HeadersOf(all), genesis, h);
    }
  }

  /** Both ancestries can be walked through the stored blocks once the incoming block is in hand. */
  lemma BothWalkable(blocks: BlockDb, genesis: Hash, block: Block, head: Hash)
    requires Linked(HeadersOf(blocks), genesis) && Writable(HeadersOf(blocks), block.header)
    requires block.header.parentHash in blocks && head in blocks
    requires block.header.hash in blocks ==> blocks[block.header.hash] == block
    ensures var all := blocks[block.header.hash := block];
      && Linked(HeadersOf(all), genesis) && all[head] == blocks[head]
      && Walkable(blocks, all, BlockPath(all, genesis, head))
      && Walkable(blocks, all, BlockPath(all, genesis, block.header.hash))
      && BlockPath(all, genesis, head) == BlockPath(blocks, genesis, head)
      && |BlockPath(all, genesis, block.header.hash)| > 1
  {
    StoredHeaders(blocks, genesis, block);
  }

  /** Storing an admissible block keeps every stored path free of repeated transactions. */
  lemma StoredTxsOk(blocks: BlockDb, blockReceipts: map<Hash, seq<Receipt>>, genesis: Hash,
                    block: Block, receipts: seq<Receipt>)
    requires TxsOk(blocks, blockReceipts, genesis) && Admissible(blocks, blockReceipts, genesis, block, receipts)
    requires Writable(HeadersOf(blocks), block.header) && block.header.parentHash in blocks
    ensures TxsOk(blocks[block.header.hash := block], blockReceipts[block.header.hash := receipts], genesis)
  {
    var all, br := blocks[block.header.hash := block], blockReceipts[block.header.hash := receipts];
    StoredHeaders(blocks, genesis, block);
    forall h | h in all
      ensures TxsSound(all, br, genesis, h)
    {
      if h in blocks {
        assert BlockPath(all, genesis, h) == BlockPath(blocks, genesis, h);
        assert TxsSound(blocks, blockReceipts, genesis, h);
        SpreadStable(blocks, all, BlockPath(blocks, genesis, h));
      } else {
        StoredSpread(blocks, blockReceipts, genesis, block, receipts);
      }
    }
  }

  lemma StoredPathSpread(all: BlockDb, blockReceipts: map<Hash, seq<Receipt>>, genesis: Hash, h: Hash)
    requires TxsOk(all, blockReceipts, genesis) && h in all
    ensures Spread(all, BlockPath(all, genesis, h))
  {
    assert TxsSound(all, blockReceipts, genesis, h);
  }

  lemma StoredSpread(blocks: BlockDb, blockReceipts: map<Hash, seq<Receipt>>, genesis: Hash,
                     block: Block, receipts: seq<Receipt>)
    requires TxsOk(blocks, blockReceipts, genesis) && Admissible(blocks, blockReceipts, genesis, block, receipts)
    requires Writable(HeadersOf(blocks), block.header) && block.header.parentHash in blocks
    ensures var all := blocks[block.header.hash := block];
      Linked(HeadersOf(all), genesis) && Spread(all, BlockPath(all, genesis, block.header.hash))
  {
    var all, parent := blocks[block.header.hash := block], block.header.parentHash;
    StoredHeaders(blocks, genesis, block);
    assert TxsSound(blocks, blockReceipts, genesis, parent);
    SpreadStable(blocks, all, BlockPath(blocks, genesis, parent));
    SpreadExtend(all, BlockPath(blocks, genesis, parent), block.header.hash);
  }

  lemma SpreadStable(blocks: BlockDb, all: BlockDb, path: seq<Hash>)
    requires Spread(blocks, path) && forall h <- path :: h in blocks && h in all && all[h] == blocks[h]
    ensures Spread(all, path)
    ensures TxsOn(all, path) == TxsOn(blocks, path)
  {
    forall i | 0 <= i < |path|
      ensures TxsAt(all, path[i]) == TxsAt(blocks, path[i])
    {
      assert path[i] in path;
    }
  }

  lemma SpreadExtend(all: BlockDb, path: seq<Hash>, h: Hash)
    requires Spread(all, path) && TxsAt(all, h) !! TxsOn(all, path)
    ensures Spread(all, path + [h])
  {
    var longer := path + [h];
    forall i, k | 0 <= i < k < |longer|
      ensures TxsAt(all, longer[i]) !! TxsAt(all, longer[k])
    {
      if k == |path| {
        assert TxsAt(all, path[i]) <= TxsOn(all, path);
      }
    }
  }

  lemma LookupsStable(txMeta: map<Hash, TxPos>, receiptMap: map<Hash, Receipt>,
                      blocks: BlockDb, blockReceipts: map<Hash, seq<Receipt>>, genesis: Hash,
                      block: Block, receipts: seq<Receipt>, head: Hash)
    requires Linked(HeadersOf(blocks), genesis) && Admissible(blocks, blockReceipts, genesis, block, receipts)
    requires head in blocks
    requires LookupsHold(txMeta, receiptMap, blocks, blockReceipts, BlockPath(blocks, genesis, head))
    ensures block.header.hash in blocks ==> blocks[block.header.hash] == block
    ensures forall h <- BlockPath(blocks, genesis, head) :: h in blocks
    ensures LookupsHold(txMeta, receiptMap, blocks[block.header.hash := block],
                        blockReceipts[block.header.hash := receipts], BlockPath(blocks, genesis, head))
  {
    hide Holds, ReceiptsMatch, NoDuplicates, TxRows, ReceiptRows, TxsOn, PathRows;
    var path := BlockPath(blocks, genesis, head);
    var all, br := blocks[block.header.hash := block], blockReceipts[block.header.hash := receipts];
    PathRowsStable(TxRowsOf(blocks), TxRowsOf(all), path);
    PathRowsStable(ReceiptRowsOf(blocks, blockReceipts), ReceiptRowsOf(all, br), path);
  }

  /** The choice in WriteBlock: heavier wins; on equal difficulty the lower number, then the coin. */
  predicate Adopts(externTd: nat, localTd: nat, number: nat, localNumber: nat, coin: bool) {
    externTd > localTd || (externTd == localTd && (number < localNumber || (number == localNumber && coin)))
  }

  predicate Wins(c: Chain, block: Block, coin: bool)
    requires block.header.parentHash in c.td && c.head in c.td && c.head in c.db
  {
    Adopts(c.td[block.header.parentHash] + block.header.difficulty, c.td[c.head],
           block.header.number, c.db[c.head].number, coin)
  }

  class BlockChain {
    var blocks: BlockDb
    var td: map<Hash, nat>
    var canon: map<nat, Hash>
    var blockReceipts: map<Hash, seq<Receipt>>
    var txMeta: map<Hash, TxPos>
    var receipts: map<Hash, Receipt>
    const genesis: Hash
    var currentBlock: Block
    var currentFastBlock: Hash
    var currentHeader: Hash
    /** The blocks set aside for later. */
    var futureBlocks: set<Hash>

    ghost function View(): Chain
      reads this`blocks, this`td, this`currentBlock
    {
      Chain(HeadersOf(blocks), td, genesis, currentBlock.header.hash)
    }

    ghost function HeadsView(): Heads
      reads this`canon, this`currentBlock, this`currentHeader, this`currentFastBlock
    {
      Heads(canon, currentBlock.header.hash, currentHeader, currentFastBlock)
    }

    /** Numbers 0 to head are assigned exactly the head's ancestry; numbers above may be stale. */
    ghost predicate ChainOk()
      reads this`blocks, this`td, this`canon, this`currentBlock
    {
      && Good(View())
      && blocks[currentBlock.header.hash] == currentBlock
      && OnIndex(canon, BlockPath(blocks, genesis, currentBlock.header.hash))
    }

    /** The heads moved from `before` to this adopted block, the head header as far as `insert` moves it. */
    ghost predicate Moved(before: Heads, block: Block, split: Option<SplitResult>)
      reads this`blocks, this`canon, this`currentBlock, this`currentHeader, this`currentFastBlock
    {
      && Linked(HeadersOf(blocks), genesis) && before.block in blocks && block.header.hash in blocks
      && var oldPath, newPath := BlockPath(blocks, genesis, before.block),
                                 BlockPath(blocks, genesis, block.header.hash);
      && HeadsMoved(blocks, oldPath, newPath, before, HeadsView(), block, split)
      && (split.Some? ==> HeaderLags(newPath, HeadsView(), split.value))
    }

    /** A block was written onto the chain `before`, and became head exactly if it won the choice. */
    ghost predicate Wrote(before: Chain, heads: Heads, block: Block, coin: bool, status: WriteStatus,
                          split: Option<SplitResult>)
      reads this`blocks, this`td, this`canon, this`currentBlock, this`currentHeader, this`currentFastBlock
    {
      && block.header.parentHash in before.td && before.head in before.td && before.head in before.db
      && var adopt := Wins(before, block, coin);
      && LegalChoice(before, block.header, adopt)
      && View() == Write(before, block.header, adopt)
      && status == (if adopt then CanonStat else SideStat)
      && (if adopt then Moved(heads, block, split) else HeadsView() == heads)
    }

    /** The lookups are complete for the path of a block, or short of just its own rows. */
    ghost predicate LookupsNearly(h: Hash)
      reads this`blocks, this`blockReceipts, this`txMeta, this`receipts
    {
      && Linked(HeadersOf(blocks), genesis) && h in blocks
      && var path := BlockPath(blocks, genesis, h);
      || LookupsHold(txMeta, receipts, blocks, blockReceipts, path)
      || LookupsHold(txMeta, receipts, blocks, blockReceipts, path[..|path| - 1])
    }

    ghost predicate Valid()
      reads this`blocks, this`td, this`canon, this`currentBlock, this`blockReceipts, this`txMeta, this`receipts
    {
      && ChainOk()
      && TxsOk(blocks, blockReceipts, genesis)
      && LookupsHold(txMeta, receipts, blocks, blockReceipts, BlockPath(blocks, genesis, currentBlock.header.hash))
    }

    /** A transaction is found at a position exactly when the canonical block of that number has it at that index. */
    lemma TxFoundIff(t: Hash, p: TxPos)
      requires Valid()
      ensures t in txMeta && txMeta[t] == p <==>
        exists n: nat, i: nat ::
          && n <= currentBlock.header.number && n in canon && canon[n] in blocks
          && i < |blocks[canon[n]].txs| && blocks[canon[n]].txs[i] == t && p == TxPos(canon[n], n, i)
    {
      IndexIsPath();
      var path := BlockPath(blocks, genesis, currentBlock.header.hash);
      assert Holds(txMeta, PathRows(TxRowsOf(blocks), path));
      hide *;
      TxOnPathIff(blocks, path, txMeta, t, p);
      if n: nat, i: nat :|
        n < |path| && i < |blocks[path[n]].txs| && blocks[path[n]].txs[i] == t && p == TxPos(path[n], n, i)
      {
        assert canon[n] == path[n] && blocks[canon[n]].txs[i] == t;
      }
      if n: nat, i: nat :|
        && n <= currentBlock.header.number && n in canon && canon[n] in blocks
        && i < |blocks[canon[n]].txs| && blocks[canon[n]].txs[i] == t && p == TxPos(canon[n], n, i)
      {
        assert canon[n] == path[n] && blocks[path[n]].txs[i] == t;
      }
    }

    /** And a receipt exactly when it is one of that block's. */
    lemma ReceiptFoundIff(t: Hash, r: Receipt)
      requires Valid()
      ensures t in receipts && receipts[t] == r <==>
        exists n: nat, i: nat ::
          && n <= currentBlock.header.number && n in canon && canon[n] in blockReceipts
          && i < |blockReceipts[canon[n]]| && blockReceipts[canon[n]][i] == r && r.txHash == t
    {
      IndexIsPath();
      var path := BlockPath(blocks, genesis, currentBlock.header.hash);
      assert Holds(receipts, PathRows(ReceiptRowsOf(blocks, blockReceipts), path));
      hide *;
      ReceiptOnPathIff(blocks, blockReceipts, path, receipts, t, r);
      if n: nat, i: nat :|
        && n < |path| && path[n] in blockReceipts
        && i < |blockReceipts[path[n]]| && blockReceipts[path[n]][i] == r && r.txHash == t
      {
        assert canon[n] == path[n] && blockReceipts[canon[n]][i] == r;
      }
      if n: nat, i: nat :|
        && n <= currentBlock.header.number && n in canon && canon[n] in blockReceipts
        && i < |blockReceipts[canon[n]]| && blockReceipts[canon[n]][i] == r && r.txHash == t
      {
        assert canon[n] == path[n] && blockReceipts[path[n]][i] == r;
      }
    }

    /** Read off the database: every number up to the head's is assigned the block of that number, and each canonical
        block is the child of the one below. */
    lemma CanonIsAncestry(n: nat)
      requires Valid()
      ensures n <= currentBlock.header.number ==>
        && n in canon && canon[n] in blocks
        && blocks[canon[n]].header.number == n && blocks[canon[n]].header.hash == canon[n]
      ensures 0 in canon && canon[0] == genesis
      ensures currentBlock.header.number in canon && canon[currentBlock.header.number] == currentBlock.header.hash
      ensures 0 < n <= currentBlock.header.number ==>
        && n in canon && n - 1 in canon && canon[n] in blocks && blocks[canon[n]].header.parentHash == canon[n - 1]
    {
      IndexIsPath();
      hide Valid, LookupsHold, Linked;
    }

    /** Total difficulties add up from genesis along parents, and none passes the current block's. */
    lemma DifficultiesAddUp(h: Hash)
      requires Valid()
      ensures h in blocks <==> h in td
      ensures genesis in td && genesis in blocks && td[genesis] == blocks[genesis].header.difficulty
      ensures h in blocks && h != genesis ==>
        && blocks[h].header.parentHash in td
        && td[h] == td[blocks[h].header.parentHash] + blocks[h].header.difficulty
      ensures h in td ==> td[h] <= td[currentBlock.header.hash]
    {
      hide LookupsHold, TxsOk, OnIndex;
      assert HasWork(View(), genesis);
      GenesisWork(HeadersOf(blocks), genesis);
      if h in blocks && h != genesis {
        assert HasParent(HeadersOf(blocks), h);
        assert HasWork(View(), h) && HasWork(View(), blocks[h].header.parentHash);
        ChildWork(HeadersOf(blocks), genesis, h);
      }
    }

    lemma IndexIsPath()
      requires Valid()
      ensures Linked(HeadersOf(blocks), genesis) && currentBlock.header.hash in blocks
      ensures var path := BlockPath(blocks, genesis, currentBlock.header.hash);
        && |path| == currentBlock.header.number + 1 && BlocksChained(blocks, path)
        && (forall n :: 0 <= n < |path| ==> n in canon && canon[n] == path[n] && path[n] in blocks)
        && LookupsHold(txMeta, receipts, blocks, blockReceipts, path)
    {
      hide LookupsHold, TxsOk, HasWork;
    }

    constructor (g: Block)
      requires IsGenesis(g.header) && g.txs == []
      ensures Valid() && View() == Genesis(g.header) && futureBlocks == {}
      ensures HeadsView() == Heads(map[0 := g.header.hash], g.header.hash, g.header.hash, g.header.hash)
    {
      blocks, td, canon := map[g.header.hash := g], map[g.header.hash := g.header.difficulty], map[0 := g.header.hash];
      blockReceipts, txMeta, receipts := map[], map[], map[];
      genesis, currentBlock, currentFastBlock, currentHeader := g.header.hash, g, g.header.hash, g.header.hash;
      futureBlocks := {};
      new;
      GenesisGood(g.header);
      assert HeadersOf(blocks) == map[g.header.hash := g.header];
      ghost var path := BlockPath(blocks, genesis, g.header.hash);
      assert path == [g.header.hash];
      assert TxsSound(blocks, blockReceipts, genesis, g.header.hash);
      PathRowsOne(TxRowsOf(blocks), g.header.hash);
      PathRowsOne(ReceiptRowsOf(blocks, blockReceipts), g.header.hash);
    }

    /** The total difficulty the node follows. */
    ghost function HeadTd(): nat
      requires Valid()
      reads this`blocks, this`td, this`canon, this`currentBlock, this`blockReceipts, this`txMeta, this`receipts
    {
      td[currentBlock.header.hash]
    }

    lemma HeadHeaviest(h: Hash)
      requires Valid()
      ensures Linked(HeadersOf(blocks), genesis) && currentBlock.header.hash in td
      ensures h in td ==> td[h] <= HeadTd()
    {
    }

    method InsertHead(block: Block)
      modifies this`canon, this`currentBlock, this`currentHeader, this`currentFastBlock
      ensures HeadsView() == Insert(old(HeadsView()), block) && currentBlock == block
      ensures canon == old(canon)[block.header.number := block.header.hash]
      ensures var before := if block.header.number in old(canon) then old(canon)[block.header.number] else ZERO_HASH;
        if before == block.header.hash then unchanged(`currentHeader) && unchanged(`currentFastBlock)
        else currentHeader == currentFastBlock == block.header.hash
    {
      var updateHeads := GetCanonicalHash(canon, block.header.number) != block.header.hash;
      canon := canon[block.header.number := block.header.hash];
      currentBlock := block;
      if updateHeads {
        currentHeader := block.header.hash;
        currentFastBlock := block.header.hash;
      }
    }

    method WriteTransactions(block: Block)
      requires NoDuplicates(block.txs)
      modifies this`txMeta
      ensures Overwritten(old(txMeta), txMeta, TxRows(block))
      ensures forall i :: 0 <= i < |block.txs| ==>
        block.txs[i] in txMeta && txMeta[block.txs[i]] == TxPos(block.header.hash, block.header.number, i)
      ensures forall t :: t !in block.txs ==> (t in txMeta <==> t in old(txMeta))
      ensures forall t :: t !in block.txs && t in txMeta ==> txMeta[t] == old(txMeta)[t]
    {
      var i := 0;
      while i < |block.txs|
        invariant i <= |block.txs|
        invariant Overwritten(old(txMeta), txMeta, TxRows(block.(txs := block.txs[..i])))
      {
        ghost var done, more := TxRows(block.(txs := block.txs[..i])), TxRows(block.(txs := block.txs[..i + 1]));
        var pos := TxPos(block.header.hash, block.header.number, i);
        assert more == done + {(block.txs[i], pos)};
        assert KeysOf(more) == KeysOf(done) + {block.txs[i]};
        txMeta := txMeta[block.txs[i] := pos];
        i := i + 1;
      }
      assert block.txs[..i] == block.txs;
      TxsOverwritten(old(txMeta), txMeta, block);
    }

    method WriteReceipts(rs: seq<Receipt>)
      requires forall i, j :: 0 <= i < j < |rs| ==> rs[i].txHash != rs[j].txHash
      modifies this`receipts
      ensures Overwritten(old(receipts), receipts, ReceiptRows(rs))
      ensures forall i :: 0 <= i < |rs| ==> rs[i].txHash in receipts && receipts[rs[i].txHash] == rs[i]
    {
      var i := 0;
      while i < |rs|
        invariant i <= |rs|
        invariant Overwritten(old(receipts), receipts, ReceiptRows(rs[..i]))
      {
        ghost var done, more := ReceiptRows(rs[..i]), ReceiptRows(rs[..i + 1]);
        assert more == done + {(rs[i].txHash, rs[i])};
        assert KeysOf(more) == KeysOf(done) + {rs[i].txHash};
        receipts := receipts[rs[i].txHash := rs[i]];
        i := i + 1;
      }
      assert rs[..i] == rs;
      assert forall k :: 0 <= k < |rs| ==> (rs[k].txHash, rs[k]) in ReceiptRows(rs);
    }

    method DeleteTxs(diff: seq<Hash>)
      modifies this`txMeta, this`receipts
      ensures txMeta == old(txMeta) - SetOf(diff)
      ensures receipts == old(receipts) - SetOf(diff)
    {
      var i := 0;
      while i < |diff|
        invariant i <= |diff|
        invariant txMeta == old(txMeta) - SetOf(diff[..i])
        invariant receipts == old(receipts) - SetOf(diff[..i])
      {
        receipts := receipts - {diff[i]};
        txMeta := txMeta - {diff[i]};
        assert SetOf(diff[..i + 1]) == SetOf(diff[..i]) + {diff[i]};
        i := i + 1;
      }
      assert diff[..i] == diff;
    }

    /** One adopted block: it becomes head, and its transactions and stored receipts enter the lookups. */
    method AdoptBlock(block: Block)
      requires NoDuplicates(block.txs) && ReceiptsMatch(block, ReceiptsOf(blockReceipts, block.header.hash))
      modifies this`canon, this`currentBlock, this`currentHeader, this`currentFastBlock, this`txMeta, this`receipts
      ensures HeadsView() == Insert(old(HeadsView()), block)
      ensures Overwritten(old(txMeta), txMeta, TxRows(block))
      ensures Overwritten(old(receipts), receipts, ReceiptRows(ReceiptsOf(blockReceipts, block.header.hash)))
    {
      InsertHead(block);
      WriteTransactions(block);
      WriteReceipts(ReceiptsOf(blockReceipts, block.header.hash));
    }

    /** The insertion loop of reorg. */
    method AdoptBlocks(newChain: seq<Block>)
      requires ChainSound(newChain, blockReceipts)
      modifies this`canon, this`currentBlock, this`currentHeader, this`currentFastBlock, this`txMeta, this`receipts
      ensures HeadsView() == InsertAll(old(HeadsView()), newChain)
      ensures Overwritten(old(txMeta), txMeta, ChainTxRows(newChain))
      ensures Overwritten(old(receipts), receipts, ChainReceiptRows(newChain, blockReceipts))
    {
      var k := 0;
      while k < |newChain|
        invariant k <= |newChain|
        invariant HeadsView() == InsertAll(old(HeadsView()), newChain[..k])
        invariant Overwritten(old(txMeta), txMeta, ChainTxRows(newChain[..k]))
        invariant Overwritten(old(receipts), receipts, ChainReceiptRows(newChain[..k], blockReceipts))
      {
        ghost var txs1, receipts1 := txMeta, receipts;
        AdoptBlock(newChain[k]);
        TxsWritten(newChain, k, blockReceipts, old(txMeta), txs1, txMeta);
        ReceiptsWritten(newChain, k, blockReceipts, old(receipts), receipts1, receipts);
        assert newChain[..k + 1][..k] == newChain[..k];
        k := k + 1;
      }
      assert newChain[..k] == newChain;
    }

    /** Moves the chain from the current block to `newBlock`; `removed` are the transactions announced as dropped. */
    method Reorg(newBlock: Block, ghost all: BlockDb, ghost oldPath: seq<Hash>, ghost newPath: seq<Hash>)
      returns (split: SplitResult, removed: seq<Hash>)
      requires Walkable(blocks, all, oldPath) && Walkable(blocks, all, newPath)
      requires oldPath != [] && newPath != [] && oldPath[0] == newPath[0]
      requires currentBlock == all[oldPath[|oldPath| - 1]] && newBlock == all[newPath[|newPath| - 1]]
      requires TxsOk(all, blockReceipts, genesis) && Spread(all, oldPath) && Spread(all, newPath)
      requires OnIndex(canon, oldPath) && LookupsHold(txMeta, receipts, all, blockReceipts, oldPath)
      modifies this`canon, this`currentBlock, this`currentHeader, this`currentFastBlock, this`txMeta, this`receipts
      ensures IsSplit(all, oldPath, newPath, split)
      ensures HeadsView() == InsertAll(old(HeadsView()), split.newChain)
      ensures OnIndex(canon, newPath)
      ensures LookupsHold(txMeta, receipts, all, blockReceipts, newPath)
      ensures SetOf(removed) == TxsOn(all, oldPath) - TxsOn(all, newPath)
    {
      hide LookupsHold, TxsOk, Spread, Overwritten, ChainSound, OnIndex;
      split := SplitChains(blocks, currentBlock, newBlock, all, oldPath, newPath);
      if !split.Split? {
        return split, [];
      }
      ghost var txs0, receipts0 := txMeta, receipts;
      SplitIndex(HeadsView(), all, oldPath, newPath, split);
      DescendingSound(all, blockReceipts, genesis, split.newChain, newPath, split.common.header.number);
      AdoptBlocks(split.newChain);
      removed := TxDifference(TxsOfAll(split.oldChain), TxsOfAll(split.newChain));
      RemovedTxs(all, oldPath, newPath, split);
      LookupsMoved(all, blockReceipts, genesis, oldPath, newPath, split, txs0, txMeta, receipts0, receipts);
      DeleteTxs(removed);
    }

    /** The canonical branch of WriteBlock. The lookups are left complete, or short of just the new block's rows. */
    method AdoptHead(block: Block, ghost all: BlockDb, ghost oldPath: seq<Hash>, ghost newPath: seq<Hash>)
      returns (split: Option<SplitResult>)
      requires Walkable(blocks, all, oldPath) && Walkable(blocks, all, newPath)
      requires oldPath != [] && |newPath| > 1 && oldPath[0] == newPath[0]
      requires currentBlock == all[oldPath[|oldPath| - 1]] && block == all[newPath[|newPath| - 1]]
      requires TxsOk(all, blockReceipts, genesis) && Spread(all, oldPath) && Spread(all, newPath)
      requires OnIndex(canon, oldPath) && LookupsHold(txMeta, receipts, all, blockReceipts, oldPath)
      modifies this`canon, this`currentBlock, this`currentHeader, this`currentFastBlock, this`txMeta, this`receipts
      ensures currentBlock == block
      ensures OnIndex(canon, newPath)
      ensures LookupsHold(txMeta, receipts, all, blockReceipts, newPath)
           || LookupsHold(txMeta, receipts, all, blockReceipts, newPath[..|newPath| - 1])
      ensures HeadsMoved(all, oldPath, newPath, old(HeadsView()), HeadsView(), block, split)
    {
      hide LookupsHold, TxsOk, Spread, IsSplit, BlocksChained, Insert, InsertAll, OnIndex;
      LastOf(all, oldPath);
      LastOf(all, newPath);
      split := None;
      if block.header.parentHash != currentBlock.header.hash {
        var r, removed := Reorg(block, all, oldPath, newPath);
        InsertLast(all, newPath, canon);
        split := Some(r);
      } else {
        OnTopOfHead(all, oldPath, newPath);
        InsertNext(canon, oldPath, newPath);
      }
      InsertCanon(HeadsView(), block);
      InsertHead(block);
    }

    /** WriteBlock, after the block's receipts were stored and before its lookups are. */
    method WriteBlock(block: Block, coin: bool) returns (status: WriteStatus, ghost split: Option<SplitResult>)
      requires ChainOk() && Writable(HeadersOf(blocks), block.header)
      requires block.header.hash in blocks ==> blocks[block.header.hash] == block
      requires block.header.parentHash in blocks ==>
        && TxsOk(blocks[block.header.hash := block], blockReceipts, genesis)
        && LookupsHold(txMeta, receipts, blocks[block.header.hash := block], blockReceipts,
                       BlockPath(blocks, genesis, currentBlock.header.hash))
      modifies this
      ensures blockReceipts == old(blockReceipts)
      ensures block.header.parentHash !in old(td) ==>
        status == NonStat && View() == old(View()) && HeadsView() == old(HeadsView())
        && blocks == old(blocks) && txMeta == old(txMeta) && receipts == old(receipts)
        && futureBlocks == old(futureBlocks)
      ensures block.header.parentHash in old(td) ==>
        && ChainOk() && Wrote(old(View()), old(HeadsView()), block, coin, status, split)
        && blocks == old(blocks)[block.header.hash := block]
        && var ours, theirs := old(td)[old(currentBlock).header.hash],
                               old(td)[block.header.parentHash] + block.header.difficulty;
        && td == old(td)[block.header.hash := theirs]
        && (status == CanonStat <==>
              || theirs > ours
              || (theirs == ours && block.header.number < old(currentBlock).header.number)
              || (theirs == ours && block.header.number == old(currentBlock).header.number && coin))
        && futureBlocks == old(futureBlocks) - {block.header.hash}
        && (status == SideStat ==> txMeta == old(txMeta) && receipts == old(receipts))
        && (status == CanonStat ==> LookupsNearly(block.header.hash))
    {
      hide LookupsHold, TxsOk, OnIndex, BlocksChained, HasWork, Moved, HeadsView, Linked, Writable;
      if block.header.parentHash !in td {
        return NonStat, None;
      }
      var localTd := td[currentBlock.header.hash];
      var externTd := block.header.difficulty + td[block.header.parentHash];
      var reorg := externTd > localTd;
      if externTd == localTd {
        reorg := block.header.number < currentBlock.header.number
              || (block.header.number == currentBlock.header.number && coin);
      }
      assert reorg == Wins(View(), block, coin) && LegalChoice(View(), block.header, reorg);
      hide Wins, Wrote, Write;
      ghost var before, heads := View(), HeadsView();
      split := StoreBlock(block, reorg);
      status := if reorg then CanonStat else SideStat;
      futureBlocks := futureBlocks - {block.header.hash};
      NowWrote(before, heads, block, coin, reorg, split);
    }

    lemma NowWrote(before: Chain, heads: Heads, block: Block, coin: bool, reorg: bool, split: Option<SplitResult>)
      requires block.header.parentHash in before.td && before.head in before.td && before.head in before.db
      requires reorg == Wins(before, block, coin) && LegalChoice(before, block.header, reorg)
      requires View() == Write(before, block.header, reorg)
      requires if reorg then Moved(heads, block, split) else HeadsView() == heads
      ensures Wrote(before, heads, block, coin, if reorg then CanonStat else SideStat, split)
      ensures td == before.td[block.header.hash := before.td[block.header.parentHash] + block.header.difficulty]
    {
      hide Moved, HeadsView;
    }

    /** The rest of WriteBlock once the choice is made: reorganise and insert if adopted, then store. */
    method StoreBlock(block: Block, reorg: bool) returns (ghost split: Option<SplitResult>)
      requires ChainOk() && Writable(HeadersOf(blocks), block.header) && block.header.parentHash in td
      requires block.header.hash in blocks ==> blocks[block.header.hash] == block
      requires LegalChoice(View(), block.header, reorg)
      requires TxsOk(blocks[block.header.hash := block], blockReceipts, genesis)
      requires LookupsHold(txMeta, receipts, blocks[block.header.hash := block], blockReceipts,
                           BlockPath(blocks, genesis, currentBlock.header.hash))
      modifies this
      ensures blockReceipts == old(blockReceipts) && blocks == old(blocks)[block.header.hash := block]
      ensures ChainOk()
      ensures View() == Write(old(View()), block.header, reorg) && futureBlocks == old(futureBlocks)
      ensures !reorg ==> txMeta == old(txMeta) && receipts == old(receipts) && HeadsView() == old(HeadsView())
      ensures reorg ==> Moved(old(HeadsView()), block, split)
      ensures reorg ==> LookupsNearly(block.header.hash)
    {
      hide LookupsHold, TxsOk, Spread, BlocksChained, HeadsMoved, HeaderLags, Insert, OnIndex, HasWork, Linked;
      ghost var before, all := View(), blocks[block.header.hash := block];
      split := None;
      WriteKeepsGood(before, block.header, reorg);
      StoredHeaders(blocks, genesis, block);
      BothWalkable(blocks, genesis, block, currentBlock.header.hash);
      var externTd := block.header.difficulty + td[block.header.parentHash];
      if reorg {
        StoredPathSpread(all, blockReceipts, genesis, currentBlock.header.hash);
        StoredPathSpread(all, blockReceipts, genesis, block.header.hash);
        ghost var oldPath, newPath := BlockPath(all, genesis, currentBlock.header.hash),
                                      BlockPath(all, genesis, block.header.hash);
        var moved := AdoptHead(block, all, oldPath, newPath);
        split := moved;
        if moved.Some? {
          NoZero(all, genesis);
          MovedHeaderLags(all, oldPath, newPath, old(HeadsView()), HeadsView(), block, moved.value);
        }
      }
      td := td[block.header.hash := externTd];
      blocks := blocks[block.header.hash := block];
      assert View() == Write(before, block.header, reorg);
    }

    /** The per-block part of InsertChain. */
    method InsertBlock(c: Incoming) returns (result: InsertResult, ghost split: Option<SplitResult>)
      requires Valid()
      requires c.otherChecks && c.block.header.parentHash in blocks ==>
        Admissible(blocks, blockReceipts, genesis, c.block, c.receipts)
      modifies this
      ensures Valid()
      ensures forall h :: h in old(td) ==> h in td && td[h] == old(td)[h]
      ensures var block, parent := c.block, c.block.header.parentHash;
        result == (if !c.sealOk then BadSeal
                   else if block.header.hash in old(blocks) && c.stateKnown then KnownBlock
                   else if parent !in old(blocks) then (if parent in old(futureBlocks) then Queued else ParentMissing)
                   else if c.future then (if c.farFuture then FarFuture else Queued)
                   else if !c.otherChecks then Rejected
                   else if block.header.number != old(blocks)[parent].header.number + 1 then BadNumber
                   else Inserted(if Wins(old(View()), block, c.coin) then CanonStat else SideStat))
      ensures futureBlocks == if result == Queued then old(futureBlocks) + {c.block.header.hash}
                              else if result.Inserted? then old(futureBlocks) - {c.block.header.hash}
                              else old(futureBlocks)
      ensures !result.Inserted? ==>
        View() == old(View()) && HeadsView() == old(HeadsView()) && blocks == old(blocks)
        && blockReceipts == old(blockReceipts)
      ensures result.Inserted? ==>
        && blocks == old(blocks)[c.block.header.hash := c.block]
        && blockReceipts == old(blockReceipts)[c.block.header.hash := c.receipts]
        && Wrote(old(View()), old(HeadsView()), c.block, c.coin, result.status, split)
    {
      hide Moved, Valid, View, HeadsView, Write, Adopts, Admissible, Good;
      split := None;
      ProcessReady(c);
      var verdict := CheckBlock(c);
      if verdict.Some? {
        return verdict.value, None;
      }
      ViewGood();
      ghost var before, heads := View(), HeadsView();
      var status;
      status, split := ProcessBlock(c.block, c.receipts, c.coin);
      WroteKeepsTd(before, heads, c.block, c.coin, status, split);
      result := Inserted(status);
    }

    /** Everything before a block is processed: it may be refused, known, or set aside for later. */
    method CheckBlock(c: Incoming) returns (r: Option<InsertResult>)
      modifies this`futureBlocks
      ensures var block, parent := c.block, c.block.header.parentHash;
        r == (if !c.sealOk then Some(BadSeal)
              else if block.header.hash in blocks && c.stateKnown then Some(KnownBlock)
              else if parent !in blocks then Some(if parent in old(futureBlocks) then Queued else ParentMissing)
              else if c.future then Some(if c.farFuture then FarFuture else Queued)
              else if !c.otherChecks then Some(Rejected)
              else if block.header.number != blocks[parent].header.number + 1 then Some(BadNumber)
              else None)
      ensures futureBlocks == old(futureBlocks) + if r == Some(Queued) then {c.block.header.hash} else {}
    {
      var block := c.block;
      if !c.sealOk {
        return Some(BadSeal);
      }
      if block.header.hash in blocks && c.stateKnown {
        return Some(KnownBlock);
      }
      if block.header.parentHash !in blocks {
        if block.header.parentHash in futureBlocks {
          futureBlocks := futureBlocks + {block.header.hash};
          return Some(Queued);
        }
        return Some(ParentMissing);
      }
      if c.future {
        if c.farFuture {
          return Some(FarFuture);
        }
        futureBlocks := futureBlocks + {block.header.hash};
        return Some(Queued);
      }
      if !c.otherChecks {
        return Some(Rejected);
      }
      if block.header.number != blocks[block.header.parentHash].header.number + 1 {
        return Some(BadNumber);
      }
      r := None;
    }

    /** A block that passes its checks on a stored parent can be written. */
    lemma ProcessReady(c: Incoming)
      requires Valid()
      requires c.otherChecks && c.block.header.parentHash in blocks ==>
        Admissible(blocks, blockReceipts, genesis, c.block, c.receipts)
      ensures currentBlock.header.hash in td && forall h :: h in blocks ==> h in td
      ensures c.otherChecks && c.block.header.parentHash in blocks
              && c.block.header.number == blocks[c.block.header.parentHash].header.number + 1 ==>
                Writable(HeadersOf(blocks), c.block.header)
    {
      hide LookupsHold, TxsOk, OnIndex, HasWork, Linked;
    }

    /** Storing the receipts, writing the block, and completing the lookups if it became canonical. */
    method ProcessBlock(block: Block, blockRcpts: seq<Receipt>, coin: bool)
      returns (status: WriteStatus, ghost split: Option<SplitResult>)
      requires Valid() && Admissible(blocks, blockReceipts, genesis, block, blockRcpts)
      requires Writable(HeadersOf(blocks), block.header) && block.header.parentHash in blocks
      modifies this
      ensures Valid()
      ensures Wrote(old(View()), old(HeadsView()), block, coin, status, split)
      ensures blocks == old(blocks)[block.header.hash := block]
      ensures futureBlocks == old(futureBlocks) - {block.header.hash}
      ensures blockReceipts == old(blockReceipts)[block.header.hash := blockRcpts]
    {
      hide LookupsHold, TxsOk, Admissible, ChainOk, Wrote, LookupsNearly, View, HeadsView, BlockPath;
      BeforeWrite(block, blockRcpts);
      blockReceipts := blockReceipts[block.header.hash := blockRcpts];
      ghost var before, heads := View(), HeadsView();
      status, split := WriteBlock(block, coin);
      HeadAfter(before, heads, block, coin, status, split);
      if status == CanonStat {
        FinishLookups(block);
      }
    }

    /** What WriteBlock needs once the block's receipts are stored. */
    lemma BeforeWrite(block: Block, blockRcpts: seq<Receipt>)
      requires Valid() && Admissible(blocks, blockReceipts, genesis, block, blockRcpts)
      requires Writable(HeadersOf(blocks), block.header) && block.header.parentHash in blocks
      ensures var all, br := blocks[block.header.hash := block], blockReceipts[block.header.hash := blockRcpts];
        && Linked(HeadersOf(blocks), genesis) && Linked(HeadersOf(all), genesis)
        && currentBlock.header.hash in blocks && block.header.parentHash in td
        && View().head == currentBlock.header.hash
        && (block.header.hash in blocks ==> blocks[block.header.hash] == block)
        && TxsOk(all, br, genesis)
        && BlockPath(all, genesis, currentBlock.header.hash) == BlockPath(blocks, genesis, currentBlock.header.hash)
        && LookupsHold(txMeta, receipts, all, br, BlockPath(blocks, genesis, currentBlock.header.hash))
    {
      hide LookupsHold, TxsOk, OnIndex, HasWork, Admissible;
      StoredTxsOk(blocks, blockReceipts, genesis, block, blockRcpts);
      LookupsStable(txMeta, receipts, blocks, blockReceipts, genesis, block, blockRcpts, currentBlock.header.hash);
      StoredHeaders(blocks, genesis, block);
      assert block.header.parentHash in HeadersOf(blocks);
    }

    /** A write keeps every stored total difficulty. */
    lemma WroteKeepsTd(before: Chain, heads: Heads, block: Block, coin: bool, status: WriteStatus,
                       split: Option<SplitResult>)
      requires Good(before) && Writable(before.db, block.header) && Wrote(before, heads, block, coin, status, split)
      ensures forall h :: h in before.td ==> h in td && td[h] == before.td[h]
    {
      hide Good;
      WriteKeepsGood(before, block.header, Wins(before, block, coin));
    }

    lemma ViewGood()
      requires Valid()
      ensures Good(View()) && View().db == HeadersOf(blocks) && View().td == td
    {
    }

    /** Which block is head after a write, with the ancestry it had before. */
    lemma HeadAfter(before: Chain, heads: Heads, block: Block, coin: bool, status: WriteStatus,
                    split: Option<SplitResult>)
      requires ChainOk() && Wrote(before, heads, block, coin, status, split)
      ensures status == CanonStat || status == SideStat
      ensures currentBlock.header.hash == if status == CanonStat then block.header.hash else before.head
      ensures Linked(HeadersOf(blocks), genesis) && currentBlock.header.hash in blocks
      ensures status == CanonStat && block.header.hash in blocks && blocks[block.header.hash] == block ==>
        currentBlock == block
    {
    }

    /** InsertChain: imports blocks in order and stops at the first failure. Every block that passes processing
        comes from one collection `world` in which no path repeats a transaction. */
    method InsertChain(chain: seq<Incoming>, ghost world: BlockDb, ghost worldReceipts: map<Hash, seq<Receipt>>)
      returns (result: ImportResult)
      requires Valid() && Within(blocks, blockReceipts, world, worldReceipts) && TxsOk(world, worldReceipts, genesis)
      requires forall c <- chain :: c.otherChecks ==>
        && c.block.header.hash in world && world[c.block.header.hash] == c.block
        && ReceiptsOf(worldReceipts, c.block.header.hash) == c.receipts
      modifies this
      ensures Valid() && Within(blocks, blockReceipts, world, worldReceipts)
      ensures result == NonContiguous <==> !Contiguous(chain)
      ensures result == NonContiguous ==> View() == old(View())
      ensures result == Imported ==>
        forall c <- chain :: c.block.header.hash in blocks || c.block.header.hash in futureBlocks
      ensures result.Interrupted? ==> result.index < |chain| && chain[result.index].interrupted
      ensures old(HeadTd()) <= HeadTd()
      ensures forall h :: h in old(td) ==> h in td && td[h] == old(td)[h]
    {
      hide Valid, TxsOk, Admissible, Within, ReceiptsOf;
      HeadHeaviest(currentBlock.header.hash);
      var ok := CheckContiguous(chain);
      if !ok {
        return NonContiguous;
      }
      var i := 0;
      while i < |chain|
        invariant 0 <= i <= |chain|
        invariant Valid() && Within(blocks, blockReceipts, world, worldReceipts)
        invariant forall k :: 0 <= k < i ==>
          chain[k].block.header.hash in blocks || chain[k].block.header.hash in futureBlocks
        invariant forall h :: h in old(td) ==> h in td && td[h] == old(td)[h]
        invariant old(HeadTd()) <= HeadTd()
      {
        var c := chain[i];
        if c.interrupted {
          return Interrupted(i);
        }
        HeadHeaviest(currentBlock.header.hash);
        if c.otherChecks && c.block.header.parentHash in blocks {
          WithinAdmissible(blocks, blockReceipts, world, worldReceipts, genesis, c.block.header.hash);
        }
        WithinStored(blocks, blockReceipts, world, worldReceipts, c.block.header.hash);
        var r, _ := InsertBlock(c);
        HeadHeaviest(old(currentBlock).header.hash);
        if !r.Inserted? && r != KnownBlock && r != Queued {
          return Failed(i, r);
        }
        i := i + 1;
      }
      result := Imported;
    }

    method FinishLookups(block: Block)
      requires Linked(HeadersOf(blocks), genesis) && block.header.hash in blocks && blocks[block.header.hash] == block
      requires TxsOk(blocks, blockReceipts, genesis)
      requires LookupsNearly(block.header.hash)
      modifies this`txMeta, this`receipts
      ensures LookupsHold(txMeta, receipts, blocks, blockReceipts, BlockPath(blocks, genesis, block.header.hash))
    {
      hide Holds, Overwritten, Spread, KeyedByTxs, KeysOf, TxRows, ReceiptRows;
      ghost var path := BlockPath(blocks, genesis, block.header.hash);
      assert TxsSound(blocks, blockReceipts, genesis, block.header.hash);
      RowsKeyed(blocks, blockReceipts, genesis);
      ghost var txs0, receipts0 := txMeta, receipts;
      WriteTransactions(block);
      WriteReceipts(ReceiptsOf(blockReceipts, block.header.hash));
      LastBlockRows(txs0, txMeta, blocks, TxRowsOf(blocks), path);
      LastBlockRows(receipts0, receipts, blocks, ReceiptRowsOf(blocks, blockReceipts), path);
    }
  }
}
