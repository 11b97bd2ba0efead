/** Transaction and receipt lookups as sets of rows (core/database_util.go): what a lookup must hold for a
    path of blocks, and what overwriting and deleting rows does to it. */
module TxIndex {
  import opened Types

  type Rows<!V(==)> = set<(Hash, V)>

  datatype TxPos = TxPos(block: Hash, number: nat, index: nat)

  /** `data` stands for everything the receipt records about that execution in that block. */
  datatype Receipt = Receipt(txHash: Hash, data: int)

  ghost function KeysOf<V>(rows: Rows<V>): set<Hash> {
    set r | r in rows :: r.0
  }

  /** The lookup holds exactly these rows. */
  ghost predicate Holds<V>(m: map<Hash, V>, rows: Rows<V>) {
    && m.Keys == KeysOf(rows)
    && forall r :: r in rows ==> r.0 in m && m[r.0] == r.1
  }

  /** `m'` is `m` with every row of `rows` written over it. */
  ghost predicate Overwritten<V>(m: map<Hash, V>, m': map<Hash, V>, rows: Rows<V>) {
    && m'.Keys == m.Keys + KeysOf(rows)
    && (forall r :: r in rows ==> r.0 in m' && m'[r.0] == r.1)
    && (forall k :: k in m && k !in KeysOf(rows) ==> m'[k] == m[k])
  }

  /** The rows WriteTransactions stores for a block. */
  ghost function TxRows(b: Block): Rows<TxPos> {
    set i | 0 <= i < |b.txs| :: (b.txs[i], TxPos(b.header.hash, b.header.number, i))
  }

  /** The rows WriteReceipts stores for a block's receipts. */
  ghost function ReceiptRows(receipts: seq<Receipt>): Rows<Receipt> {
    set i | 0 <= i < |receipts| :: (receipts[i].txHash, receipts[i])
  }

  ghost function TxSet(b: Block): set<Hash> {
    set t | t in b.txs
  }

  ghost predicate NoDuplicates(txs: seq<Hash>) {
    forall i, j :: 0 <= i < j < |txs| ==> txs[i] != txs[j]
  }

  ghost predicate ReceiptsMatch(b: Block, receipts: seq<Receipt>) {
    |receipts| == |b.txs| && forall i :: 0 <= i < |receipts| ==> receipts[i].txHash == b.txs[i]
  }

  lemma RowKeys(b: Block, receipts: seq<Receipt>)
    requires ReceiptsMatch(b, receipts)
    ensures KeysOf(TxRows(b)) == TxSet(b) == KeysOf(ReceiptRows(receipts))
  {
    forall t | t in b.txs
      ensures t in KeysOf(TxRows(b)) && t in KeysOf(ReceiptRows(receipts))
    {
      var i :| 0 <= i < |b.txs| && b.txs[i] == t;
      assert (b.txs[i], TxPos(b.header.hash, b.header.number, i)) in TxRows(b);
      assert (receipts[i].txHash, receipts[i]) in ReceiptRows(receipts);
    }
  }

  lemma HoldsIff<V>(m: map<Hash, V>, rows: Rows<V>, k: Hash, v: V)
    requires Holds(m, rows)
    ensures k in m && m[k] == v <==> (k, v) in rows
  {
    if k in m {
      assert k in KeysOf(rows);
    }
  }

  lemma TxsOverwritten(m: map<Hash, TxPos>, m': map<Hash, TxPos>, b: Block)
    requires Overwritten(m, m', TxRows(b))
    ensures forall i :: 0 <= i < |b.txs| ==>
      b.txs[i] in m' && m'[b.txs[i]] == TxPos(b.header.hash, b.header.number, i)
    ensures forall t :: t !in b.txs ==> (t in m' <==> t in m)
    ensures forall t :: t !in b.txs && t in m' ==> m'[t] == m[t]
  {
    forall i | 0 <= i < |b.txs|
      ensures b.txs[i] in m' && m'[b.txs[i]] == TxPos(b.header.hash, b.header.number, i)
    {
      assert (b.txs[i], TxPos(b.header.hash, b.header.number, i)) in TxRows(b);
    }
    assert forall r :: r in TxRows(b) ==> r.0 in b.txs;
  }

  lemma InTxRows(b: Block, t: Hash, p: TxPos)
    ensures (t, p) in TxRows(b) <==>
      exists i :: 0 <= i < |b.txs| && b.txs[i] == t && p == TxPos(b.header.hash, b.header.number, i)
  {
  }

  lemma InReceiptRows(receipts: seq<Receipt>, t: Hash, r: Receipt)
    ensures (t, r) in ReceiptRows(receipts) <==> exists i :: 0 <= i < |receipts| && receipts[i] == r && r.txHash == t
  {
  }

  /** All rows of the blocks on a path. */
  ghost function PathRows<V>(rowsOf: map<Hash, Rows<V>>, path: seq<Hash>): Rows<V>
    requires forall h <- path :: h in rowsOf
  {
    if path == [] then {} else PathRows(rowsOf, path[..|path| - 1]) + rowsOf[path[|path| - 1]]
  }

  lemma PathRowsOne<V>(rowsOf: map<Hash, Rows<V>>, h: Hash)
    requires h in rowsOf
    ensures PathRows(rowsOf, [h]) == rowsOf[h]
  {
    assert [h][..0] == [];
  }

  lemma KeysOfUnion<V>(a: Rows<V>, b: Rows<V>)
    ensures KeysOf(a + b) == KeysOf(a) + KeysOf(b)
  {
  }

  lemma {:induction false} PathRowsConcat<V>(rowsOf: map<Hash, Rows<V>>, a: seq<Hash>, b: seq<Hash>)
    requires (forall h <- a :: h in rowsOf) && (forall h <- b :: h in rowsOf)
    ensures PathRows(rowsOf, a + b) == PathRows(rowsOf, a) + PathRows(rowsOf, b)
  {
    if b == [] {
      assert a + b == a;
    } else {
      var n := |b| - 1;
      PathRowsConcat(rowsOf, a, b[..n]);
      assert (a + b)[..|a| + n] == a + b[..n];
    }
  }

  lemma {:induction false} PathRowsStable<V>(rowsOf: map<Hash, Rows<V>>, rowsOf': map<Hash, Rows<V>>, path: seq<Hash>)
    requires forall h <- path :: h in rowsOf && h in rowsOf' && rowsOf'[h] == rowsOf[h]
    ensures PathRows(rowsOf', path) == PathRows(rowsOf, path)
  {
    if path != [] {
      PathRowsStable(rowsOf, rowsOf', path[..|path| - 1]);
    }
  }

  lemma {:induction false} InPathRows<V>(rowsOf: map<Hash, Rows<V>>, path: seq<Hash>, r: (Hash, V))
    requires forall h <- path :: h in rowsOf
    ensures r in PathRows(rowsOf, path) <==> exists i :: 0 <= i < |path| && r in rowsOf[path[i]]
  {
    if path != [] {
      var n := |path| - 1;
      InPathRows(rowsOf, path[..n], r);
      if exists i :: 0 <= i < |path| && r in rowsOf[path[i]] {
        var i :| 0 <= i < |path| && r in rowsOf[path[i]];
        if i < n {
          assert path[..n][i] == path[i];
        }
      }
      if r in PathRows(rowsOf, path[..n]) {
        var i :| 0 <= i < n && r in rowsOf[path[..n][i]];
        assert r in rowsOf[path[i]];
      }
    }
  }

  lemma OverwrittenTwice<V>(m: map<Hash, V>, m1: map<Hash, V>, m2: map<Hash, V>, a: Rows<V>, b: Rows<V>)
    requires Overwritten(m, m1, a) && Overwritten(m1, m2, b)
    requires KeysOf(a) !! KeysOf(b)
    ensures Overwritten(m, m2, a + b)
  {
    KeysOfUnion(a, b);
    forall r | r in a
      ensures r.0 in m2 && m2[r.0] == r.1
    {
      assert r.0 in KeysOf(a);
    }
  }

  /** Writing the rows of the adopted blocks and deleting the keys that only the abandoned blocks had turns a
      lookup of `shared + abandoned` into one of `shared + adopted`. */
  lemma RowsAfterReorg<V>(m: map<Hash, V>, m1: map<Hash, V>, shared: Rows<V>, abandoned: Rows<V>, adopted: Rows<V>)
    requires Holds(m, shared + abandoned) && Overwritten(m, m1, adopted)
    requires KeysOf(shared) !! KeysOf(abandoned) && KeysOf(shared) !! KeysOf(adopted)
    ensures Holds(m1 - (KeysOf(abandoned) - KeysOf(adopted)), shared + adopted)
  {
    var m2 := m1 - (KeysOf(abandoned) - KeysOf(adopted));
    assert KeysOf(shared + abandoned) == KeysOf(shared) + KeysOf(abandoned);
    assert KeysOf(shared + adopted) == KeysOf(shared) + KeysOf(adopted);
    forall r | r in shared + adopted
      ensures r.0 in m2 && m2[r.0] == r.1
    {
      if r in adopted {
        assert r.0 in KeysOf(adopted);
      } else {
        assert r.0 in KeysOf(shared);
        assert r in shared + abandoned;
      }
    }
  }

  /** Writing a block's own rows over a lookup that has them, or lacks just them, completes it. */
  lemma CompleteRows<V>(m: map<Hash, V>, m': map<Hash, V>, shared: Rows<V>, last: Rows<V>)
    requires KeysOf(shared) !! KeysOf(last)
    requires Holds(m, shared + last) || Holds(m, shared)
    requires Overwritten(m, m', last)
    ensures Holds(m', shared + last)
  {
    assert KeysOf(shared + last) == KeysOf(shared) + KeysOf(last);
    forall r | r in shared + last
      ensures r.0 in m' && m'[r.0] == r.1
    {
      if r !in last {
        assert r.0 in KeysOf(shared);
      }
    }
  }

  ghost function TxsAt(blocks: BlockDb, h: Hash): set<Hash> {
    if h in blocks then TxSet(blocks[h]) else {}
  }

  /** No transaction occurs in two blocks of the path. */
  ghost predicate Spread(blocks: BlockDb, path: seq<Hash>) {
    forall i, k :: 0 <= i < k < |path| ==> TxsAt(blocks, path[i]) !! TxsAt(blocks, path[k])
  }

  ghost function TxsOn(blocks: BlockDb, path: seq<Hash>): set<Hash> {
    set i, t | 0 <= i < |path| && t in TxsAt(blocks, path[i]) :: t
  }

  /** Each block's rows are keyed by exactly its transactions. */
  ghost predicate KeyedByTxs<V>(blocks: BlockDb, rowsOf: map<Hash, Rows<V>>) {
    rowsOf.Keys == blocks.Keys && forall h :: h in blocks ==> KeysOf(rowsOf[h]) == TxSet(blocks[h])
  }

  lemma PathKeys<V>(blocks: BlockDb, rowsOf: map<Hash, Rows<V>>, path: seq<Hash>)
    requires KeyedByTxs(blocks, rowsOf) && forall h <- path :: h in blocks
    ensures KeysOf(PathRows(rowsOf, path)) == TxsOn(blocks, path)
  {
    forall t | t in KeysOf(PathRows(rowsOf, path))
      ensures t in TxsOn(blocks, path)
    {
      var r :| r in PathRows(rowsOf, path) && r.0 == t;
      InPathRows(rowsOf, path, r);
      var i :| 0 <= i < |path| && r in rowsOf[path[i]];
      assert t in KeysOf(rowsOf[path[i]]);
      assert t in TxsAt(blocks, path[i]);
    }
    forall t | t in TxsOn(blocks, path)
      ensures t in KeysOf(PathRows(rowsOf, path))
    {
      var i :| 0 <= i < |path| && t in TxsAt(blocks, path[i]);
      assert t in KeysOf(rowsOf[path[i]]);
      var r :| r in rowsOf[path[i]] && r.0 == t;
      InPathRows(rowsOf, path, r);
    }
  }

  /** On a spread path the rows of two disjoint stretches have no key in common. */
  lemma StretchesDisjoint<V>(blocks: BlockDb, rowsOf: map<Hash, Rows<V>>, path: seq<Hash>, lo: nat, mid: nat, hi: nat)
    requires KeyedByTxs(blocks, rowsOf) && (forall h <- path :: h in blocks) && Spread(blocks, path)
    requires lo <= mid <= hi <= |path|
    ensures KeysOf(PathRows(rowsOf, path[lo..mid])) !! KeysOf(PathRows(rowsOf, path[mid..hi]))
  {
    PathKeys(blocks, rowsOf, path[lo..mid]);
    PathKeys(blocks, rowsOf, path[mid..hi]);
    forall t | t in TxsOn(blocks, path[lo..mid])
      ensures t !in TxsOn(blocks, path[mid..hi])
    {
      var i :| 0 <= i < mid - lo && t in TxsAt(blocks, path[lo..mid][i]);
      assert path[lo..mid][i] == path[lo + i];
      forall k | 0 <= k < hi - mid
        ensures t !in TxsAt(blocks, path[mid..hi][k])
      {
        assert path[mid..hi][k] == path[mid + k];
      }
    }
  }
}
