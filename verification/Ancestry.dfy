/** Reference notions for fork choice: the ancestry of a header, the number index it induces, and the
    total difficulty along it. The chain classes are proved against these; none of them mentions a loop,
    a cache or an update. */
module Ancestry {
  import opened Types

  type HeaderDb = map<Hash, Header>

  /** Every stored header except genesis has its parent stored, one number below it. */
  ghost predicate Linked(db: HeaderDb, genesis: Hash) {
    && genesis in db && ZERO_HASH !in db
    && db[genesis].number == 0 && db[genesis].parentHash == ZERO_HASH
    && (forall h :: h in db ==> db[h].hash == h)
    && (forall h {:trigger HasParent(db, h)} :: h in db && h != genesis ==> HasParent(db, h))
  }

  ghost predicate HasParent(db: HeaderDb, h: Hash)
    requires h in db
  {
    db[h].parentHash in db && db[h].number == db[db[h].parentHash].number + 1
  }

  /** The hashes from genesis up to and including `h`. */
  ghost function Path(db: HeaderDb, genesis: Hash, h: Hash): seq<Hash>
    requires Linked(db, genesis) && h in db
    decreases db[h].number
  {
    if h == genesis then [h] else
      assert HasParent(db, h);
      Path(db, genesis, db[h].parentHash) + [h]
  }

  /** Stored headers numbered by position, each the parent of the next. */
  ghost predicate Chained(db: HeaderDb, path: seq<Hash>) {
    && (forall i :: 0 <= i < |path| ==> path[i] in db && db[path[i]].number == i)
    && (forall i, j :: 0 <= i < j < |path| && j == i + 1 ==> db[path[j]].parentHash == path[i])
  }

  /** Two chained sequences that share a hash at one number agree at every number below it. */
  lemma {:induction false} ChainedMerge(db: HeaderDb, a: seq<Hash>, b: seq<Hash>, n: nat)
    requires Chained(db, a) && Chained(db, b)
    requires n < |a| && n < |b| && a[n] == b[n]
    ensures forall i :: 0 <= i <= n ==> a[i] == b[i]
  {
    if n > 0 {
      ChainedMerge(db, a, b, n - 1);
    }
  }

  function GetCanonicalHash(canon: map<nat, Hash>, number: nat): Hash {
    if number in canon then canon[number] else ZERO_HASH
  }

  /** The number index that makes exactly `path` canonical. */
  ghost function Index(path: seq<Hash>): map<nat, Hash> {
    map n: nat | 0 <= n < |path| :: path[n]
  }

  ghost function Work(db: HeaderDb, path: seq<Hash>): nat
    requires forall h <- path :: h in db
  {
    if path == [] then 0 else Work(db, path[..|path| - 1]) + db[path[|path| - 1]].difficulty
  }

  /** The total difficulty of `h` by definition: the work along its whole ancestry. */
  ghost function TotalWork(db: HeaderDb, genesis: Hash, h: Hash): nat
    requires Linked(db, genesis) && h in db
  {
    PathShape(db, genesis, h);
    Work(db, Path(db, genesis, h))
  }

  lemma {:induction false} PathShape(db: HeaderDb, genesis: Hash, h: Hash)
    requires Linked(db, genesis) && h in db
    ensures var p := Path(db, genesis, h);
      && |p| == db[h].number + 1 && p[0] == genesis && p[db[h].number] == h
      && Chained(db, p)
    decreases db[h].number
  {
    if h != genesis {
      assert HasParent(db, h);
      PathShape(db, genesis, db[h].parentHash);
    }
  }

  lemma GenesisWork(db: HeaderDb, genesis: Hash)
    requires Linked(db, genesis) && genesis in db
    ensures TotalWork(db, genesis, genesis) == db[genesis].difficulty
  {
    assert Path(db, genesis, genesis) == [genesis] && [genesis][..0] == [];
    assert Work(db, []) == 0 && Work(db, [genesis]) == Work(db, [genesis][..0]) + db[genesis].difficulty;
  }

  lemma ChildWork(db: HeaderDb, genesis: Hash, h: Hash)
    requires Linked(db, genesis) && h in db && h != genesis
    ensures db[h].parentHash in db
    ensures TotalWork(db, genesis, h) == TotalWork(db, genesis, db[h].parentHash) + db[h].difficulty
  {
    assert HasParent(db, h);
    var p := Path(db, genesis, db[h].parentHash);
    PathShape(db, genesis, db[h].parentHash);
    assert Path(db, genesis, h) == p + [h] && (p + [h])[..|p|] == p;
  }

  lemma ParentOnPath(db: HeaderDb, genesis: Hash, h: Hash)
    requires Linked(db, genesis) && h in db && h != genesis
    ensures 0 < db[h].number == |Path(db, genesis, h)| - 1
    ensures db[h].parentHash == Path(db, genesis, h)[db[h].number - 1]
  {
    assert HasParent(db, h);
    PathShape(db, genesis, h);
    PathShape(db, genesis, db[h].parentHash);
  }

  /** The ancestry of an ancestor is a prefix of the ancestry. */
  lemma {:induction false} PathPrefix(db: HeaderDb, genesis: Hash, h: Hash, n: nat)
    requires Linked(db, genesis) && h in db && n <= db[h].number
    ensures |Path(db, genesis, h)| == db[h].number + 1
    ensures Path(db, genesis, h)[n] in db
    ensures Path(db, genesis, Path(db, genesis, h)[n]) == Path(db, genesis, h)[..n + 1]
    decreases db[h].number
  {
    PathShape(db, genesis, h);
    var p := Path(db, genesis, h);
    if n == db[h].number {
      assert p[..n + 1] == p;
    } else {
      assert h != genesis;
      assert HasParent(db, h);
      PathPrefix(db, genesis, db[h].parentHash, n);
      PathShape(db, genesis, db[h].parentHash);
    }
  }

  /** Storing more headers changes no existing ancestry. */
  lemma {:induction false} PathStable(db: HeaderDb, bigger: HeaderDb, genesis: Hash, h: Hash)
    requires Linked(db, genesis) && Linked(bigger, genesis) && h in db
    requires forall k :: k in db ==> k in bigger && bigger[k] == db[k]
    ensures Path(bigger, genesis, h) == Path(db, genesis, h)
    decreases db[h].number
  {
    if h != genesis {
      assert HasParent(db, h);
      PathStable(db, bigger, genesis, db[h].parentHash);
    }
  }

  lemma {:induction false} WorkStable(db: HeaderDb, bigger: HeaderDb, path: seq<Hash>)
    requires forall h <- path :: h in db && h in bigger && bigger[h] == db[h]
    ensures Work(bigger, path) == Work(db, path)
  {
    if path != [] {
      WorkStable(db, bigger, path[..|path| - 1]);
    }
  }

  lemma {:induction false} WorkGrows(db: HeaderDb, path: seq<Hash>, n: nat)
    requires (forall h <- path :: h in db) && n <= |path|
    ensures Work(db, path[..n]) <= Work(db, path)
  {
    var last := |path| - 1;
    if n == |path| {
      assert path[..n] == path;
    } else {
      WorkGrows(db, path[..last], n);
      assert path[..last][..n] == path[..n];
    }
  }
}
