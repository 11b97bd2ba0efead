/** The header-only chain (core/headerchain.go): total difficulties, the number index and the head header,
    updated in place as headers arrive. */
module HeaderChain {
  import opened Types
  import opened Ancestry
  import opened ForkChoice

  datatype WriteResult = Written(status: WriteStatus) | ParentError(parent: Hash)

  /** The choice at the end of WriteHeader: strictly heavier, or equal and the coin says so. */
  predicate Adopts(externTd: nat, localTd: nat, coin: bool) {
    externTd > localTd || (externTd == localTd && coin)
  }

  lemma StoringMovesNoPath(db: HeaderDb, genesis: Hash, header: Header, h: Hash)
    requires Linked(db, genesis) && Writable(db, header) && header.parentHash in db && h in db
    ensures header.hash != genesis
    ensures Linked(db[header.hash := header], genesis)
    ensures Path(db[header.hash := header], genesis, h) == Path(db, genesis, h)
  {
    LinkedAfterWrite(db, genesis, header);
    PathStable(db, db[header.hash := header], genesis, h);
  }

  ghost function Above(path: seq<Hash>, n: nat): set<Hash> {
    set i | n < i < |path| :: path[i]
  }

  ghost function Kept(path: seq<Hash>, head: nat): seq<Hash> {
    if head + 1 < |path| then path[..head + 1] else path
  }

  lemma AboveStep(path: seq<Hash>, n: nat)
    requires 0 < n < |path|
    ensures Above(path, n - 1) == Above(path, n) + {path[n]}
  {
    forall h | h in Above(path, n - 1)
      ensures h in Above(path, n) + {path[n]}
    {
      var i :| n - 1 < i < |path| && path[i] == h;
    }
  }

  lemma NotAbove(db: HeaderDb, path: seq<Hash>, n: nat)
    requires Chained(db, path) && n < |path|
    ensures path[n] !in Above(path, n)
  {
  }

  /** What a rewind to `head` leaves: the canonical headers above it are gone, side headers stay. */
  ghost function Rewind(c: Chain, path: seq<Hash>, head: nat): Chain
    requires path != []
  {
    var kept := Kept(path, head);
    Chain(c.db - Above(path, |kept| - 1), c.td - Above(path, |kept| - 1), c.genesis, kept[|kept| - 1])
  }

  /** The canonical header of some number above `head`. */
  ghost predicate CanonicalAbove(canon: map<nat, Hash>, head: nat, h: Hash) {
    exists n :: n in canon && n > head && canon[n] == h
  }

  lemma RewindOutright(c: Chain, path: seq<Hash>, head: nat, canon: map<nat, Hash>)
    requires path != [] && canon == Index(path)
    ensures |Kept(path, head)| - 1 == if head < |path| - 1 then head else |path| - 1
    ensures Kept(path, head) <= path
    ensures forall n :: n in Index(Kept(path, head)) <==> n in canon && n <= head
    ensures forall n :: n in Index(Kept(path, head)) ==> Index(Kept(path, head))[n] == canon[n]
    ensures forall h :: h in Rewind(c, path, head).db <==> h in c.db && !CanonicalAbove(canon, head, h)
  {
    var kept := Kept(path, head);
    forall h
      ensures h in Above(path, |kept| - 1) <==> CanonicalAbove(canon, head, h)
    {
      if h in Above(path, |kept| - 1) {
        var i :| |kept| - 1 < i < |path| && path[i] == h;
        assert canon[i] == h;
      }
      if CanonicalAbove(canon, head, h) {
        var n :| n in canon && n > head && canon[n] == h;
        assert path[n] == h;
      }
    }
  }

  /** No side header hangs off a header the rewind removes, and none outweighs the new head. */
  ghost predicate RewindSafe(c: Chain, path: seq<Hash>, head: nat)
    requires path != [] && forall h <- path :: h in c.td
  {
    var kept := Kept(path, head);
    forall h :: h in c.db && h in c.td && h !in path ==>
      c.db[h].parentHash !in Above(path, |kept| - 1) && c.td[h] <= c.td[kept[|kept| - 1]]
  }

  /** Work never falls along the canonical path. */
  lemma PathTd(c: Chain, path: seq<Hash>, i: nat, n: nat)
    requires Good(c) && path == Path(c.db, c.genesis, c.head) && i <= n < |path|
    ensures path[i] in c.td && path[n] in c.td && c.td[path[i]] <= c.td[path[n]]
  {
    PathShape(c.db, c.genesis, c.head);
    PathPrefix(c.db, c.genesis, c.head, i);
    PathPrefix(c.db, c.genesis, c.head, n);
    assert HasWork(c, path[i]) && HasWork(c, path[n]);
    WorkGrows(c.db, path[..n + 1], i + 1);
    assert path[..n + 1][..i + 1] == path[..i + 1];
  }

  lemma KeptParents(c: Chain, path: seq<Hash>, n: nat, h: Hash)
    requires Linked(c.db, c.genesis) && c.head in c.db && path == Path(c.db, c.genesis, c.head)
    requires n < |path| && h in path && h !in Above(path, n)
    ensures h in c.db && c.db[h].parentHash !in Above(path, n)
  {
    PathShape(c.db, c.genesis, c.head);
    var i :| 0 <= i < |path| && path[i] == h;
    assert forall x :: x in Above(path, n) ==> x in c.db && c.db[x].number > n;
    if i > 0 {
      assert c.db[h].parentHash == path[i - 1];
    }
  }

  /** A rewind leaves a sound chain exactly when it is safe in that sense. */
  lemma RewindGoodIff(c: Chain, head: nat, path: seq<Hash>)
    requires Good(c) && path == Path(c.db, c.genesis, c.head)
    ensures path != [] && (forall h <- path :: h in c.td)
    ensures Good(Rewind(c, path, head)) <==> RewindSafe(c, path, head)
  {
    PathShape(c.db, c.genesis, c.head);
    if Good(Rewind(c, path, head)) {
      RewindWasSafe(c, head, path);
    }
    if RewindSafe(c, path, head) {
      RewindGood(c, head, path);
    }
  }

  lemma RewindWasSafe(c: Chain, head: nat, path: seq<Hash>)
    requires Good(c) && path == Path(c.db, c.genesis, c.head)
    requires path != [] && (forall h <- path :: h in c.td) && Good(Rewind(c, path, head))
    ensures RewindSafe(c, path, head)
  {
    hide HasWork, Path;
    PathShape(c.db, c.genesis, c.head);
    var n := |Kept(path, head)| - 1;
    var removed := Above(path, n);
    var r := Rewind(c, path, head);
    NotAbove(c.db, path, n);
    assert Kept(path, head)[n] == path[n] == r.head;
    forall h | h in c.db && h in c.td && h !in path
      ensures c.db[h].parentHash !in removed && c.td[h] <= c.td[path[n]]
    {
      assert h !in removed && h in r.td;
      assert h != c.genesis;
      assert HasParent(r.db, h);
    }
  }

  lemma RewindLinked(c: Chain, head: nat, path: seq<Hash>)
    requires Good(c) && path == Path(c.db, c.genesis, c.head)
    requires path != [] && (forall h <- path :: h in c.td) && RewindSafe(c, path, head)
    ensures Linked(Rewind(c, path, head).db, c.genesis)
  {
    hide HasWork, Path;
    PathShape(c.db, c.genesis, c.head);
    var n := |Kept(path, head)| - 1;
    var r := Rewind(c, path, head);
    assert c.genesis !in Above(path, n);
    forall h | h in r.db && h != c.genesis
      ensures HasParent(r.db, h)
    {
      assert HasParent(c.db, h);
      if h in path {
        KeptParents(c, path, n, h);
      }
    }
  }

  lemma RewindKeepsWork(c: Chain, head: nat, path: seq<Hash>, h: Hash)
    requires Good(c) && path != [] && Linked(Rewind(c, path, head).db, c.genesis) && h in Rewind(c, path, head).db
    ensures h in Rewind(c, path, head).td && HasWork(Rewind(c, path, head), h)
  {
    var r := Rewind(c, path, head);
    assert HasWork(c, h);
    PathStable(r.db, c.db, c.genesis, h);
    PathShape(r.db, c.genesis, h);
    WorkStable(r.db, c.db, Path(r.db, c.genesis, h));
  }

  lemma RewindGood(c: Chain, head: nat, path: seq<Hash>)
    requires Good(c) && path == Path(c.db, c.genesis, c.head)
    requires path != [] && (forall h <- path :: h in c.td) && RewindSafe(c, path, head)
    ensures Good(Rewind(c, path, head))
  {
    hide HasWork, Linked, Path, HasParent;
    RewindLinked(c, head, path);
    PathShape(c.db, c.genesis, c.head);
    var n := |Kept(path, head)| - 1;
    var r := Rewind(c, path, head);
    NotAbove(c.db, path, n);
    assert Kept(path, head)[n] == path[n] == r.head;
    forall h | h in r.db
      ensures h in r.td && HasWork(r, h) && r.td[h] <= r.td[r.head]
    {
      RewindKeepsWork(c, head, path, h);
      if h in path {
        var i :| 0 <= i < |path| && path[i] == h;
        assert i <= n;
        PathTd(c, path, i, n);
      }
    }
  }

  lemma TwoChildren(g: Header, a: Header, b: Header)
    requires IsGenesis(g) && a.parentHash == b.parentHash == g.hash && a.number == b.number == 1
    requires a.hash != ZERO_HASH && b.hash != ZERO_HASH && g.hash != a.hash && g.hash != b.hash && a.hash != b.hash
    requires a.difficulty < b.difficulty
    ensures LegalRun(Genesis(g), [Step(a, true), Step(b, true)])
    ensures var c := Run(Genesis(g), [Step(a, true), Step(b, true)]);
      && c.db == map[g.hash := g, a.hash := a, b.hash := b] && c.genesis == g.hash && c.head == b.hash
      && c.td == map[g.hash := g.difficulty, a.hash := g.difficulty + a.difficulty,
                     b.hash := g.difficulty + b.difficulty]
  {
    var c1 := Write(Genesis(g), a, true);
    var last := [Step(b, true)];
    assert [Step(a, true), Step(b, true)][1..] == last;
    assert last[1..] == [];
    assert Run(c1, last) == Write(c1, b, true) && LegalRun(c1, last);
  }

  /** A rewind can leave a side header that outweighs the new head: two children of genesis, the heavier adopted,
      rewound to genesis. */
  lemma RewindCanFail(g: Header, a: Header, b: Header)
    requires IsGenesis(g) && a.parentHash == b.parentHash == g.hash && a.number == b.number == 1
    requires a.hash != ZERO_HASH && b.hash != ZERO_HASH && g.hash != a.hash && g.hash != b.hash && a.hash != b.hash
    requires 0 < a.difficulty < b.difficulty
    ensures var c := Run(Genesis(g), [Step(a, true), Step(b, true)]);
      && LegalRun(Genesis(g), [Step(a, true), Step(b, true)]) && Good(c)
      && Path(c.db, c.genesis, c.head) == [g.hash, b.hash] && !Good(Rewind(c, [g.hash, b.hash], 0))
  {
    hide Run, LegalRun, HasWork;
    var steps := [Step(a, true), Step(b, true)];
    TwoChildren(g, a, b);
    EveryRunFollowsHeaviest(g, steps);
    var c, path := Run(Genesis(g), steps), [g.hash, b.hash];
    assert Path(c.db, g.hash, g.hash) == [g.hash];
    assert path[1] == b.hash;
    assert Above(path, 0) == {b.hash};
    assert Kept(path, 0) == [g.hash];
    assert Path(c.db, g.hash, b.hash) == path;
    var r := Rewind(c, path, 0);
    assert r.head == g.hash && a.hash in r.td && r.td[a.hash] > r.td[r.head];
  }

  class HeaderChain {
    var headers: HeaderDb
    var td: map<Hash, nat>
    var canon: map<nat, Hash>
    const genesis: Hash
    var currentHeader: Header
    var currentHeaderHash: Hash

    ghost function View(): Chain
      reads this
    {
      Chain(headers, td, genesis, currentHeaderHash)
    }

    /** The number index is exactly the ancestry of the head: gap free, parent linked, nothing above the head. */
    ghost predicate Valid()
      reads this
    {
      && Good(View())
      && headers[currentHeaderHash] == currentHeader
      && canon == Index(Path(headers, genesis, currentHeaderHash))
    }

    /** Read off the database: a number is assigned exactly up to the head's, it is the number of its header, and each
        canonical header is the child of the one below. */
    lemma CanonIsAncestry(n: nat)
      requires Valid()
      ensures n in canon <==> n <= currentHeader.number
      ensures n in canon ==> canon[n] in headers && headers[canon[n]].number == n && headers[canon[n]].hash == canon[n]
      ensures 0 in canon && canon[0] == genesis
      ensures currentHeader.number in canon && canon[currentHeader.number] == currentHeaderHash
      ensures 0 < n <= currentHeader.number ==>
        n - 1 in canon && n in canon && canon[n] in headers && headers[canon[n]].parentHash == canon[n - 1]
    {
      hide HasWork, Path;
      PathShape(headers, genesis, currentHeaderHash);
    }

    /** Total difficulties add up from genesis along parents, and none passes the head's. */
    lemma DifficultiesAddUp(h: Hash)
      requires Valid()
      ensures h in headers <==> h in td
      ensures genesis in td && genesis in headers && td[genesis] == headers[genesis].difficulty
      ensures h in headers && h != genesis ==>
        headers[h].parentHash in td && td[h] == td[headers[h].parentHash] + headers[h].difficulty
      ensures h in td ==> td[h] <= td[currentHeaderHash]
    {
      hide Index;
      assert HasWork(View(), genesis);
      GenesisWork(headers, genesis);
      if h in headers && h != genesis {
        assert HasParent(headers, h) && HasWork(View(), h) && HasWork(View(), headers[h].parentHash);
        ChildWork(headers, genesis, h);
      }
    }

    constructor (g: Header)
      requires IsGenesis(g)
      ensures Valid()
      ensures View() == Genesis(g)
    {
      headers, td, canon := map[g.hash := g], map[g.hash := g.difficulty], map[0 := g.hash];
      genesis, currentHeader, currentHeaderHash := g.hash, g, g.hash;
      new;
      GenesisGood(g);
    }

    method WriteHeader(header: Header, coin: bool) returns (result: WriteResult)
      requires Valid() && Writable(headers, header)
      modifies this
      ensures Valid()
      ensures header.parentHash !in old(td) ==> result == ParentError(header.parentHash) && View() == old(View())
      ensures header.parentHash in old(td) ==>
        var adopt := Adopts(old(td)[header.parentHash] + header.difficulty, old(td)[old(currentHeaderHash)], coin);
        && LegalChoice(old(View()), header, adopt)
        && View() == Write(old(View()), header, adopt)
        && result == Written(if adopt then CanonStat else SideStat)
      ensures header.parentHash in old(td) ==>
        var ours, theirs := old(td)[old(currentHeaderHash)], old(td)[header.parentHash] + header.difficulty;
        && headers == old(headers)[header.hash := header] && td == old(td)[header.hash := theirs]
        && (theirs > ours || (theirs == ours && coin) ==> currentHeaderHash == header.hash)
        && (theirs < ours || (theirs == ours && !coin) ==> currentHeaderHash == old(currentHeaderHash))
    {
      hide HasWork, Index;
      if header.parentHash !in td {
        return ParentError(header.parentHash);
      }
      ghost var before := View();
      var ptd := td[header.parentHash];
      var localTd := td[currentHeaderHash];
      var externTd := header.difficulty + ptd;
      ghost var adopt := Adopts(externTd, localTd, coin);
      WriteKeepsGood(before, header, adopt);
      StoringMovesNoPath(headers, genesis, header, currentHeaderHash);

      td := td[header.hash := externTd];
      headers := headers[header.hash := header];

      if externTd > localTd || (externTd == localTd && coin) {
        AdoptHeader(header);
        result := Written(CanonStat);
      } else {
        result := Written(SideStat);
      }
    }

    /** The canonical branch of WriteHeader: the index is rewritten to the ancestry of the new head. */
    method AdoptHeader(header: Header)
      requires Linked(headers, genesis) && currentHeaderHash in headers
      requires header.hash in headers && headers[header.hash] == header && header.hash != genesis
      requires canon == Index(Path(headers, genesis, currentHeaderHash))
      modifies this`canon, this`currentHeader, this`currentHeaderHash
      ensures canon == Index(Path(headers, genesis, header.hash))
      ensures currentHeader == header && currentHeaderHash == header.hash
    {
      hide Chained;
      PathShape(headers, genesis, currentHeaderHash);
      PathShape(headers, genesis, header.hash);
      ParentOnPath(headers, genesis, header.hash);
      TruncateAbove(header.number);
      Reroute(header, Path(headers, genesis, currentHeaderHash), Path(headers, genesis, header.hash));
      canon := canon[header.number := header.hash];
      currentHeaderHash, currentHeader := header.hash, header;
    }

    /** Deletes the assignments above `number`; stops at the first number that has none. */
    method TruncateAbove(number: nat)
      requires Linked(headers, genesis) && currentHeaderHash in headers
      requires canon == Index(Path(headers, genesis, currentHeaderHash))
      modifies this`canon
      ensures forall n :: n in canon <==> n in old(canon) && n <= number
      ensures forall n :: n in canon ==> canon[n] == old(canon)[n]
    {
      PathShape(headers, genesis, currentHeaderHash);
      ghost var top := headers[currentHeaderHash].number;
      var i := number + 1;
      while GetCanonicalHash(canon, i) != ZERO_HASH
        invariant number < i
        invariant forall n :: n in canon <==> n in old(canon) && (n <= number || n >= i)
        invariant forall n :: n in canon ==> canon[n] == old(canon)[n]
        decreases top + 1 - i
      {
        canon := canon - {i};
        i := i + 1;
      }
      assert forall n | n in old(canon) && n >= i :: i in canon;
    }

    /** Walks down from the new header's parent, overwriting assignments until one already agrees.
        `local` is the old canonical path and `path` the ancestry of the new header. */
    method Reroute(header: Header, ghost local: seq<Hash>, ghost path: seq<Hash>)
      requires Chained(headers, local) && Chained(headers, path) && ZERO_HASH !in headers
      requires 0 < header.number == |path| - 1 && header.parentHash == path[header.number - 1]
      requires local != [] && local[0] == path[0]
      requires forall n: nat :: n in canon <==> n < |local| && n <= header.number
      requires forall n :: n in canon ==> canon[n] == local[n]
      modifies this`canon
      ensures forall n :: n in canon ==> n <= header.number
      ensures forall n :: 0 <= n < header.number ==> n in canon && canon[n] == path[n]
    {
      var headHash := header.parentHash;
      var headNumber := headers[headHash].number;
      while GetCanonicalHash(canon, headNumber) != headHash
        invariant 0 <= headNumber < header.number
        invariant headHash == path[headNumber]
        invariant forall n :: n in canon ==> n <= header.number
        invariant forall n :: n in canon && n <= headNumber ==> n < |local| && canon[n] == local[n]
        invariant forall n :: 0 <= n <= headNumber && n < |local| ==> n in canon
        invariant forall n :: headNumber < n < header.number ==> n in canon && canon[n] == path[n]
        decreases headNumber
      {
        assert 0 in canon && canon[0] == path[0];
        assert path[headNumber - 1] in headers;
        canon := canon[headNumber := headHash];
        headHash := headers[headHash].parentHash;
        headNumber := headers[headHash].number;
      }
      ChainedMerge(headers, local, path, headNumber);
    }

    /** Rewinds to number `head`: deletes the canonical headers above it, then their numbers. */
    method SetHead(head: nat)
      requires Valid()
      modifies this
      ensures var path := old(Path(headers, genesis, currentHeaderHash));
        && View() == Rewind(old(View()), path, head)
        && canon == Index(Kept(path, head))
        && currentHeaderHash in old(headers) && currentHeader == old(headers)[currentHeaderHash]
      ensures currentHeader.number == if head < old(currentHeader.number) then head else old(currentHeader.number)
      ensures forall n :: n in canon <==> n in old(canon) && n <= head
      ensures forall n :: n in canon ==> canon[n] == old(canon)[n]
      ensures forall h :: h in headers <==> h in old(headers) && !CanonicalAbove(old(canon), head, h)
    {
      ghost var path := Path(headers, genesis, currentHeaderHash);
      PathShape(headers, genesis, currentHeaderHash);
      RewindOutright(View(), path, head, canon);
      hide Index, Rewind, Kept, CanonicalAbove, Good;
      RemoveAbove(head);
    }

    method RemoveAbove(head: nat)
      requires Valid()
      modifies this
      ensures var path := old(Path(headers, genesis, currentHeaderHash));
        && View() == Rewind(old(View()), path, head)
        && canon == Index(Kept(path, head))
        && currentHeaderHash in old(headers) && currentHeader == old(headers)[currentHeaderHash]
    {
      ghost var path := Path(headers, genesis, currentHeaderHash);
      PathShape(headers, genesis, currentHeaderHash);
      var height := currentHeader.number;
      DeleteHeadersAbove(head, path);
      DeleteNumbersAbove(height, head);
      currentHeaderHash := currentHeader.hash;
    }

    method DeleteHeadersAbove(head: nat, ghost path: seq<Hash>)
      requires Chained(headers, path) && currentHeader.number == |path| - 1
      requires currentHeader.hash == path[currentHeader.number] && headers[currentHeader.hash] == currentHeader
      requires forall h :: h in headers ==> headers[h].hash == h
      modifies this`headers, this`td, this`currentHeader
      ensures var n := |Kept(path, head)| - 1;
        && headers == old(headers) - Above(path, n)
        && td == old(td) - Above(path, n)
        && currentHeader == old(headers)[path[n]]
    {
      assert Above(path, currentHeader.number) == {};
      while currentHeader.number > head
        invariant currentHeader.number < |path|
        invariant currentHeader.number == |path| - 1 || head <= currentHeader.number
        invariant currentHeader == old(headers)[path[currentHeader.number]]
        invariant headers == old(headers) - Above(path, currentHeader.number)
        invariant td == old(td) - Above(path, currentHeader.number)
        decreases currentHeader.number
      {
        var hash := currentHeader.hash;
        AboveStep(path, currentHeader.number);
        headers := headers - {hash};
        td := td - {hash};
        NotAbove(old(headers), path, currentHeader.number - 1);
        currentHeader := headers[currentHeader.parentHash];
      }
    }

    method DeleteNumbersAbove(height: nat, head: nat)
      requires forall n :: n in canon ==> n <= height
      modifies this`canon
      ensures canon == map n | n in old(canon) && n <= head :: old(canon)[n]
    {
      var i := height;
      while i > head
        invariant i == height || head <= i
        invariant canon == map n | n in old(canon) && n <= i :: old(canon)[n]
      {
        canon := canon - {i};
        i := i - 1;
      }
    }
  }
}
