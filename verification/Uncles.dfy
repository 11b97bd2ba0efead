/** Uncle validation (core/block_validator.go): each check sees seven ancestors, yet over a whole chain no uncle is
    ever included twice and no included uncle is a block of the chain. */
module Uncles {
  import opened Types
  import opened Arithmetic
  import opened HeaderRules

  datatype Rules = Rules(difficulty: nat -> DifficultyRule, now: nat, pow: Header -> bool)

  datatype UncleError = TooMany | NotUnique(index: nat) | IsAncestor(index: nat) | ParentNotAncestor(index: nat)
                      | InvalidHeader(index: nat, reason: HeaderError)

  const UNCLE_WINDOW := 7

  /** The block with the given hash and up to `n - 1` of its stored ancestors, nearest first. */
  function AncestorBlocks(blocks: BlockDb, h: Hash, n: nat): seq<Block>
    decreases n
  {
    if n == 0 || h !in blocks then []
    else [blocks[h]] + AncestorBlocks(blocks, blocks[h].header.parentHash, n - 1)
  }

  method GetBlocksFromHash(blocks: BlockDb, hash: Hash, n: nat) returns (found: seq<Block>)
    ensures found == AncestorBlocks(blocks, hash, n)
  {
    found := [];
    var h, i := hash, 0;
    while i < n && h in blocks
      invariant i <= n
      invariant found + AncestorBlocks(blocks, h, n - i) == AncestorBlocks(blocks, hash, n)
    {
      var block := blocks[h];
      assert found + AncestorBlocks(blocks, h, n - i)
        == found + [block] + AncestorBlocks(blocks, block.header.parentHash, n - i - 1);
      found := found + [block];
      h := block.header.parentHash;
      i := i + 1;
    }
    assert AncestorBlocks(blocks, h, n - i) == [];
  }

  /** The header an uncle claims as parent: the block itself or a window block. */
  ghost predicate ClaimsParent(window: seq<Block>, block: Block, uncle: Header, p: Header) {
    && p.hash == uncle.parentHash
    && (p == block.header || exists k :: 0 <= k < |window| && p == window[k].header)
  }

  /** What one accepted uncle satisfies, given its position among the block's uncles. */
  ghost predicate UncleOk(rules: Rules, window: seq<Block>, block: Block, parent: Block, i: nat)
    requires i < |block.uncles|
  {
    var uncle := block.uncles[i];
    && uncle.hash != block.header.hash
    && (forall j :: 0 <= j < i ==> block.uncles[j].hash != uncle.hash)
    && (forall k, u :: 0 <= k < |window| && u in window[k].uncles ==> u.hash != uncle.hash)
    && (forall k :: 0 <= k < |window| ==> window[k].header.hash != uncle.hash)
    && uncle.parentHash != parent.header.hash
    && exists p :: ClaimsParent(window, block, uncle, p)
                   && ValidateHeader(rules.difficulty, rules.now, rules.pow, uncle, p, true, true) == None
  }

  ghost predicate UnclesOk(rules: Rules, blocks: BlockDb, block: Block, parent: Block) {
    && |block.uncles| <= 2
    && var window := AncestorBlocks(blocks, block.header.parentHash, UNCLE_WINDOW);
    && forall i :: 0 <= i < |block.uncles| ==> UncleOk(rules, window, block, parent, i)
  }

  ghost predicate HashKeyed(ancestors: map<Hash, Block>, window: seq<Block>) {
    && (forall h :: h in ancestors ==> ancestors[h].header.hash == h && ancestors[h] in window)
    && (forall b <- window :: b.header.hash in ancestors)
  }

  ghost predicate SeenUncles(uncles: set<Hash>, window: seq<Block>) {
    && (forall k, u :: 0 <= k < |window| && u in window[k].uncles ==> u.hash in uncles)
    && (forall h :: h in uncles ==> exists k, u :: 0 <= k < |window| && u in window[k].uncles && u.hash == h)
  }

  method UncleHashes(headers: seq<Header>) returns (hashes: set<Hash>)
    ensures forall h :: h in hashes <==> exists u :: u in headers && u.hash == h
  {
    hashes := {};
    var i := 0;
    while i < |headers|
      invariant 0 <= i <= |headers|
      invariant forall h :: h in hashes <==> exists u :: u in headers[..i] && u.hash == h
    {
      assert headers[..i + 1] == headers[..i] + [headers[i]];
      hashes := hashes + {headers[i].hash};
      i := i + 1;
    }
    assert headers[..i] == headers;
  }

  lemma TablesStart()
    ensures HashKeyed(map[], []) && SeenUncles({}, [])
  {
  }

  lemma KeyedNext(ancestors: map<Hash, Block>, window: seq<Block>, b: Block)
    requires HashKeyed(ancestors, window)
    ensures HashKeyed(ancestors[b.header.hash := b], window + [b])
  {
  }

  lemma SeenNext(uncles: set<Hash>, window: seq<Block>, b: Block, more: set<Hash>)
    requires SeenUncles(uncles, window) && forall h :: h in more <==> exists u :: u in b.uncles && u.hash == h
    ensures SeenUncles(uncles + more, window + [b])
  {
    var longer := window + [b];
    forall h | h in uncles + more
      ensures exists k, u :: 0 <= k < |longer| && u in longer[k].uncles && u.hash == h
    {
      if h in uncles {
        var k, u :| 0 <= k < |window| && u in window[k].uncles && u.hash == h;
        assert u in longer[k].uncles;
      } else {
        var u :| u in b.uncles && u.hash == h;
        assert u in longer[|window|].uncles;
      }
    }
    forall k, u | 0 <= k < |longer| && u in longer[k].uncles
      ensures u.hash in uncles + more
    {
      if k < |window| {
        assert u in window[k].uncles;
      }
    }
  }

  /** The two tables VerifyUncles fills from the window: blocks by hash, and every uncle hash seen. */
  method CollectWindow(window: seq<Block>) returns (ancestors: map<Hash, Block>, uncles: set<Hash>)
    ensures HashKeyed(ancestors, window) && SeenUncles(uncles, window)
  {
    hide HashKeyed, SeenUncles;
    ancestors, uncles := map[], {};
    TablesStart();
    assert window[..0] == [];
    var i := 0;
    while i < |window|
      invariant 0 <= i <= |window|
      invariant HashKeyed(ancestors, window[..i]) && SeenUncles(uncles, window[..i])
    {
      assert window[..i + 1] == window[..i] + [window[i]];
      KeyedNext(ancestors, window[..i], window[i]);
      ancestors := ancestors[window[i].header.hash := window[i]];
      var more := UncleHashes(window[i].uncles);
      SeenNext(uncles, window[..i], window[i], more);
      uncles := uncles + more;
      i := i + 1;
    }
    assert window[..i] == window;
  }

  /** A database indexed by hash, in which `block` collides with nothing. */
  ghost predicate KeyedDb(blocks: BlockDb, block: Block) {
    && (forall h :: h in blocks ==> blocks[h].header.hash == h)
    && (block.header.hash in blocks ==> blocks[block.header.hash] == block)
  }

  lemma {:induction false} WindowFromDb(blocks: BlockDb, h: Hash, n: nat)
    ensures forall b <- AncestorBlocks(blocks, h, n) :: exists k :: k in blocks && blocks[k] == b
    decreases n
  {
    if n > 0 && h in blocks {
      WindowFromDb(blocks, blocks[h].header.parentHash, n - 1);
      var rest := AncestorBlocks(blocks, blocks[h].header.parentHash, n - 1);
      assert AncestorBlocks(blocks, h, n) == [blocks[h]] + rest;
    }
  }

  method VerifyUncles(rules: Rules, blocks: BlockDb, block: Block, parent: Block) returns (err: Option<UncleError>)
    requires KeyedDb(blocks, block)
    ensures err == None <==> UnclesOk(rules, blocks, block, parent)
    ensures err == Some(TooMany) <==> |block.uncles| > 2
    ensures err.Some? && err.value != TooMany ==>
      var i, window := err.value.index, AncestorBlocks(blocks, block.header.parentHash, UNCLE_WINDOW);
      && i < |block.uncles| && !UncleOk(rules, window, block, parent, i)
      && forall j :: 0 <= j < i ==> UncleOk(rules, window, block, parent, j)
  {
    if |block.uncles| > 2 {
      return Some(TooMany);
    }
    var window := GetBlocksFromHash(blocks, block.header.parentHash, UNCLE_WINDOW);
    WindowFromDb(blocks, block.header.parentHash, UNCLE_WINDOW);
    var ancestors, uncles := CollectWindow(window);
    ghost var seen := uncles;
    ancestors := ancestors[block.header.hash := block];
    uncles := uncles + {block.header.hash};
    var i := 0;
    while i < |block.uncles|
      invariant 0 <= i <= |block.uncles|
      invariant forall j :: 0 <= j < i ==> UncleOk(rules, window, block, parent, j)
      invariant Excluded(uncles, seen, block, i)
    {
      var bad := CheckUncle(rules, blocks, window, block, parent, i, ancestors, uncles, seen);
      if bad.Some? {
        return bad;
      }
      uncles := uncles + {block.uncles[i].hash};
      i := i + 1;
    }
    err := None;
  }

  /** The hashes an uncle at position `i` must avoid besides the window's own. */
  ghost predicate Excluded(uncles: set<Hash>, seen: set<Hash>, block: Block, i: nat)
    requires i <= |block.uncles|
  {
    forall h :: h in uncles <==>
      h in seen || h == block.header.hash || exists j :: 0 <= j < i && block.uncles[j].hash == h
  }

  /** One turn of VerifyUncles' loop. */
  method CheckUncle(rules: Rules, blocks: BlockDb, window: seq<Block>, block: Block, parent: Block, i: nat,
                    ancestors: map<Hash, Block>, uncles: set<Hash>, ghost seen: set<Hash>)
    returns (err: Option<UncleError>)
    requires i < |block.uncles| && KeyedDb(blocks, block)
    requires forall b <- window :: exists k :: k in blocks && blocks[k] == b
    requires SeenUncles(seen, window) && Excluded(uncles, seen, block, i)
    requires block.header.hash in ancestors && ancestors[block.header.hash] == block
    requires forall h :: h in ancestors ==>
      ancestors[h].header.hash == h && (ancestors[h] == block || ancestors[h] in window)
    requires forall b <- window :: b.header.hash in ancestors
    ensures err == None <==> UncleOk(rules, window, block, parent, i)
    ensures err.Some? ==> err.value != TooMany && err.value.index == i
    ensures err == Some(NotUnique(i)) <==> block.uncles[i].hash in uncles
  {
    var uncle := block.uncles[i];
    if uncle.hash in uncles {
      SeenRejects(rules, window, block, parent, i, seen);
      return Some(NotUnique(i));
    }
    if uncle.hash in ancestors {
      assert ancestors[uncle.hash] in window;
      return Some(IsAncestor(i));
    }
    if uncle.parentHash !in ancestors || uncle.parentHash == parent.header.hash {
      NoParent(window, block, uncle, ancestors.Keys);
      assert !UncleOk(rules, window, block, parent, i);
      return Some(ParentNotAncestor(i));
    }
    var p := ancestors[uncle.parentHash].header;
    ParentUnique(blocks, window, block, uncle, p);
    var bad := ValidateHeader(rules.difficulty, rules.now, rules.pow, uncle, p, true, true);
    if bad.Some? {
      return Some(InvalidHeader(i, bad.value));
    }
    assert forall k :: 0 <= k < |window| ==> window[k] in window;
    err := None;
  }

  lemma SeenRejects(rules: Rules, window: seq<Block>, block: Block, parent: Block, i: nat, seen: set<Hash>)
    requires i < |block.uncles| && SeenUncles(seen, window)
    requires block.uncles[i].hash in seen || block.uncles[i].hash == block.header.hash
          || exists j :: 0 <= j < i && block.uncles[j].hash == block.uncles[i].hash
    ensures !UncleOk(rules, window, block, parent, i)
  {
  }

  lemma NoParent(window: seq<Block>, block: Block, uncle: Header, known: set<Hash>)
    requires block.header.hash in known && forall b <- window :: b.header.hash in known
    ensures uncle.parentHash !in known ==> forall p :: !ClaimsParent(window, block, uncle, p)
  {
    forall p | ClaimsParent(window, block, uncle, p)
      ensures p.hash in known
    {
      if p != block.header {
        var k :| 0 <= k < |window| && p == window[k].header;
        assert window[k] in window;
      }
    }
  }

  /** Hashes identify blocks, so at most one header can be the claimed parent. */
  lemma ParentUnique(blocks: BlockDb, window: seq<Block>, block: Block, uncle: Header, p: Header)
    requires KeyedDb(blocks, block) && forall b <- window :: exists k :: k in blocks && blocks[k] == b
    requires p.hash == uncle.parentHash && (p == block.header || exists b :: b in window && b.header == p)
    ensures forall q :: ClaimsParent(window, block, uncle, q) <==> q == p
  {
    forall q | ClaimsParent(window, block, uncle, q)
      ensures q == p
    {
      HeaderInDb(blocks, window, block, q);
      HeaderInDb(blocks, window, block, p);
    }
    if p != block.header {
      var b :| b in window && b.header == p;
      var k :| 0 <= k < |window| && window[k] == b;
    }
    assert ClaimsParent(window, block, uncle, p);
  }

  lemma HeaderInDb(blocks: BlockDb, window: seq<Block>, block: Block, q: Header)
    requires KeyedDb(blocks, block) && forall b <- window :: exists k :: k in blocks && blocks[k] == b
    requires q == block.header || exists b :: b in window && b.header == q
    ensures q == block.header || (q.hash in blocks && blocks[q.hash].header == q)
  {
  }

  /** A chain from genesis, stored block by block, whose every later block passed VerifyUncles. */
  ghost predicate VerifiedChain(rulesAt: nat -> Rules, blocks: BlockDb, chain: seq<Block>) {
    && chain != [] && chain[0].header.parentHash !in blocks && chain[0].uncles == []
    && (forall i :: 0 <= i < |chain| ==>
          && chain[i].header.number == i
          && chain[i].header.hash in blocks && blocks[chain[i].header.hash] == chain[i])
    && (forall i, j :: 0 <= i < j < |chain| && j == i + 1 ==>
          && chain[j].header.parentHash == chain[i].header.hash
          && UnclesOk(rulesAt(j), blocks, chain[j], chain[i]))
  }

  /** Hashes are collision free, and no header can contain the hash of a block that contains it. */
  ghost predicate HashesSound(chain: seq<Block>) {
    && (forall i, k, u, v | 0 <= i < |chain| && 0 <= k < |chain| && u in chain[i].uncles && v in chain[k].uncles ::
          u.hash == v.hash ==> u == v)
    && (forall i, k, u | 0 <= i < |chain| && 0 <= k < |chain| && u in chain[i].uncles ::
          u.hash == chain[k].header.hash ==> u == chain[k].header)
    && (forall i, u :: 0 <= i < |chain| && u in chain[i].uncles ==> u.parentHash != chain[i].header.hash)
  }

  lemma ChainStored(rulesAt: nat -> Rules, blocks: BlockDb, chain: seq<Block>, i: nat)
    requires VerifiedChain(rulesAt, blocks, chain) && i < |chain|
    ensures chain[i].header.hash in blocks && blocks[chain[i].header.hash] == chain[i]
    ensures i == 0 ==> chain[i].header.parentHash !in blocks
    ensures i > 0 ==> chain[i].header.parentHash == chain[i - 1].header.hash
  {
  }

  lemma WindowStep(blocks: BlockDb, b: Block, n: nat)
    requires n > 0 && b.header.hash in blocks && blocks[b.header.hash] == b
    ensures AncestorBlocks(blocks, b.header.hash, n) == [b] + AncestorBlocks(blocks, b.header.parentHash, n - 1)
  {
  }

  lemma NoAncestors(blocks: BlockDb, h: Hash, n: nat)
    requires n == 0 || h !in blocks
    ensures AncestorBlocks(blocks, h, n) == []
  {
  }

  /** On a stored chain the window is the last blocks below, as far as there are any. */
  lemma {:induction false} WindowOnChain(rulesAt: nat -> Rules, blocks: BlockDb, chain: seq<Block>, i: nat, n: nat)
    requires VerifiedChain(rulesAt, blocks, chain) && i < |chain|
    ensures var window := AncestorBlocks(blocks, chain[i].header.hash, n);
      && |window| == Min(n, i + 1)
      && forall k :: 0 <= k < |window| ==> window[k] == chain[i - k]
    decreases n
  {
    ChainStored(rulesAt, blocks, chain, i);
    hide VerifiedChain, AncestorBlocks;
    if n == 0 {
      NoAncestors(blocks, chain[i].header.hash, n);
    } else {
      WindowStep(blocks, chain[i], n);
      if i == 0 {
        NoAncestors(blocks, chain[0].header.parentHash, n - 1);
      } else {
        WindowOnChain(rulesAt, blocks, chain, i - 1, n - 1);
      }
    }
  }

  /** An uncle as a block on top of the chain may include it, in terms of the chain: a valid child of one of the blocks
      two to seven below, new among the last seven blocks and all their uncles. */
  ghost predicate Includable(rules: Rules, chain: seq<Block>, b: Block, u: Header) {
    var i := |chain|;
    && u.hash != b.header.hash
    && (exists n :: 0 <= n < i - 1 && i - 7 <= n && u.parentHash == chain[n].header.hash
                    && ValidateHeader(rules.difficulty, rules.now, rules.pow, u, chain[n].header, true, true) == None)
    && (forall n :: 0 <= n < i && i - 7 <= n ==> chain[n].header.hash != u.hash)
    && (forall n, v :: 0 <= n < i && i - 7 <= n && v in chain[n].uncles ==> v.hash != u.hash)
  }

  /** Exactly which uncles pass on top of a chain: at most two, different from each other, each includable. */
  lemma AcceptedUnclesIff(rulesAt: nat -> Rules, blocks: BlockDb, chain: seq<Block>, b: Block)
    requires VerifiedChain(rulesAt, blocks, chain) && b.header.parentHash == chain[|chain| - 1].header.hash
    requires forall u <- b.uncles :: u.parentHash != b.header.hash
    requires forall i, j :: 0 <= i < j < |chain| ==> chain[i].header.hash != chain[j].header.hash
    ensures var rules := rulesAt(|chain|);
      UnclesOk(rules, blocks, b, chain[|chain| - 1]) <==>
        && |b.uncles| <= 2
        && (forall j, k :: 0 <= j < k < |b.uncles| ==> b.uncles[j].hash != b.uncles[k].hash)
        && (forall j :: 0 <= j < |b.uncles| ==> Includable(rules, chain, b, b.uncles[j]))
  {
    hide ValidateHeader, UncleOk, Includable;
    var i, rules := |chain|, rulesAt(|chain|);
    var window := AncestorBlocks(blocks, b.header.parentHash, UNCLE_WINDOW);
    WindowOnChain(rulesAt, blocks, chain, i - 1, UNCLE_WINDOW);
    hide VerifiedChain, AncestorBlocks;
    if UnclesOk(rules, blocks, b, chain[i - 1]) {
      forall j | 0 <= j < |b.uncles|
        ensures Includable(rules, chain, b, b.uncles[j]) && DiffersBefore(b.uncles, j)
      {
        assert UncleOk(rules, window, b, chain[i - 1], j);
        OkIncludable(rules, chain, window, b, j);
        OkDistinct(rules, window, b, chain[i - 1], j);
      }
      assert forall k :: 0 <= k < |b.uncles| ==> DiffersBefore(b.uncles, k);
    } else if |b.uncles| <= 2 {
      var j :| 0 <= j < |b.uncles| && !UncleOk(rules, window, b, chain[i - 1], j);
      if Includable(rules, chain, b, b.uncles[j]) && DiffersBefore(b.uncles, j) {
        IncludableOk(rules, chain, window, b, j);
      }
    }
  }

  ghost predicate DiffersBefore(uncles: seq<Header>, j: nat)
    requires j < |uncles|
  {
    forall k :: 0 <= k < j ==> uncles[k].hash != uncles[j].hash
  }

  lemma OkDistinct(rules: Rules, window: seq<Block>, b: Block, parent: Block, j: nat)
    requires j < |b.uncles| && UncleOk(rules, window, b, parent, j)
    ensures DiffersBefore(b.uncles, j)
  {
  }

  ghost predicate WindowOf(window: seq<Block>, chain: seq<Block>) {
    |window| == Min(7, |chain|) && forall k :: 0 <= k < |window| ==> window[k] == chain[|chain| - 1 - k]
  }

  lemma OkIncludable(rules: Rules, chain: seq<Block>, window: seq<Block>, b: Block, j: nat)
    requires chain != [] && j < |b.uncles| && b.uncles[j].parentHash != b.header.hash && WindowOf(window, chain)
    requires UncleOk(rules, window, b, chain[|chain| - 1], j)
    ensures Includable(rules, chain, b, b.uncles[j])
  {
    hide ValidateHeader;
    var u, i := b.uncles[j], |chain|;
    var p :| ClaimsParent(window, b, u, p)
             && ValidateHeader(rules.difficulty, rules.now, rules.pow, u, p, true, true) == None;
    var k :| 0 <= k < |window| && p == window[k].header;
    assert k != 0 && p == chain[i - 1 - k].header;
    forall n | 0 <= n < i && i - 7 <= n
      ensures chain[n].header.hash != u.hash && forall v <- chain[n].uncles :: v.hash != u.hash
    {
      assert window[i - 1 - n] == chain[n];
    }
  }

  lemma IncludableOk(rules: Rules, chain: seq<Block>, window: seq<Block>, b: Block, j: nat)
    requires chain != [] && j < |b.uncles| && WindowOf(window, chain)
    requires forall i, k :: 0 <= i < k < |chain| ==> chain[i].header.hash != chain[k].header.hash
    requires Includable(rules, chain, b, b.uncles[j])
    requires DiffersBefore(b.uncles, j)
    ensures UncleOk(rules, window, b, chain[|chain| - 1], j)
  {
    hide ValidateHeader;
    var u, i := b.uncles[j], |chain|;
    forall k | 0 <= k < |window|
      ensures window[k].header.hash != u.hash && forall v <- window[k].uncles :: v.hash != u.hash
    {
      assert window[k] == chain[i - 1 - k];
    }
    var n :| 0 <= n < i - 1 && i - 7 <= n && u.parentHash == chain[n].header.hash
             && ValidateHeader(rules.difficulty, rules.now, rules.pow, u, chain[n].header, true, true) == None;
    assert window[i - 1 - n] == chain[n] && ClaimsParent(window, b, u, chain[n].header);
    assert chain[n].header.hash != chain[i - 1].header.hash;
  }

  /** An included uncle is one to six numbers below the block, and a child of a chain block. */
  lemma UncleAge(rulesAt: nat -> Rules, blocks: BlockDb, chain: seq<Block>, i: nat, u: Header)
    requires VerifiedChain(rulesAt, blocks, chain) && HashesSound(chain)
    requires i < |chain| && u in chain[i].uncles
    ensures i > 0 && i - 6 <= u.number <= i - 1
    ensures u.number > 0 && u.parentHash == chain[u.number - 1].header.hash
  {
    hide ValidateHeader, VerifiedChain, HashesSound;
    UncleNotOwnChild(chain, i, u);
    var window, b, parent, rules, j := CheckedUncle(rulesAt, blocks, chain, i, u);
    assert UncleOk(rules, window, b, parent, j);
    var p :| ClaimsParent(window, b, u, p)
             && ValidateHeader(rules.difficulty, rules.now, rules.pow, u, p, true, true) == None;
    var k :| 0 <= k < |window| && p == window[k].header;
    assert p == chain[i - 1 - k].header;
    ValidNumber(rules, u, p);
  }

  /** It differs from the seven blocks below and from all their uncles. */
  lemma UncleAvoidsWindow(rulesAt: nat -> Rules, blocks: BlockDb, chain: seq<Block>, i: nat, u: Header, m: nat)
    requires VerifiedChain(rulesAt, blocks, chain)
    requires i < |chain| && u in chain[i].uncles && i - 7 <= m < i
    ensures chain[m].header.hash != u.hash && forall v :: v in chain[m].uncles ==> v.hash != u.hash
  {
    hide ValidateHeader, VerifiedChain;
    var window, b, parent, rules, j := CheckedUncle(rulesAt, blocks, chain, i, u);
    assert UncleOk(rules, window, b, parent, j);
    assert window[i - 1 - m] == chain[m];
  }

  lemma UncleNotOwnChild(chain: seq<Block>, i: nat, u: Header)
    requires HashesSound(chain) && i < |chain| && u in chain[i].uncles
    ensures u.parentHash != chain[i].header.hash
  {
  }

  lemma ValidNumber(rules: Rules, header: Header, parent: Header)
    requires ValidateHeader(rules.difficulty, rules.now, rules.pow, header, parent, true, true) == None
    ensures header.number == parent.number + 1
  {
  }

  /** What VerifyUncles established about an included uncle, with the window spelled out as chain blocks. */
  lemma CheckedUncle(rulesAt: nat -> Rules, blocks: BlockDb, chain: seq<Block>, i: nat, u: Header)
    returns (window: seq<Block>, b: Block, parent: Block, rules: Rules, j: nat)
    requires VerifiedChain(rulesAt, blocks, chain) && i < |chain| && u in chain[i].uncles
    ensures i > 0 && b == chain[i] && parent == chain[i - 1] && rules == rulesAt(i)
    ensures j < |b.uncles| && b.uncles[j] == u
    ensures b.header.parentHash == parent.header.hash
    ensures |window| == Min(UNCLE_WINDOW, i) && forall k :: 0 <= k < |window| ==> window[k] == chain[i - 1 - k]
    ensures forall k :: 0 <= k < |chain| ==> chain[k].header.number == k
    ensures forall l :: 0 <= l < |b.uncles| ==> UncleOk(rules, window, b, parent, l)
  {
    hide UncleOk;
    b, parent, rules := chain[i], chain[i - 1], rulesAt(i);
    assert UnclesOk(rulesAt(i), blocks, chain[i], chain[i - 1]);
    window := AncestorBlocks(blocks, chain[i].header.parentHash, UNCLE_WINDOW);
    WindowOnChain(rulesAt, blocks, chain, i - 1, UNCLE_WINDOW);
    j :| 0 <= j < |chain[i].uncles| && chain[i].uncles[j] == u;
  }

  /** Seven-block windows suffice for the whole chain: no uncle is included twice, in one block or in two. */
  lemma NoUncleTwice(rulesAt: nat -> Rules, blocks: BlockDb, chain: seq<Block>, i: nat, j: nat, k: nat, l: nat)
    requires VerifiedChain(rulesAt, blocks, chain) && HashesSound(chain)
    requires i < |chain| && k < |chain| && j < |chain[i].uncles| && l < |chain[k].uncles|
    requires chain[i].uncles[j].hash == chain[k].uncles[l].hash
    ensures i == k && j == l
  {
    hide UnclesOk;
    var u := chain[i].uncles[j];
    assert u == chain[k].uncles[l];
    UncleAge(rulesAt, blocks, chain, i, u);
    UncleAge(rulesAt, blocks, chain, k, u);
    if i < k {
      UncleAvoidsWindow(rulesAt, blocks, chain, k, u, i);
    } else if k < i {
      UncleAvoidsWindow(rulesAt, blocks, chain, i, u, k);
    } else {
      var window, b, parent, rules, _ := CheckedUncle(rulesAt, blocks, chain, i, u);
      assert UncleOk(rules, window, b, parent, j);
      assert UncleOk(rules, window, b, parent, l);
    }
  }

  /** ... and no included uncle is a block of the chain, below or above the block that includes it. */
  lemma UncleNotOnChain(rulesAt: nat -> Rules, blocks: BlockDb, chain: seq<Block>, i: nat, u: Header, k: nat)
    requires VerifiedChain(rulesAt, blocks, chain) && HashesSound(chain)
    requires i < |chain| && u in chain[i].uncles && k < |chain|
    ensures u.hash != chain[k].header.hash
  {
    hide UnclesOk;
    UncleAge(rulesAt, blocks, chain, i, u);
    if i - 7 <= k < i {
      UncleAvoidsWindow(rulesAt, blocks, chain, i, u, k);
    }
  }
}
