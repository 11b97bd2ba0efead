/** Heaviest-chain fork choice, stated without the number index: what a node must have stored and which
    head it must follow after any run of writes. The header chain and the block chain both refine it. */
module ForkChoice {
  import opened Types
  import opened Ancestry

  datatype Chain = Chain(db: HeaderDb, td: map<Hash, nat>, genesis: Hash, head: Hash)

  /** Stored difficulties are the work along the ancestry, and nothing stored outweighs the head. */
  ghost predicate Good(c: Chain) {
    && Linked(c.db, c.genesis)
    && c.td.Keys == c.db.Keys
    && (forall h {:trigger HasWork(c, h)} :: h in c.db ==> HasWork(c, h))
    && c.head in c.db
    && (forall h :: h in c.td ==> c.td[h] <= c.td[c.head])
  }

  ghost predicate HasWork(c: Chain, h: Hash)
    requires Linked(c.db, c.genesis) && h in c.db && h in c.td
  {
    c.td[h] == TotalWork(c.db, c.genesis, h)
  }

  /** What header validation and collision-free hashing give about a header before it is written. */
  ghost predicate Writable(db: HeaderDb, header: Header) {
    && header.hash != ZERO_HASH
    && (header.hash in db ==> db[header.hash] == header)
    && (header.parentHash in db ==> header.number == db[header.parentHash].number + 1)
  }

  /** Heavier must be adopted, lighter must not; a tie may go either way. */
  predicate LegalChoice(c: Chain, header: Header, adopt: bool)
    requires header.parentHash in c.td && c.head in c.td
  {
    var externTd := c.td[header.parentHash] + header.difficulty;
    && (externTd > c.td[c.head] ==> adopt)
    && (externTd < c.td[c.head] ==> !adopt)
  }

  function Write(c: Chain, header: Header, adopt: bool): Chain {
    if header.parentHash !in c.td then c else
      Chain(c.db[header.hash := header],
            c.td[header.hash := c.td[header.parentHash] + header.difficulty],
            c.genesis,
            if adopt then header.hash else c.head)
  }

  lemma LinkedAfterWrite(db: HeaderDb, genesis: Hash, header: Header)
    requires Linked(db, genesis) && Writable(db, header) && header.parentHash in db
    ensures header.hash != genesis
    ensures Linked(db[header.hash := header], genesis)
  {
    var bigger := db[header.hash := header];
    forall h | h in bigger && h != genesis
      ensures HasParent(bigger, h)
    {
      if h != header.hash {
        assert HasParent(db, h);
      }
    }
  }

  lemma WriteKeepsGood(c: Chain, header: Header, adopt: bool)
    requires Good(c) && Writable(c.db, header)
    requires header.parentHash in c.td ==> LegalChoice(c, header, adopt)
    ensures Good(Write(c, header, adopt))
    ensures c.td.Keys <= Write(c, header, adopt).td.Keys
    ensures forall h :: h in c.td ==> Write(c, header, adopt).td[h] == c.td[h]
  {
    if header.parentHash in c.td {
      var c' := Write(c, header, adopt);
      LinkedAfterWrite(c.db, c.genesis, header);
      PathShape(c'.db, c'.genesis, header.parentHash);
      forall h | h in c.db
        ensures HasWork(c', h) && c'.td[h] == c.td[h]
      {
        OldWorkKept(c, header, adopt, h);
      }
      assert HasWork(c', header.parentHash);
      NewWork(c', header);
    }
  }

  lemma OldWorkKept(c: Chain, header: Header, adopt: bool, h: Hash)
    requires Good(c) && Writable(c.db, header) && header.parentHash in c.td && h in c.db
    requires Linked(c.db[header.hash := header], c.genesis)
    ensures var c' := Write(c, header, adopt); HasWork(c', h) && c'.td[h] == c.td[h]
  {
    var c' := Write(c, header, adopt);
    assert HasWork(c, h);
    PathShape(c.db, c.genesis, h);
    PathStable(c.db, c'.db, c.genesis, h);
    WorkStable(c.db, c'.db, Path(c.db, c.genesis, h));
    if h == header.hash {
      assert HasParent(c.db, h);
      assert HasWork(c, header.parentHash);
      NewWork(c, header);
    }
  }

  lemma NewWork(c: Chain, header: Header)
    requires Linked(c.db, c.genesis) && header.hash in c.db && c.db[header.hash] == header && header.hash != c.genesis
    requires header.parentHash in c.db && header.parentHash in c.td && HasWork(c, header.parentHash)
    ensures TotalWork(c.db, c.genesis, header.hash) == c.td[header.parentHash] + header.difficulty
  {
    PathShape(c.db, c.genesis, header.hash);
    PathShape(c.db, c.genesis, header.parentHash);
    var p := Path(c.db, c.genesis, header.hash);
    assert p[..|p| - 1] == Path(c.db, c.genesis, header.parentHash);
  }

  datatype Step = Step(header: Header, adopt: bool)

  function Run(c: Chain, steps: seq<Step>): Chain
    decreases |steps|
  {
    if steps == [] then c
    else Run(Write(c, steps[0].header, steps[0].adopt), steps[1..])
  }

  /** Headers arrive in any order on any fork; only the per-header checks and the tie rule constrain a run. */
  ghost predicate LegalRun(c: Chain, steps: seq<Step>)
    decreases |steps|
  {
    steps != [] ==>
    && Writable(c.db, steps[0].header)
    && (steps[0].header.parentHash in c.td && c.head in c.td ==> LegalChoice(c, steps[0].header, steps[0].adopt))
    && LegalRun(Write(c, steps[0].header, steps[0].adopt), steps[1..])
  }

  function Genesis(g: Header): Chain {
    Chain(map[g.hash := g], map[g.hash := g.difficulty], g.hash, g.hash)
  }

  ghost predicate IsGenesis(g: Header) {
    g.hash != ZERO_HASH && g.number == 0 && g.parentHash == ZERO_HASH
  }

  lemma GenesisGood(g: Header)
    requires IsGenesis(g)
    ensures Good(Genesis(g))
  {
    var c := Genesis(g);
    assert Path(c.db, c.genesis, g.hash) == [g.hash];
    assert Work(c.db, [g.hash]) == Work(c.db, []) + g.difficulty by {
      assert [g.hash][..0] == [];
    }
    assert HasWork(c, g.hash);
  }

  /** Every run from a good state keeps it good, keeps every stored difficulty, and never lowers the head's. */
  lemma {:induction false} RunKeepsGood(c: Chain, steps: seq<Step>)
    requires Good(c) && LegalRun(c, steps)
    ensures Good(Run(c, steps))
    ensures c.td.Keys <= Run(c, steps).td.Keys
    ensures forall h :: h in c.td ==> Run(c, steps).td[h] == c.td[h]
    ensures Run(c, steps).head in Run(c, steps).td
    ensures c.td[c.head] <= Run(c, steps).td[Run(c, steps).head]
    decreases |steps|
  {
    if steps != [] {
      WriteKeepsGood(c, steps[0].header, steps[0].adopt);
      RunKeepsGood(Write(c, steps[0].header, steps[0].adopt), steps[1..]);
    }
  }

  /** From genesis, whatever arrived and however ties fell: the head outweighs every header whose ancestry
      was stored when it arrived, and every stored total is the work along that header's ancestry. */
  lemma EveryRunFollowsHeaviest(g: Header, steps: seq<Step>)
    requires IsGenesis(g) && LegalRun(Genesis(g), steps)
    ensures var c := Run(Genesis(g), steps);
      && Good(c)
      && (forall h :: h in c.db ==> HasWork(c, h) && c.td[h] <= c.td[c.head])
  {
    GenesisGood(g);
    RunKeepsGood(Genesis(g), steps);
  }

  /** Two nodes that stored the same headers, in any orders and with any tie-breaks, follow equally heavy heads. */
  lemma NodesAgreeOnDifficulty(a: Chain, b: Chain)
    requires Good(a) && Good(b) && a.db == b.db && a.genesis == b.genesis
    ensures a.td == b.td
    ensures a.td[a.head] == b.td[b.head]
  {
    forall h | h in a.td
      ensures a.td[h] == b.td[h]
    {
      assert HasWork(a, h);
      assert HasWork(b, h);
    }
    assert a.td[b.head] <= a.td[a.head];
    assert b.td[a.head] <= b.td[b.head];
  }
}
