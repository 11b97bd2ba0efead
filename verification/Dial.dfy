/** The dial scheduler (p2p/dial.go): which nodes to dial on each turn of the server loop, given the connected peers,
    the dials in flight and the dials that finished lately. */
module Dial {
  import opened DialHistory

  const HISTORY_EXPIRATION: Time := 30

  datatype Flag = Dynamic | StaticDial

  datatype Task = Connect(id: NodeId, flag: Flag) | Discover | WaitExpire(duration: Time)

  /** Connected peers; true for those dialed dynamically. */
  type Peers = map<NodeId, bool>
  type Dialing = map<NodeId, Flag>

  function DynPeers(peers: Peers): set<NodeId> { set id | id in peers && peers[id] }
  function DynDials(dialing: Dialing): set<NodeId> { set id | id in dialing && dialing[id] == Dynamic }

  /** Dynamic connections, made and under way. */
  function DynTotal(peers: Peers, dialing: Dialing): nat { |DynPeers(peers)| + |DynDials(dialing)| }

  ghost predicate Busy(dialing: Dialing, peers: Peers, h: seq<PastDial>, id: NodeId) {
    id in dialing || id in peers || Remembers(h, id)
  }

  /** A dial is to a static node and marked so, or dynamic and to a random node or a lookup result. */
  ghost predicate Chosen(t: Task, staticNodes: set<NodeId>, random: seq<NodeId>, found: seq<NodeId>) {
    t.Connect? && if t.flag == StaticDial then t.id in staticNodes else t.id in random || t.id in found
  }

  ghost predicate AllChosen(tasks: seq<Task>, staticNodes: set<NodeId>, random: seq<NodeId>, found: seq<NodeId>) {
    forall t :: t in tasks ==> Chosen(t, staticNodes, random, found)
  }

  /** Lookup results are used up from the front, and none that was is free any more. */
  ghost predicate Consumed(found: seq<NodeId>, left: seq<NodeId>, dialing: Dialing, peers: Peers, h: seq<PastDial>) {
    && |left| <= |found| && left == found[|found| - |left|..]
    && forall k :: 0 <= k < |found| - |left| ==> Busy(dialing, peers, h, found[k])
  }

  /** The nodes dialed by a list of tasks. */
  ghost function Dials(tasks: seq<Task>): multiset<NodeId> {
    if tasks == [] then multiset{} else
      Dials(tasks[..|tasks| - 1]) + if tasks[|tasks| - 1].Connect? then multiset{tasks[|tasks| - 1].id} else multiset{}
  }

  lemma DialsNext(tasks: seq<Task>, t: Task)
    ensures t.Connect? ==> Dials(tasks + [t]) == Dials(tasks) + multiset{t.id}
    ensures !t.Connect? ==> Dials(tasks + [t]) == Dials(tasks)
  {
    assert (tasks + [t])[..|tasks|] == tasks;
  }

  lemma DynDialsNext(dialing: Dialing, id: NodeId, flag: Flag)
    requires id !in dialing
    ensures |DynDials(dialing[id := flag])| == |DynDials(dialing)| + if flag == Dynamic then 1 else 0
  {
    assert DynDials(dialing[id := flag]) == DynDials(dialing) + if flag == Dynamic then {id} else {};
  }

  /** Each node is remembered at most once. */
  ghost predicate OncePer(m: multiset<PastDial>) {
    forall x, y :: x in m && y in m && x.id == y.id ==> x == y && m[x] == 1
  }

  /** The history holds exactly when each node's last dial ended, for as long as that is no longer ago than the
      expiry. */
  ghost predicate Recorded(m: multiset<PastDial>, lastDone: map<NodeId, Time>, clock: Time) {
    && OncePer(m)
    && (forall x :: x in m ==> x.id in lastDone && x.exp == lastDone[x.id] + HISTORY_EXPIRATION)
    && (forall id :: id in lastDone ==> lastDone[id] <= clock)
    && (forall id :: id in lastDone && clock <= lastDone[id] + HISTORY_EXPIRATION ==>
          PastDial(id, lastDone[id] + HISTORY_EXPIRATION) in m)
  }

  lemma RemembersIn(h: seq<PastDial>, id: NodeId)
    ensures Remembers(h, id) <==> exists x :: x in multiset(h) && x.id == id
  {
    if Remembers(h, id) {
      var i :| 0 <= i < |h| && h[i].id == id;
      assert h[i] in multiset(h);
    }
    if x :| x in multiset(h) && x.id == id {
      assert x in h;
    }
  }

  /** What starting dials has done so far: exactly the listed nodes were added, none of them busy. */
  ghost predicate Started(before: Dialing, dialing: Dialing, peers: Peers, h: seq<PastDial>, tasks: seq<Task>) {
    && multiset(dialing.Keys) == multiset(before.Keys) + Dials(tasks)
    && (forall id :: id in before ==> id in dialing && dialing[id] == before[id])
    && (forall t :: t in tasks && t.Connect? ==>
        t.id in dialing && dialing[t.id] == t.flag && t.id !in peers && !Remembers(h, t.id))
  }

  lemma StartNone(dialing: Dialing, peers: Peers, h: seq<PastDial>)
    ensures Started(dialing, dialing, peers, h, [])
  {
  }

  lemma KeysNext(dialing: Dialing, id: NodeId, flag: Flag)
    requires id !in dialing
    ensures multiset(dialing[id := flag].Keys) == multiset(dialing.Keys) + multiset{id}
  {
    assert dialing[id := flag].Keys == dialing.Keys + {id};
  }

  lemma StartOne(before: Dialing, dialing: Dialing, peers: Peers, h: seq<PastDial>, tasks: seq<Task>, id: NodeId,
                 flag: Flag)
    requires Started(before, dialing, peers, h, tasks) && !Busy(dialing, peers, h, id)
    ensures Started(before, dialing[id := flag], peers, h, tasks + [Connect(id, flag)])
    ensures multiset(dialing[id := flag].Keys) == multiset(dialing.Keys) + multiset{id}
  {
    hide Remembers, Dials;
    DialsNext(tasks, Connect(id, flag));
    KeysNext(dialing, id, flag);
    forall t | t in tasks + [Connect(id, flag)]
      ensures t in tasks || t == Connect(id, flag)
    {
    }
  }

  /** A node is dialed only when its last dial ended longer ago than the expiry. */
  lemma NotRedialed(h: seq<PastDial>, lastDone: map<NodeId, Time>, now: Time, id: NodeId)
    requires Recorded(multiset(h), lastDone, now) && id in lastDone && !Remembers(h, id)
    ensures lastDone[id] + 30 < now
  {
    RemembersIn(h, id);
    assert PastDial(id, lastDone[id] + HISTORY_EXPIRATION).id == id;
  }

  lemma RecordedLater(m: multiset<PastDial>, m': multiset<PastDial>, lastDone: map<NodeId, Time>, clock: Time,
                      now: Time)
    requires Recorded(m, lastDone, clock) && clock <= now
    requires forall x: PastDial :: m'[x] == if x.exp < now then 0 else m[x]
    ensures Recorded(m', lastDone, now) && forall x :: x in m' ==> x in m
  {
  }

  lemma RecordedDone(m: multiset<PastDial>, lastDone: map<NodeId, Time>, clock: Time, now: Time, id: NodeId)
    requires Recorded(m, lastDone, clock) && clock <= now && forall x :: x in m ==> x.id != id
    ensures Recorded(m + multiset{PastDial(id, now + HISTORY_EXPIRATION)}, lastDone[id := now], now)
  {
  }

  lemma RecordedCleared(m: multiset<PastDial>, m': multiset<PastDial>, x: PastDial, lastDone: map<NodeId, Time>,
                        clock: Time)
    requires Recorded(m, lastDone, clock) && m' + multiset{x} == m
    ensures Recorded(m', lastDone - {x.id}, clock)
  {
    assert x in m && forall y :: y in m' ==> y in m;
    OnceLeft(m, m', x);
    hide OncePer;
    forall id | id in lastDone - {x.id} && clock <= lastDone[id] + HISTORY_EXPIRATION
      ensures PastDial(id, lastDone[id] + HISTORY_EXPIRATION) in m'
    {
      assert PastDial(id, lastDone[id] + HISTORY_EXPIRATION) in m;
    }
  }

  lemma OnceLeft(m: multiset<PastDial>, m': multiset<PastDial>, x: PastDial)
    requires OncePer(m) && m' + multiset{x} == m
    ensures OncePer(m') && forall y :: y in m' ==> y.id != x.id
  {
  }

  lemma RecordedForgot(m: multiset<PastDial>, lastDone: map<NodeId, Time>, clock: Time, id: NodeId)
    requires Recorded(m, lastDone, clock) && forall x :: x in m ==> x.id != id
    ensures Recorded(m, lastDone - {id}, clock)
  {
  }

  /** No node being dialed is remembered. */
  ghost predicate Apart(m: multiset<PastDial>, dialing: Dialing) {
    forall x :: x in m ==> x.id !in dialing
  }

  lemma ApartDone(m: multiset<PastDial>, dialing: Dialing, id: NodeId, exp: Time)
    requires Apart(m, dialing) && id in dialing
    ensures forall x :: x in m ==> x.id != id
    ensures Apart(m + multiset{PastDial(id, exp)}, dialing - {id})
    ensures multiset(dialing.Keys) == multiset((dialing - {id}).Keys) + multiset{id}
  {
    KeysNext(dialing - {id}, id, dialing[id]);
    assert (dialing - {id})[id := dialing[id]] == dialing;
  }

  lemma ApartLess(m: multiset<PastDial>, m': multiset<PastDial>, dialing: Dialing)
    requires Apart(m, dialing) && forall x :: x in m' ==> x in m
    ensures Apart(m', dialing)
  {
  }

  lemma ApartStart(h: seq<PastDial>, dialing: Dialing, id: NodeId, flag: Flag)
    requires Apart(multiset(h), dialing) && !Remembers(h, id)
    ensures Apart(multiset(h), dialing[id := flag])
  {
    RemembersIn(h, id);
  }

  lemma Unremembered(h: seq<PastDial>, id: NodeId)
    requires forall x :: x in multiset(h) ==> x.id != id
    ensures !Remembers(h, id)
  {
    RemembersIn(h, id);
  }

  lemma NoEntry(h: seq<PastDial>, id: NodeId)
    requires !Remembers(h, id)
    ensures forall x :: x in multiset(h) ==> x.id != id
  {
    RemembersIn(h, id);
  }

  class DialState {
    const maxDynDials: nat
    const hist: DialHistory
    var lookupRunning: bool
    var dialing: Dialing
    var lookupBuf: seq<NodeId>
    var staticNodes: set<NodeId>

    /** The last time seen, when each node's last dial ended, and the dials handed out and not finished. */
    ghost var clock: Time
    ghost var lastDone: map<NodeId, Time>
    ghost var inFlight: multiset<NodeId>

    /** No node is dialed twice at a time, none that is being dialed is in the history, and the history is complete. */
    ghost predicate Valid()
      reads this`lastDone, this`clock, this`inFlight, this`dialing, hist
    {
      && IsHeap(hist.h) && Recorded(multiset(hist.h), lastDone, clock)
      && inFlight == multiset(dialing.Keys)
      && Apart(multiset(hist.h), dialing)
    }

    constructor (nodes: set<NodeId>, maxDynDials: nat, ghost now: Time)
      ensures Valid() && fresh(hist) && clock == now && staticNodes == nodes && this.maxDynDials == maxDynDials
      ensures dialing == map[] && lookupBuf == [] && !lookupRunning && hist.h == [] && lastDone == map[]
    {
      this.maxDynDials, lookupRunning, dialing, lookupBuf, staticNodes := maxDynDials, false, map[], [], nodes;
      hist := new DialHistory();
      clock, lastDone, inFlight := now, map[], multiset{};
    }

    method AddStatic(id: NodeId)
      requires Valid()
      modifies this`staticNodes
      ensures Valid() && staticNodes == old(staticNodes) + {id}
    {
      staticNodes := staticNodes + {id};
    }

    /** Stops dialing a node, and forgets when it was dialed last. */
    method RemoveStatic(id: NodeId)
      requires Valid()
      modifies this`staticNodes, this`lastDone, hist
      ensures Valid() && staticNodes == old(staticNodes) - {id} && lastDone == old(lastDone) - {id}
      ensures !Remembers(hist.h, id)
    {
      hide IsHeap, Recorded, Apart, Remembers;
      staticNodes := staticNodes - {id};
      ghost var h := hist.h;
      var found := hist.Remove(id);
      Forgotten(h, hist.h, id, lastDone, clock, dialing);
      lastDone := lastDone - {id};
    }

    /** A dial task handed out before has finished. */
    method DialDone(id: NodeId, now: Time)
      requires Valid() && id in dialing && clock <= now
      modifies this`dialing, this`clock, this`lastDone, this`inFlight, hist
      ensures Valid() && clock == now && lastDone == old(lastDone)[id := now]
      ensures dialing == old(dialing) - {id} && inFlight + multiset{id} == old(inFlight)
    {
      hide IsHeap, Recorded, Apart;
      ApartDone(multiset(hist.h), dialing, id, now + HISTORY_EXPIRATION);
      RecordedDone(multiset(hist.h), lastDone, clock, now, id);
      hist.Add(id, now + HISTORY_EXPIRATION);
      dialing := dialing - {id};
      clock, lastDone, inFlight := now, lastDone[id := now], inFlight - multiset{id};
    }

    method DiscoverDone(results: seq<NodeId>)
      requires Valid()
      modifies this`lookupRunning, this`lookupBuf
      ensures Valid() && !lookupRunning && lookupBuf == old(lookupBuf) + results
    {
      lookupRunning := false;
      lookupBuf := lookupBuf + results;
    }

    method IsDialing(id: NodeId, peers: Peers) returns (r: bool)
      ensures r <==> Busy(dialing, peers, hist.h, id)
    {
      var remembered := hist.Contains(id);
      r := id in dialing || id in peers || remembered;
    }

    /** Starts a dial unless the node is busy. */
    method AddDial(flag: Flag, id: NodeId, peers: Peers, tasks: seq<Task>, ghost before: Dialing)
      returns (ok: bool, tasks': seq<Task>)
      requires Valid() && Started(before, dialing, peers, hist.h, tasks)
      modifies this`dialing, this`inFlight
      ensures Valid() && Started(before, dialing, peers, hist.h, tasks')
      ensures ok <==> !Busy(old(dialing), peers, hist.h, id)
      ensures ok ==> dialing == old(dialing)[id := flag] && tasks' == tasks + [Connect(id, flag)]
      ensures !ok ==> dialing == old(dialing) && tasks' == tasks
      ensures old(dialing).Keys <= dialing.Keys
      ensures |DynDials(dialing)| == |DynDials(old(dialing))| + if ok && flag == Dynamic then 1 else 0
    {
      hide IsHeap, Recorded, Started, DynDials, Remembers, Apart;
      var busy := IsDialing(id, peers);
      ok, tasks' := !busy, tasks;
      if ok {
        StartOne(before, dialing, peers, hist.h, tasks, id, flag);
        DynDialsNext(dialing, id, flag);
        ApartStart(hist.h, dialing, id, flag);
        dialing := dialing[id := flag];
        inFlight := inFlight + multiset{id};
        tasks' := tasks + [Connect(id, flag)];
      }
    }

    /** Starts dials to the static nodes that are not busy, in any order. */
    method DialStatic(peers: Peers) returns (tasks: seq<Task>)
      requires Valid()
      modifies this`dialing, this`inFlight
      ensures Valid() && Started(old(dialing), dialing, peers, hist.h, tasks)
      ensures |DynDials(dialing)| == |DynDials(old(dialing))|
      ensures forall id :: id in staticNodes ==> Busy(dialing, peers, hist.h, id)
      ensures forall t :: t in tasks ==> t.Connect? && t.flag == StaticDial && t.id in staticNodes
    {
      hide Valid, Started, DynDials, Remembers;
      tasks := [];
      StartNone(dialing, peers, hist.h);
      var todo := staticNodes;
      while todo != {}
        invariant Valid() && Started(old(dialing), dialing, peers, hist.h, tasks)
        invariant |DynDials(dialing)| == |DynDials(old(dialing))|
        invariant forall id :: id in staticNodes && id !in todo ==> Busy(dialing, peers, hist.h, id)
        invariant forall t :: t in tasks ==> t.Connect? && t.flag == StaticDial && t.id in staticNodes
        invariant todo <= staticNodes
        decreases |todo|
      {
        var id :| id in todo;
        todo := todo - {id};
        var ok;
        ok, tasks := AddDial(StaticDial, id, peers, tasks, old(dialing));
      }
    }

    /** Tries the first `limit` random nodes; no more than half of the dials needed. */
    method DialRandom(random: seq<NodeId>, limit: int, need: int, peers: Peers, tasks: seq<Task>, ghost before: Dialing)
      returns (need': int, tasks': seq<Task>)
      requires Valid() && Started(before, dialing, peers, hist.h, tasks) && limit <= need
      modifies this`dialing, this`inFlight
      ensures Valid() && Started(before, dialing, peers, hist.h, tasks')
      ensures need' == need - (|DynDials(dialing)| - |DynDials(old(dialing))|) && old(dialing).Keys <= dialing.Keys
      ensures if limit <= 0 then need' == need else 0 <= need' <= need
      ensures forall k :: 0 <= k < |random| && k < limit ==> Busy(dialing, peers, hist.h, random[k])
      ensures NewDials(tasks, tasks', random)
    {
      hide Valid, Started, DynDials, Remembers;
      var i := 0;
      need', tasks' := need, tasks;
      while i < limit && i < |random|
        invariant Valid() && Started(before, dialing, peers, hist.h, tasks')
        invariant 0 <= i <= |random| && (i <= limit || i == 0)
        invariant need' == need - (|DynDials(dialing)| - |DynDials(old(dialing))|) && need - i <= need' <= need
        invariant old(dialing).Keys <= dialing.Keys
        invariant forall k :: 0 <= k < i ==> Busy(dialing, peers, hist.h, random[k])
        invariant NewDials(tasks, tasks', random)
      {
        var ok;
        ok, tasks' := AddDial(Dynamic, random[i], peers, tasks', before);
        if ok {
          need' := need' - 1;
        }
        i := i + 1;
      }
    }

    /** Tries the nodes in order while dials are needed. */
    method DialWhileNeeded(nodes: seq<NodeId>, need: int, peers: Peers, tasks: seq<Task>, ghost before: Dialing)
      returns (i: nat, need': int, tasks': seq<Task>)
      requires Valid() && Started(before, dialing, peers, hist.h, tasks)
      modifies this`dialing, this`inFlight
      ensures Valid() && Started(before, dialing, peers, hist.h, tasks')
      ensures need' == need - (|DynDials(dialing)| - |DynDials(old(dialing))|) && old(dialing).Keys <= dialing.Keys
      ensures if need <= 0 then need' == need && i == 0 else 0 <= need' <= need
      ensures i <= |nodes| && (need' > 0 ==> i == |nodes|)
      ensures forall k :: 0 <= k < i ==> Busy(dialing, peers, hist.h, nodes[k])
      ensures NewDials(tasks, tasks', nodes)
    {
      hide Valid, Started, DynDials, Remembers;
      i, need', tasks' := 0, need, tasks;
      while i < |nodes| && need' > 0
        invariant Valid() && Started(before, dialing, peers, hist.h, tasks')
        invariant i <= |nodes|
        invariant need' == need - (|DynDials(dialing)| - |DynDials(old(dialing))|) && old(dialing).Keys <= dialing.Keys
        invariant if need <= 0 then need' == need && i == 0 else 0 <= need' <= need
        invariant forall k :: 0 <= k < i ==> Busy(dialing, peers, hist.h, nodes[k])
        invariant NewDials(tasks, tasks', nodes)
      {
        var ok;
        ok, tasks' := AddDial(Dynamic, nodes[i], peers, tasks', before);
        if ok {
          need' := need' - 1;
        }
        i := i + 1;
      }
    }

    /** Tries lookup results while dials are needed, and drops those tried. */
    method DialLookups(need: int, peers: Peers, tasks: seq<Task>, ghost before: Dialing)
      returns (need': int, tasks': seq<Task>)
      requires Valid() && Started(before, dialing, peers, hist.h, tasks)
      modifies this`dialing, this`inFlight, this`lookupBuf
      ensures Valid() && Started(before, dialing, peers, hist.h, tasks')
      ensures need' == need - (|DynDials(dialing)| - |DynDials(old(dialing))|) && old(dialing).Keys <= dialing.Keys
      ensures if need <= 0 then need' == need && lookupBuf == old(lookupBuf) else 0 <= need' <= need
      ensures need' > 0 ==> lookupBuf == []
      ensures Consumed(old(lookupBuf), lookupBuf, dialing, peers, hist.h)
      ensures NewDials(tasks, tasks', old(lookupBuf))
    {
      hide IsHeap, Recorded, Apart, Started, DynDials, Remembers, NewDials;
      var i;
      i, need', tasks' := DialWhileNeeded(lookupBuf, need, peers, tasks, before);
      lookupBuf := lookupBuf[i..];
    }

    /** Starts the dials of one turn: static ones, then dynamic ones for random nodes and lookup results. */
    method StartDials(peers: Peers, random: seq<NodeId>) returns (need: int, tasks: seq<Task>)
      requires Valid()
      modifies this`dialing, this`inFlight, this`lookupBuf
      ensures Valid() && Started(old(dialing), dialing, peers, hist.h, tasks)
      ensures need == maxDynDials - DynTotal(peers, dialing)
      ensures need >= if DynTotal(peers, old(dialing)) <= maxDynDials then 0
        else maxDynDials - DynTotal(peers, old(dialing))
      ensures need > 0 ==> lookupBuf == []
      ensures forall k :: 0 <= k < |random| && k < (maxDynDials - DynTotal(peers, old(dialing))) / 2 ==>
                          Busy(dialing, peers, hist.h, random[k])
      ensures forall id :: id in staticNodes ==> Busy(dialing, peers, hist.h, id)
      ensures AllChosen(tasks, staticNodes, random, old(lookupBuf))
      ensures Consumed(old(lookupBuf), lookupBuf, dialing, peers, hist.h)
    {
      hide Valid, Started, DynDials, DynPeers, Remembers, NewDials, Consumed, AllChosen;
      need := CountNeeded(peers);
      tasks := DialStatic(peers);
      StaticChosen(tasks, staticNodes, random, lookupBuf);
      var candidates := need / 2;
      if candidates > 0 {
        ghost var before := tasks;
        need, tasks := DialRandom(random, candidates, need, peers, tasks, old(dialing));
        MoreChosen(before, tasks, random, staticNodes, random, lookupBuf);
      }
      ghost var before, found := tasks, lookupBuf;
      need, tasks := DialLookups(need, peers, tasks, old(dialing));
      MoreChosen(before, tasks, found, staticNodes, random, found);
    }

    /** No node is dialed again before its last dial is long enough ago. */
    method StartAll(peers: Peers, random: seq<NodeId>) returns (need: int, tasks: seq<Task>)
      requires Valid()
      modifies this`dialing, this`inFlight, this`lookupBuf
      ensures Valid() && Started(old(dialing), dialing, peers, hist.h, tasks)
      ensures need == maxDynDials - DynTotal(peers, dialing)
      ensures need >= if DynTotal(peers, old(dialing)) <= maxDynDials then 0
        else maxDynDials - DynTotal(peers, old(dialing))
      ensures need > 0 ==> lookupBuf == []
      ensures forall k :: 0 <= k < |random| && k < (maxDynDials - DynTotal(peers, old(dialing))) / 2 ==>
                          Busy(dialing, peers, hist.h, random[k])
      ensures forall id :: id in staticNodes ==> Busy(dialing, peers, hist.h, id)
      ensures inFlight == old(inFlight) + Dials(tasks)
      ensures forall t :: t in tasks ==>
        t.Connect? && (t.id in lastDone ==> lastDone[t.id] + 30 < clock)
      ensures AllChosen(tasks, staticNodes, random, old(lookupBuf))
      ensures Consumed(old(lookupBuf), lookupBuf, dialing, peers, hist.h)
    {
      hide IsHeap, Recorded, Apart, Started, DynTotal, Remembers, Dials, Busy, Consumed;
      need, tasks := StartDials(peers, random);
      DialsFresh(old(dialing), dialing, peers, hist.h, tasks, lastDone, clock);
    }

    method ExpireHistory(now: Time)
      requires Valid() && clock <= now
      modifies this`clock, hist
      ensures Valid() && clock == now
      ensures forall x: PastDial :: multiset(hist.h)[x] == if x.exp < now then 0 else multiset(old(hist.h))[x]
      ensures forall x :: x in hist.h ==> now <= hist.h[0].exp <= x.exp
    {
      hide IsHeap, Recorded, Apart;
      ghost var before := multiset(hist.h);
      hist.Expire(now);
      RecordedLater(before, multiset(hist.h), lastDone, clock, now);
      ApartLess(before, multiset(hist.h), dialing);
      EarliestFirst(hist.h, now);
      clock := now;
    }

    /** One turn of the server loop: the dials, a lookup if more candidates are needed, and a timer if there
        is nothing else to do. */
    method NewTasks(nRunning: nat, peers: Peers, now: Time, random: seq<NodeId>)
      returns (tasks: seq<Task>, ghost dials: seq<Task>)
      requires Valid() && clock <= now
      modifies this, hist
      ensures Valid() && clock == now && lastDone == old(lastDone) && staticNodes == old(staticNodes)
      ensures forall x: PastDial :: multiset(hist.h)[x] == if x.exp < now then 0 else multiset(old(hist.h))[x]
      ensures inFlight == old(inFlight) + Dials(dials) && Started(old(dialing), dialing, peers, hist.h, dials)
      ensures forall t :: t in dials ==> t.Connect? && (t.id in lastDone ==> lastDone[t.id] + 30 < now)
      ensures AllChosen(dials, staticNodes, random, old(lookupBuf))
      ensures Consumed(old(lookupBuf), lookupBuf, dialing, peers, hist.h)
      ensures DynTotal(peers, dialing) <= if DynTotal(peers, old(dialing)) <= maxDynDials then maxDynDials
                                          else DynTotal(peers, old(dialing))
      ensures forall k :: 0 <= k < |random| && k < (maxDynDials - DynTotal(peers, old(dialing))) / 2 ==>
                          Busy(dialing, peers, hist.h, random[k])
      ensures forall id :: id in staticNodes ==> Busy(dialing, peers, hist.h, id)
      ensures DynTotal(peers, dialing) < maxDynDials ==> lookupBuf == [] && lookupRunning
      ensures tasks == dials + (if lookupRunning && !old(lookupRunning) then [Discover] else [])
                             + (if nRunning == 0 && dials == [] && lookupRunning == old(lookupRunning) && hist.h != []
                                then [WaitExpire(hist.h[0].exp - now)] else [])
      ensures forall x :: x in hist.h ==> now <= hist.h[0].exp <= x.exp
    {
      hide Valid, Started, DynTotal, Remembers, Dials, Busy, Consumed, Chosen;
      ExpireHistory(now);
      var need;
      need, tasks := StartAll(peers, random);
      dials := tasks;
      if |lookupBuf| < need && !lookupRunning {
        lookupRunning := true;
        tasks := tasks + [Discover];
      }
      if nRunning == 0 && |tasks| == 0 && |hist.h| > 0 {
        tasks := tasks + [WaitExpire(hist.h[0].exp - now)];
      }
    }

    /** How many dynamic dials are missing. */
    method CountNeeded(peers: Peers) returns (need: int)
      ensures need == maxDynDials - DynTotal(peers, dialing)
    {
      need := maxDynDials;
      var todo := peers.Keys;
      ghost var seen: set<NodeId> := {};
      while todo != {}
        invariant todo <= peers.Keys && seen == (set id | id in peers && id !in todo && peers[id])
        invariant need == maxDynDials - |seen|
        decreases |todo|
      {
        var id :| id in todo;
        todo := todo - {id};
        if peers[id] {
          need := need - 1;
          seen := seen + {id};
        }
      }
      assert seen == DynPeers(peers);
      todo := dialing.Keys;
      ghost var flying: set<NodeId> := {};
      while todo != {}
        invariant todo <= dialing.Keys && flying == (set id | id in dialing && id !in todo && dialing[id] == Dynamic)
        invariant need == maxDynDials - |seen| - |flying|
        decreases |todo|
      {
        var id :| id in todo;
        todo := todo - {id};
        if dialing[id] == Dynamic {
          need := need - 1;
          flying := flying + {id};
        }
      }
      assert flying == DynDials(dialing);
    }
  }

  lemma {:induction false} DialedIn(tasks: seq<Task>, id: NodeId)
    ensures id in Dials(tasks) <==> exists k :: 0 <= k < |tasks| && tasks[k].Connect? && tasks[k].id == id
  {
    if tasks != [] {
      var n := |tasks| - 1;
      DialedIn(tasks[..n], id);
      if k :| 0 <= k < |tasks| && tasks[k].Connect? && tasks[k].id == id {
        assert k < n ==> tasks[..n][k] == tasks[k];
      }
    }
  }

  /** One turn starts no more dynamic dials than are missing, counting connected peers and dials under way. */
  lemma DynamicDialsWithinLimit(before: Dialing, dialing: Dialing, peers: Peers, h: seq<PastDial>, dials: seq<Task>,
                                limit: nat)
    requires Started(before, dialing, peers, h, dials)
    requires DynTotal(peers, dialing) <= if DynTotal(peers, before) <= limit then limit else DynTotal(peers, before)
    ensures var connected := |set id | id in peers && peers[id]|;
      var flying := |set id | id in before && before[id] == Dynamic|;
      var started := |set t | t in dials && t.Connect? && t.flag == Dynamic :: t.id|;
      started <= if connected + flying <= limit then limit - connected - flying else 0
  {
    hide Dials, Remembers;
    var started := set t | t in dials && t.Connect? && t.flag == Dynamic :: t.id;
    forall id | id in started
      ensures id !in before && id in DynDials(dialing)
    {
      var t :| t in dials && t.Connect? && t.flag == Dynamic && t.id == id;
      var k :| 0 <= k < |dials| && dials[k] == t;
      DialedIn(dials, id);
      assert multiset(dialing.Keys)[id] == multiset(before.Keys)[id] + Dials(dials)[id];
    }
    assert DynDials(before) + started <= DynDials(dialing) && DynDials(before) !! started;
    SetsWithin(DynDials(before), started, DynDials(dialing));
    assert (set id | id in peers && peers[id]) == DynPeers(peers);
    assert (set id | id in before && before[id] == Dynamic) == DynDials(before);
    assert (set t | t in dials && t.Connect? && t.flag == Dynamic :: t.id) == started;
  }

  lemma SetsWithin(a: set<NodeId>, b: set<NodeId>, all: set<NodeId>)
    requires a !! b && a + b <= all
    ensures |a| + |b| <= |all|
  {
    assert |a + b| == |a| + |b|;
    assert all == (a + b) + (all - (a + b));
  }

  lemma EarliestFirst(h: seq<PastDial>, now: Time)
    requires IsHeap(h) && forall x: PastDial :: x.exp < now ==> multiset(h)[x] == 0
    ensures forall x :: x in h ==> now <= h[0].exp <= x.exp
  {
    hide IsHeap;
    forall x | x in h
      ensures now <= h[0].exp <= x.exp
    {
      var i :| 0 <= i < |h| && h[i] == x;
      FirstIsMin(h, i);
      assert h[0] in multiset(h);
    }
  }

  lemma DialsFresh(before: Dialing, dialing: Dialing, peers: Peers, h: seq<PastDial>, dials: seq<Task>,
                   lastDone: map<NodeId, Time>, now: Time)
    requires Started(before, dialing, peers, h, dials) && Recorded(multiset(h), lastDone, now)
    ensures multiset(dialing.Keys) == multiset(before.Keys) + Dials(dials)
    ensures forall t :: t in dials && t.Connect? && t.id in lastDone ==> lastDone[t.id] + 30 < now
  {
    hide Remembers, Recorded, Dials;
    forall t | t in dials && t.Connect? && t.id in lastDone
      ensures lastDone[t.id] + 30 < now
    {
      NotRedialed(h, lastDone, now, t.id);
    }
  }

  /** Tasks appended are dynamic dials to nodes of the list. */
  ghost predicate NewDials(tasks: seq<Task>, tasks': seq<Task>, nodes: seq<NodeId>) {
    tasks <= tasks' && forall t :: t in tasks'[|tasks|..] ==> t.Connect? && t.flag == Dynamic && t.id in nodes
  }

  lemma StaticChosen(tasks: seq<Task>, staticNodes: set<NodeId>, random: seq<NodeId>, found: seq<NodeId>)
    requires forall t :: t in tasks ==> t.Connect? && t.flag == StaticDial && t.id in staticNodes
    ensures AllChosen(tasks, staticNodes, random, found)
  {
  }

  lemma MoreChosen(tasks: seq<Task>, tasks': seq<Task>, nodes: seq<NodeId>, staticNodes: set<NodeId>,
                   random: seq<NodeId>, found: seq<NodeId>)
    requires AllChosen(tasks, staticNodes, random, found) && NewDials(tasks, tasks', nodes)
    requires nodes == random || nodes == found
    ensures AllChosen(tasks', staticNodes, random, found)
  {
    assert tasks' == tasks + tasks'[|tasks|..];
  }

  /** After a removal the history is that of the other nodes. */
  lemma Forgotten(h: seq<PastDial>, h': seq<PastDial>, id: NodeId, lastDone: map<NodeId, Time>, clock: Time,
                  dialing: Dialing)
    requires Recorded(multiset(h), lastDone, clock) && Apart(multiset(h), dialing)
    requires if Remembers(h, id) then exists x :: x in h && x.id == id && multiset(h') + multiset{x} == multiset(h)
      else h' == h
    ensures Recorded(multiset(h'), lastDone - {id}, clock) && Apart(multiset(h'), dialing) && !Remembers(h', id)
  {
    hide Recorded, Apart, Remembers;
    if Remembers(h, id) {
      var x :| x in h && x.id == id && multiset(h') + multiset{x} == multiset(h);
      RecordedCleared(multiset(h), multiset(h'), x, lastDone, clock);
      ClearedGone(multiset(h), multiset(h'), x, lastDone, clock);
      ApartLess(multiset(h), multiset(h'), dialing);
      Unremembered(h', id);
    } else {
      NoEntry(h, id);
      RecordedForgot(multiset(h), lastDone, clock, id);
    }
  }

  lemma ClearedGone(m: multiset<PastDial>, m': multiset<PastDial>, x: PastDial, lastDone: map<NodeId, Time>,
                    clock: Time)
    requires Recorded(m, lastDone, clock) && m' + multiset{x} == m
    ensures forall y :: y in m' ==> y.id != x.id && y in m
  {
    forall y | y in m'
      ensures y.id != x.id && y in m
    {
      assert y in m && x in m;
      assert m[y] >= m'[y];
    }
  }
}
