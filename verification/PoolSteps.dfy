/** What one pass over the transaction pool does to each account (core/tx_pool.go): pending transactions can be applied
    to the current state, queued ones wait behind a nonce gap. A pool is described by hashes; `named` is the
    transaction each hash stands for. */
module PoolSteps {
  import opened Types

  const MAX_QUEUED := 64

  /** `signed` is false when no sender can be recovered; `intrinsic` is the message's intrinsic gas. */
  datatype Tx = Tx(hash: Hash, from: Address, signed: bool, nonce: nat, price: nat, gas: nat, value: int,
                   intrinsic: nat) {
    function Cost(): int { price * gas + value }
  }

  type Naming = Hash -> Tx

  datatype AccountState = AccountState(nonce: nat, balance: nat)

  type ChainState = map<Address, AccountState>

  function StateNonce(state: ChainState, a: Address): nat { if a in state then state[a].nonce else 0 }
  function StateBalance(state: ChainState, a: Address): nat { if a in state then state[a].balance else 0 }

  /** A transaction the state can still take: nonce not used up, cost covered. */
  predicate Live(state: ChainState, tx: Tx) {
    tx.nonce >= StateNonce(state, tx.from) && tx.Cost() <= StateBalance(state, tx.from)
  }

  /** The nonce tracked for an account: the overlay's, or the state's. */
  function Tracked(state: ChainState, overlay: map<Address, nat>, a: Address): nat {
    if a in overlay then overlay[a] else StateNonce(state, a)
  }

  /** Some pending transaction of account `a` has nonce `n`. */
  ghost predicate Covered(named: Naming, pending: set<Hash>, a: Address, n: nat) {
    exists h :: h in pending && named(h).from == a && named(h).nonce == n
  }

  ghost predicate LiveSet(named: Naming, state: ChainState, hashes: set<Hash>) {
    forall h :: h in hashes ==> Live(state, named(h))
  }

  /** Every pending transaction is live, and every nonce from the account's up to its own is pending too. */
  ghost predicate GapFree(named: Naming, state: ChainState, pending: set<Hash>) {
    && LiveSet(named, state, pending)
    && forall h, n: nat {:trigger h in pending, Covered(named, pending, named(h).from, n)} ::
         h in pending && StateNonce(state, named(h).from) <= n < named(h).nonce ==>
           Covered(named, pending, named(h).from, n)
  }

  /** Everything from the account's nonce below its tracked nonce is pending. */
  ghost predicate Backed(named: Naming, state: ChainState, pending: set<Hash>, a: Address, tracked: nat) {
    forall n: nat :: StateNonce(state, a) <= n < tracked ==> Covered(named, pending, a, n)
  }

  /** The tracked nonce is past every pending one of the account. */
  ghost predicate Tight(named: Naming, pending: set<Hash>, a: Address, tracked: nat) {
    forall h :: h in pending && named(h).from == a ==> named(h).nonce < tracked
  }

  ghost function LiveOf(named: Naming, state: ChainState, hashes: set<Hash>): set<Hash> {
    set h | h in hashes && Live(state, named(h))
  }

  ghost predicate HasNonce(named: Naming, hashes: set<Hash>, n: nat) {
    exists h :: h in hashes && named(h).nonce == n
  }

  /** What a check of an account's live queued transactions does, for a run of nonces from `tracked` that ends at `end`:
      all below the end are promoted, of those past it the `MAX_QUEUED` with the lowest nonces stay. */
  ghost predicate Cut(named: Naming, live: set<Hash>, tracked: nat, end: nat, promoted: set<Hash>, kept: set<Hash>) {
    && tracked <= end
    && !HasNonce(named, live, end)
    && (forall n: nat :: tracked <= n < end ==> HasNonce(named, live, n))
    && promoted <= live && (forall h :: h in live ==> (h in promoted <==> named(h).nonce < end))
    && kept <= live - promoted
    && (if |live - promoted| <= MAX_QUEUED then kept == live - promoted
        else |kept| == MAX_QUEUED
             && forall h, k :: h in live && h !in promoted && h !in kept && k in kept ==>
                  named(k).nonce <= named(h).nonce)
  }

  /** The tracked nonce moves to one past the highest promoted nonce, in either direction. */
  ghost predicate Moved(named: Naming, promoted: set<Hash>, tracked: nat, next: nat) {
    if promoted == {} then next == tracked
    else (exists h :: h in promoted && named(h).nonce + 1 == next)
         && forall h :: h in promoted ==> named(h).nonce < next
  }

  /** One account through one check of its queue. */
  ghost predicate Checked(named: Naming, live: set<Hash>, tracked: nat, promoted: set<Hash>, kept: set<Hash>,
                          next: nat) {
    && (exists end: nat :: Cut(named, live, tracked, end, promoted, kept))
    && Moved(named, promoted, tracked, next)
  }

  /** The transactions of a validated pending set that stay: live, and no unfunded transaction of the account at or
      below. */
  ghost predicate Unfunded(state: ChainState, tx: Tx) {
    tx.nonce >= StateNonce(state, tx.from) && tx.Cost() > StateBalance(state, tx.from)
  }

  ghost predicate Postponed(named: Naming, state: ChainState, pending: set<Hash>, h: Hash) {
    exists u :: u in pending && named(u).from == named(h).from && named(u).nonce <= named(h).nonce
      && Unfunded(state, named(u))
  }

  ghost function Validated(named: Naming, state: ChainState, pending: set<Hash>): set<Hash> {
    set h | h in pending && Live(state, named(h)) && !Postponed(named, state, pending, h)
  }

  ghost function Demoted(named: Naming, state: ChainState, pending: set<Hash>, a: Address): set<Hash> {
    set h | h in pending && named(h).from == a && Live(state, named(h)) && Postponed(named, state, pending, h)
  }

  // ---- one account ----

  /** Promoted transactions close up with the pending ones: no gap appears below any of them. */
  lemma PromotedCovered(named: Naming, state: ChainState, pending: set<Hash>, a: Address, tracked: nat,
                        live: set<Hash>, end: nat, promoted: set<Hash>, kept: set<Hash>, n: nat)
    requires Backed(named, state, pending, a, tracked)
    requires forall h :: h in live ==> named(h).from == a
    requires Cut(named, live, tracked, end, promoted, kept)
    requires StateNonce(state, a) <= n < end
    ensures Covered(named, pending + promoted, a, n)
  {
    if n < tracked {
      assert Covered(named, pending, a, n);
      var h :| h in pending && named(h).from == a && named(h).nonce == n;
      assert h in pending + promoted;
    } else {
      assert HasNonce(named, live, n);
      var h :| h in live && named(h).nonce == n;
      assert h in pending + promoted;
    }
  }

  /** The next tracked nonce is still backed by pending transactions. */
  lemma MovedBacked(named: Naming, state: ChainState, pending: set<Hash>, a: Address, tracked: nat,
                    live: set<Hash>, promoted: set<Hash>, kept: set<Hash>, next: nat)
    requires Backed(named, state, pending, a, tracked)
    requires forall h :: h in live ==> named(h).from == a
    requires Checked(named, live, tracked, promoted, kept, next)
    ensures Backed(named, state, pending + promoted, a, next)
  {
    var end: nat :| Cut(named, live, tracked, end, promoted, kept);
    assert next <= end;
    forall n: nat | StateNonce(state, a) <= n < next
      ensures Covered(named, pending + promoted, a, n)
    {
      PromotedCovered(named, state, pending, a, tracked, live, end, promoted, kept, n);
    }
  }

  /** The tracked nonce passes every pending one after a check exactly when no live transaction is queued at or below
      it, or one is queued at it or right below it. A replacement for an older nonce pulls the tracked nonce back. */
  lemma TightIff(named: Naming, state: ChainState, pending: set<Hash>, a: Address, tracked: nat,
                 live: set<Hash>, promoted: set<Hash>, kept: set<Hash>, next: nat)
    requires Backed(named, state, pending, a, tracked) && Tight(named, pending, a, tracked)
    requires LiveSet(named, state, live) && forall h :: h in live ==> named(h).from == a
    requires Checked(named, live, tracked, promoted, kept, next)
    ensures Tight(named, pending + promoted, a, next) <==>
            (forall h :: h in live ==> named(h).nonce > tracked)
            || (exists h :: h in live && tracked <= named(h).nonce + 1 <= tracked + 1)
  {
    var end: nat :| Cut(named, live, tracked, end, promoted, kept);
    if h :| h in live && tracked <= named(h).nonce + 1 <= tracked + 1 {
      assert h in promoted;
    } else {
      assert end == tracked by {
        assert !HasNonce(named, live, tracked);
      }
      if h :| h in live && named(h).nonce <= tracked {
        assert h in promoted && next < tracked;
        assert Covered(named, pending, a, tracked - 1);
        var p :| p in pending && named(p).from == a && named(p).nonce == tracked - 1;
        assert p in pending + promoted;
      } else {
        assert promoted == {};
      }
    }
  }

  /** With a tight tracked nonce a check leaves in the queue only what waits behind a nonce nobody has pending. */
  lemma QueuedBehindGap(named: Naming, state: ChainState, pending: set<Hash>, a: Address, tracked: nat,
                        live: set<Hash>, promoted: set<Hash>, kept: set<Hash>, next: nat) returns (gap: nat)
    requires StateNonce(state, a) <= tracked
    requires Tight(named, pending, a, tracked)
    requires forall h :: h in live ==> named(h).from == a
    requires Checked(named, live, tracked, promoted, kept, next)
    ensures StateNonce(state, a) <= gap && !Covered(named, pending + promoted, a, gap)
    ensures forall h :: h in kept ==> gap < named(h).nonce
  {
    var end: nat :| Cut(named, live, tracked, end, promoted, kept);
    gap := end;
    forall h | h in kept
      ensures gap < named(h).nonce
    {
      assert h in live && named(h).nonce != end;
    }
  }

  /** Two different transactions with an account's first nonce: promoting the second pulls the tracked nonce from 2 back
      to 1, and the next check then leaves nonce 2 queued although 0 and 1 are pending. */
  lemma ReplacementStallsQueue(named: Naming, a: Address, first: Hash, second: Hash, again: Hash, third: Hash)
    requires named(first).from == named(second).from == named(again).from == named(third).from == a
    requires named(first).nonce == named(again).nonce == 0 && named(second).nonce == 1 && named(third).nonce == 2
    ensures Backed(named, map[], {first, second}, a, 2) && Tight(named, {first, second}, a, 2)
    ensures Checked(named, {again}, 2, {again}, {}, 1) && !Tight(named, {first, second, again}, a, 1)
    ensures Checked(named, {third}, 1, {}, {third}, 1)
    ensures Covered(named, {first, second, again}, a, 0) && Covered(named, {first, second, again}, a, 1)
  {
    assert Cut(named, {again}, 2, 2, {again}, {}) by {
      assert {again} - {again} == {};
    }
    assert Cut(named, {third}, 1, 1, {}, {third}) by {
      assert {third} - {} == {third};
    }
    assert first in {first, second} && second in {first, second};
    assert first in {first, second, again} && second in {first, second, again};
    assert Covered(named, {first, second}, a, 0) && Covered(named, {first, second}, a, 1);
    assert again in {again};
  }

  // ---- the whole pool ----

  /** Validation keeps the pending set gap-free under a state whose nonces have not gone back. */
  lemma ValidatedGapFree(named: Naming, state: ChainState, state': ChainState, pending: set<Hash>)
    requires GapFree(named, state, pending)
    requires forall a :: StateNonce(state, a) <= StateNonce(state', a)
    ensures GapFree(named, state', Validated(named, state', pending))
  {
    var kept := Validated(named, state', pending);
    forall h, n: nat | h in kept && StateNonce(state', named(h).from) <= n < named(h).nonce
      ensures Covered(named, kept, named(h).from, n)
    {
      assert h in pending;
      assert Covered(named, pending, named(h).from, n);
      var p :| p in pending && named(p).from == named(h).from && named(p).nonce == n;
      assert Live(state', named(p)) && !Postponed(named, state', pending, p);
      assert p in kept;
    }
  }

  /** Validation changes nothing when every pending transaction is live. */
  lemma ValidatedAllLive(named: Naming, state: ChainState, pending: set<Hash>)
    requires LiveSet(named, state, pending)
    ensures Validated(named, state, pending) == pending
    ensures forall a :: Demoted(named, state, pending, a) == {}
  {
  }

  type Queued = Address -> set<Hash>

  /** Every queued hash is filed under its sender and is not pending. */
  ghost predicate Filed(named: Naming, pending: set<Hash>, queued: Queued) {
    forall a, h :: h in queued(a) ==> named(h).from == a && h !in pending
  }

  /** All accounts through one check. */
  ghost predicate CheckedAll(named: Naming, state: ChainState, pending: set<Hash>, queued: Queued,
                             overlay: map<Address, nat>,
                             pending': set<Hash>, queued': Queued, overlay': map<Address, nat>) {
    && pending <= pending'
    && (forall h :: h in pending' ==> h in pending || h in queued(named(h).from))
    && forall a :: Checked(named, LiveOf(named, state, queued(a)), Tracked(state, overlay, a),
                           queued(a) * pending', queued'(a), Tracked(state, overlay', a))
  }

  ghost predicate BackedAll(named: Naming, state: ChainState, pending: set<Hash>, overlay: map<Address, nat>) {
    forall a :: Backed(named, state, pending, a, Tracked(state, overlay, a))
  }

  lemma CoveredMore(named: Naming, pending: set<Hash>, more: set<Hash>, a: Address, n: nat)
    requires Covered(named, pending, a, n) && pending <= more
    ensures Covered(named, more, a, n)
  {
    var h :| h in pending && named(h).from == a && named(h).nonce == n;
    assert h in more;
  }

  /** A check of all queues keeps the pending set gap-free, the tracked nonces backed and the two sets disjoint. */
  lemma CheckKeepsGapFree(named: Naming, state: ChainState, pending: set<Hash>, queued: Queued,
                          overlay: map<Address, nat>, pending': set<Hash>, queued': Queued, overlay': map<Address, nat>)
    requires Filed(named, pending, queued)
    requires GapFree(named, state, pending) && BackedAll(named, state, pending, overlay)
    requires CheckedAll(named, state, pending, queued, overlay, pending', queued', overlay')
    ensures GapFree(named, state, pending') && BackedAll(named, state, pending', overlay')
    ensures Filed(named, pending', queued')
  {
    forall h | h in pending' && h !in pending
      ensures Live(state, named(h))
      ensures forall n: nat :: StateNonce(state, named(h).from) <= n < named(h).nonce ==>
        Covered(named, pending', named(h).from, n)
    {
      var a := named(h).from;
      PromotedGapFree(named, state, pending, queued, overlay, pending', queued', overlay', a, h);
    }
    forall h, n: nat | h in pending' && StateNonce(state, named(h).from) <= n < named(h).nonce
      ensures Covered(named, pending', named(h).from, n)
    {
      if h in pending {
        CoveredMore(named, pending, pending', named(h).from, n);
      }
    }
    forall a
      ensures Backed(named, state, pending', a, Tracked(state, overlay', a))
    {
      MovedBacked(named, state, pending, a, Tracked(state, overlay, a), LiveOf(named, state, queued(a)),
                  queued(a) * pending', queued'(a), Tracked(state, overlay', a));
      forall n: nat | StateNonce(state, a) <= n < Tracked(state, overlay', a)
        ensures Covered(named, pending', a, n)
      {
        CoveredMore(named, pending + queued(a) * pending', pending', a, n);
      }
    }
    forall a, h | h in queued'(a)
      ensures named(h).from == a && h !in pending'
    {
      KeptWasQueued(named, LiveOf(named, state, queued(a)), Tracked(state, overlay, a),
                    queued(a) * pending', queued'(a), Tracked(state, overlay', a));
    }
  }

  lemma KeptWasQueued(named: Naming, live: set<Hash>, tracked: nat, promoted: set<Hash>, kept: set<Hash>, next: nat)
    requires Checked(named, live, tracked, promoted, kept, next)
    ensures kept <= live && promoted <= live && kept !! promoted && |kept| <= MAX_QUEUED
  {
    var end: nat :| Cut(named, live, tracked, end, promoted, kept);
  }

  lemma PromotedGapFree(named: Naming, state: ChainState, pending: set<Hash>, queued: Queued,
                        overlay: map<Address, nat>,
                        pending': set<Hash>, queued': Queued, overlay': map<Address, nat>, a: Address, h: Hash)
    requires Filed(named, pending, queued) && BackedAll(named, state, pending, overlay)
    requires CheckedAll(named, state, pending, queued, overlay, pending', queued', overlay')
    requires h in pending' && h !in pending && a == named(h).from
    ensures Live(state, named(h))
    ensures forall n: nat :: StateNonce(state, a) <= n < named(h).nonce ==> Covered(named, pending', a, n)
  {
    var live, tracked, promoted, kept := LiveOf(named, state, queued(a)), Tracked(state, overlay, a),
      queued(a) * pending', queued'(a);
    assert Checked(named, live, tracked, promoted, kept, Tracked(state, overlay', a));
    var end: nat :| Cut(named, live, tracked, end, promoted, kept);
    assert h in promoted;
    forall n: nat | StateNonce(state, a) <= n < named(h).nonce
      ensures Covered(named, pending', a, n)
    {
      PromotedCovered(named, state, pending, a, tracked, live, end, promoted, kept, n);
      CoveredMore(named, pending + promoted, pending', a, n);
    }
  }

  ghost predicate Held(named: Naming, pending: set<Hash>, queued: Queued, h: Hash) {
    h in pending || h in queued(named(h).from)
  }

  /** The transaction lost its place: its account keeps the allowed number of queued transactions, none of them with a
      higher nonce. */
  ghost predicate Crowded(named: Naming, queued: Queued, h: Hash) {
    && |queued(named(h).from)| == 64
    && forall k :: k in queued(named(h).from) ==> named(k).nonce <= named(h).nonce
  }

  /** Nothing is lost except what the state can no longer take and what the queue limit crowds out; nothing appears. */
  ghost predicate Conserved(named: Naming, state: ChainState, pending: set<Hash>, queued: Queued, pending': set<Hash>,
                            queued': Queued) {
    && (forall h :: Held(named, pending, queued, h) ==>
          Held(named, pending', queued', h) || !Live(state, named(h)) || Crowded(named, queued', h))
    && (forall h :: Held(named, pending', queued', h) ==> Held(named, pending, queued, h))
  }

  lemma CheckConserves(named: Naming, state: ChainState, pending: set<Hash>, queued: Queued, overlay: map<Address, nat>,
                       pending': set<Hash>, queued': Queued, overlay': map<Address, nat>)
    requires CheckedAll(named, state, pending, queued, overlay, pending', queued', overlay')
    ensures Conserved(named, state, pending, queued, pending', queued')
  {
    forall h
      ensures h in queued(named(h).from) && Live(state, named(h)) && h !in pending' && h !in queued'(named(h).from) ==>
        Crowded(named, queued', h)
      ensures h in queued'(named(h).from) ==> h in queued(named(h).from)
    {
      var a := named(h).from;
      var live := LiveOf(named, state, queued(a));
      var end: nat :| Cut(named, live, Tracked(state, overlay, a), end, queued(a) * pending', queued'(a));
      if h in live && h !in pending' && h !in queued'(a) {
        assert h in live - queued(a) * pending';
      }
    }
  }

  /** Nothing left to do: each queue is within its limit, and holds live transactions past the tracked nonce only. */
  ghost predicate Settled(named: Naming, state: ChainState, queued: Queued, overlay: map<Address, nat>) {
    forall a ::
      && |queued(a)| <= 64
      && forall h :: h in queued(a) ==> Live(state, named(h)) && named(h).nonce > Tracked(state, overlay, a)
  }

  lemma CheckSettles(named: Naming, state: ChainState, pending: set<Hash>, queued: Queued, overlay: map<Address, nat>,
                     pending': set<Hash>, queued': Queued, overlay': map<Address, nat>)
    requires CheckedAll(named, state, pending, queued, overlay, pending', queued', overlay')
    ensures Settled(named, state, queued', overlay')
  {
    forall a
      ensures |queued'(a)| <= 64
      ensures forall h :: h in queued'(a) ==> Live(state, named(h)) && named(h).nonce > Tracked(state, overlay', a)
    {
      var live := LiveOf(named, state, queued(a));
      var end: nat :| Cut(named, live, Tracked(state, overlay, a), end, queued(a) * pending', queued'(a));
      assert Tracked(state, overlay', a) <= end;
      forall h | h in queued'(a)
        ensures named(h).nonce > end
      {
        assert h in live && named(h).nonce != end;
      }
    }
  }

  lemma NothingToDo(named: Naming, live: set<Hash>, tracked: nat, promoted: set<Hash>, kept: set<Hash>, next: nat)
    requires Checked(named, live, tracked, promoted, kept, next)
    requires |live| <= MAX_QUEUED && forall h :: h in live ==> named(h).nonce > tracked
    ensures promoted == {} && kept == live && next == tracked
  {
    var end: nat :| Cut(named, live, tracked, end, promoted, kept);
    assert !HasNonce(named, live, tracked);
    assert promoted == {};
    assert live - promoted == live;
  }

  /** Checking a settled pool changes nothing. */
  lemma SettledStays(named: Naming, state: ChainState, pending: set<Hash>, queued: Queued, overlay: map<Address, nat>,
                     pending': set<Hash>, queued': Queued, overlay': map<Address, nat>)
    requires Settled(named, state, queued, overlay)
    requires CheckedAll(named, state, pending, queued, overlay, pending', queued', overlay')
    ensures pending' == pending
    ensures forall a :: queued'(a) == queued(a) && Tracked(state, overlay', a) == Tracked(state, overlay, a)
  {
    hide Live, Tracked, Checked;
    forall a
      ensures queued'(a) == queued(a) && Tracked(state, overlay', a) == Tracked(state, overlay, a)
      ensures queued(a) !! pending'
    {
      var tracked := Tracked(state, overlay, a);
      assert LiveOf(named, state, queued(a)) == queued(a);
      NothingToDo(named, queued(a), tracked, queued(a) * pending', queued'(a), Tracked(state, overlay', a));
      assert forall h :: h in queued(a) && h in pending' ==> h in queued(a) * pending';
    }
    assert forall h :: h in pending' ==> h in pending;
  }

  ghost predicate GapBefore(named: Naming, state: ChainState, pending: set<Hash>, queued: set<Hash>, a: Address,
                            gap: nat) {
    && StateNonce(state, a) <= gap && !Covered(named, pending, a, gap)
    && forall h :: h in queued ==> gap < named(h).nonce
  }

  ghost predicate Gapped(named: Naming, state: ChainState, pending: set<Hash>, queued: set<Hash>, a: Address) {
    exists gap :: GapBefore(named, state, pending, queued, a, gap)
  }

  /** Whatever is queued waits behind a nonce that no pending transaction of its account has. */
  ghost predicate BehindGaps(named: Naming, state: ChainState, pending: set<Hash>, queued: Queued) {
    forall a :: Gapped(named, state, pending, queued(a), a)
  }

  lemma CheckLeavesGaps(named: Naming, state: ChainState, pending: set<Hash>, queued: Queued,
                        overlay: map<Address, nat>, pending': set<Hash>, queued': Queued, overlay': map<Address, nat>)
    requires Filed(named, pending, queued)
    requires CheckedAll(named, state, pending, queued, overlay, pending', queued', overlay')
    requires forall a ::
      StateNonce(state, a) <= Tracked(state, overlay, a) && Tight(named, pending, a, Tracked(state, overlay, a))
    ensures BehindGaps(named, state, pending', queued')
  {
    forall a
      ensures Gapped(named, state, pending', queued'(a), a)
    {
      var promoted := queued(a) * pending';
      var gap := QueuedBehindGap(named, state, pending, a, Tracked(state, overlay, a), LiveOf(named, state, queued(a)),
                                 promoted, queued'(a), Tracked(state, overlay', a));
      assert forall h :: h in pending' && named(h).from == a ==> h in pending + promoted;
      assert GapBefore(named, state, pending', queued'(a), a, gap);
    }
  }
}
