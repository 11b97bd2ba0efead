/** The dial history (p2p/dial.go): a binary heap of past dials in a slice, ordered by expiry. The heap operations are
    those of Go's container/heap. */
module DialHistory {
  type NodeId = nat
  /** Seconds. */
  type Time = int

  datatype PastDial = PastDial(id: NodeId, exp: Time)

  function Parent(i: nat): (p: nat)
    requires i > 0
    ensures p < i
  {
    (i - 1) / 2
  }

  /** Every entry but `hole` is no earlier than its parent. */
  ghost predicate HeapBut(h: seq<PastDial>, n: nat, hole: nat)
    requires n <= |h|
  {
    forall c :: 0 < c < n && c != hole ==> h[Parent(c)].exp <= h[c].exp
  }

  ghost predicate IsHeap(h: seq<PastDial>) {
    HeapBut(h, |h|, 0)
  }

  /** Every entry but `top` whose parent is not `hole` is no earlier than its parent. */
  ghost predicate HeapAround(h: seq<PastDial>, n: nat, hole: nat, top: nat)
    requires n <= |h|
  {
    forall c :: 0 < c < n && Parent(c) != hole && c != top ==> h[Parent(c)].exp <= h[c].exp
  }

  /** The children of `hole` are no earlier than its parent. */
  ghost predicate Bridged(h: seq<PastDial>, n: nat, hole: nat)
    requires n <= |h|
  {
    hole > 0 ==> forall c :: 0 < c < n && Parent(c) == hole ==> h[Parent(hole)].exp <= h[c].exp
  }

  function Swap(h: seq<PastDial>, i: nat, j: nat): (r: seq<PastDial>)
    requires i < |h| && j < |h|
    ensures multiset(r) == multiset(h)
    ensures |r| == |h| && r[i] == h[j] && r[j] == h[i] && forall k :: 0 <= k < |h| && k != i && k != j ==> r[k] == h[k]
  {
    h[i := h[j]][j := h[i]]
  }

  lemma {:induction false} FirstIsMin(h: seq<PastDial>, i: nat)
    requires IsHeap(h) && i < |h|
    ensures h[0].exp <= h[i].exp
  {
    if i > 0 {
      FirstIsMin(h, Parent(i));
    }
  }

  /** The first `n` entries in another order. */
  ghost predicate Shuffled(h: seq<PastDial>, h': seq<PastDial>, n: nat)
    requires n <= |h|
  {
    |h'| == |h| && multiset(h') == multiset(h) && h'[n..] == h[n..]
  }

  lemma SameShuffled(h: seq<PastDial>, n: nat)
    requires n <= |h|
    ensures Shuffled(h, h, n)
  {
  }

  lemma SwapShuffles(h: seq<PastDial>, h': seq<PastDial>, n: nat, i: nat, j: nat)
    requires n <= |h| && Shuffled(h, h', n) && i < n && j < n
    ensures Shuffled(h, Swap(h', i, j), n)
  {
    assert Swap(h', i, j)[n..] == h'[n..];
  }

  /** Swapping the hole with its parent moves the hole up. */
  lemma UpStep(h: seq<PastDial>, n: nat, j: nat)
    requires 0 < j < n <= |h| && HeapBut(h, n, j) && Bridged(h, n, j) && h[j].exp < h[Parent(j)].exp
    ensures HeapBut(Swap(h, Parent(j), j), n, Parent(j)) && Bridged(Swap(h, Parent(j), j), n, Parent(j))
  {
  }

  lemma UpDone(h: seq<PastDial>, n: nat, j: nat)
    requires j < n <= |h| && HeapBut(h, n, j) && (j > 0 ==> h[Parent(j)].exp <= h[j].exp)
    ensures HeapBut(h, n, 0)
  {
  }

  class DialHistory {
    var h: seq<PastDial>

    constructor ()
      ensures h == [] && IsHeap(h)
    {
      h := [];
    }

    /** Moves the entry at `start` towards the root until its parent is no later. */
    method Up(start: nat, n: nat)
      requires start < n <= |h| && HeapBut(h, n, start) && Bridged(h, n, start)
      modifies this
      ensures Shuffled(old(h), h, n)
      ensures HeapBut(h, n, 0)
    {
      hide Shuffled, HeapBut, Bridged, Parent, Swap;
      SameShuffled(h, n);
      var j: nat := start;
      while j > 0 && h[j].exp < h[Parent(j)].exp
        invariant j < n <= |h| && |h| == |old(h)| && Shuffled(old(h), h, n)
        invariant HeapBut(h, n, j) && Bridged(h, n, j)
      {
        UpStep(h, n, j);
        SwapShuffles(old(h), h, n, Parent(j), j);
        h := Swap(h, Parent(j), j);
        j := Parent(j);
      }
      UpDone(h, n, j);
    }

    /** Moves the entry at `start` away from the root until its children are no earlier. */
    method Down(start: nat, n: nat)
      requires start < n <= |h| && HeapAround(h, n, start, start) && Bridged(h, n, start)
      modifies this
      ensures Shuffled(old(h), h, n)
      ensures HeapBut(h, n, start) && Bridged(h, n, start)
    {
      hide Shuffled, HeapAround, Bridged, HeapBut, Swap;
      SameShuffled(h, n);
      var i: nat := start;
      while true
        invariant i < n <= |h| && |h| == |old(h)| && Shuffled(old(h), h, n)
        invariant HeapAround(h, n, i, start) && Bridged(h, n, i) && start <= i
        invariant 0 < start < i ==> h[Parent(start)].exp <= h[start].exp
        decreases n - i
      {
        var child := 2 * i + 1;
        if child >= n {
          break;
        }
        if child + 1 < n && h[child + 1].exp < h[child].exp {
          child := child + 1;
        }
        if h[child].exp >= h[i].exp {
          break;
        }
        DownStep(h, n, i, child, start);
        SwapShuffles(old(h), h, n, i, child);
        h := Swap(h, i, child);
        i := child;
      }
      DownDone(h, n, i, start);
    }

    method Add(id: NodeId, exp: Time)
      requires IsHeap(h)
      modifies this
      ensures IsHeap(h) && multiset(h) == multiset(old(h)) + multiset{PastDial(id, exp)}
    {
      h := h + [PastDial(id, exp)];
      Up(|h| - 1, |h|);
    }

    /** Takes out the entry at an index: swapped to the end, the one put in its place moved down or up. */
    method RemoveAt(i: nat) returns (x: PastDial)
      requires IsHeap(h) && i < |h|
      modifies this
      ensures IsHeap(h) && x == old(h)[i] && multiset(h) + multiset{x} == multiset(old(h))
    {
      hide HeapAround, Bridged, HeapBut, Shuffled;
      var n := |h| - 1;
      if n != i {
        SwapOut(h, i, n);
        h := Swap(h, i, n);
        assert h[n..] == [h[n]];
        label swapped:
        Down(i, n);
        ShuffledTail(old@swapped(h), h, n);
        label down:
        Up(i, n);
        ShuffledTail(old@down(h), h, n);
      } else {
        WithoutLast(h);
      }
      x := h[n];
      assert h == h[..n] + [x];
      CutHeap(h, n);
      h := h[..n];
    }

    method Contains(id: NodeId) returns (found: bool)
      ensures found <==> Remembers(h, id)
    {
      var i := 0;
      while i < |h|
        invariant i <= |h| && !Remembers(h[..i], id)
      {
        if h[i].id == id {
          return true;
        }
        assert h[..i + 1] == h[..i] + [h[i]];
        i := i + 1;
      }
      assert h[..i] == h;
      found := false;
    }

    /** Forgets a node. */
    method Remove(id: NodeId) returns (found: bool)
      requires IsHeap(h)
      modifies this
      ensures IsHeap(h) && (found <==> Remembers(old(h), id))
      ensures !found ==> h == old(h)
      ensures found ==> exists x :: x in old(h) && x.id == id && multiset(h) + multiset{x} == multiset(old(h))
    {
      var i := 0;
      while i < |h|
        invariant i <= |h| && h == old(h) && forall j :: 0 <= j < i ==> h[j].id != id
      {
        if h[i].id == id {
          var x := RemoveAt(i);
          return true;
        }
        i := i + 1;
      }
      found := false;
    }

    /** Forgets every dial that has expired, and only those. */
    method Expire(now: Time)
      requires IsHeap(h)
      modifies this
      ensures IsHeap(h)
      ensures forall x: PastDial :: multiset(h)[x] == if x.exp < now then 0 else multiset(old(h))[x]
    {
      hide IsHeap;
      while |h| > 0 && h[0].exp < now
        invariant IsHeap(h)
        invariant forall x: PastDial :: x.exp >= now ==> multiset(h)[x] == multiset(old(h))[x]
        decreases |h|
      {
        ghost var before := h;
        var x := RemoveAt(0);
        OneLess(before, h, x);
      }
      NoneExpired(h, now);
    }
  }

  predicate Remembers(h: seq<PastDial>, id: NodeId) {
    exists i :: 0 <= i < |h| && h[i].id == id
  }

  lemma OneLess(h: seq<PastDial>, h': seq<PastDial>, x: PastDial)
    requires multiset(h') + multiset{x} == multiset(h)
    ensures |h'| + 1 == |h|
  {
    assert |multiset(h') + multiset{x}| == |multiset(h)|;
    assert |multiset(h')| == |h'| && |multiset(h)| == |h|;
  }

  /** Of a heap whose first entry has not expired none has. */
  lemma NoneExpired(h: seq<PastDial>, now: Time)
    requires IsHeap(h) && (|h| > 0 ==> h[0].exp >= now)
    ensures forall x: PastDial :: x.exp < now ==> multiset(h)[x] == 0
  {
    hide IsHeap;
    forall x | x in multiset(h)
      ensures x.exp >= now
    {
      assert x in h;
      var i :| 0 <= i < |h| && h[i] == x;
      FirstIsMin(h, i);
    }
  }

  lemma SwapOut(h: seq<PastDial>, i: nat, n: nat)
    requires IsHeap(h) && i < n == |h| - 1
    ensures HeapAround(Swap(h, i, n), n, i, i) && Bridged(Swap(h, i, n), n, i)
  {
    var r := Swap(h, i, n);
    forall c | 0 < c < n && Parent(c) == i && i > 0
      ensures r[Parent(i)].exp <= r[c].exp
    {
      assert h[Parent(i)].exp <= h[i].exp <= h[c].exp;
    }
  }

  lemma ShuffledTail(h: seq<PastDial>, h': seq<PastDial>, n: nat)
    requires n < |h| && Shuffled(h, h', n)
    ensures |h'| == |h| && h'[n] == h[n] && multiset(h') == multiset(h)
  {
    assert h'[n..][0] == h[n..][0];
  }

  lemma WithoutLast(h: seq<PastDial>)
    requires IsHeap(h) && |h| > 0
    ensures HeapBut(h, |h| - 1, 0)
  {
  }

  lemma CutHeap(h: seq<PastDial>, n: nat)
    requires n <= |h| && HeapBut(h, n, 0)
    ensures IsHeap(h[..n])
  {
  }

  /** Swapping the hole with its earlier child moves the hole down. */
  lemma DownStep(h: seq<PastDial>, n: nat, i: nat, child: nat, start: nat)
    requires i < child < n <= |h| && Parent(child) == i && start <= i
    requires HeapAround(h, n, i, start) && Bridged(h, n, i)
    requires 0 < start < i ==> h[Parent(start)].exp <= h[start].exp
    requires h[child].exp < h[i].exp && forall c :: 0 < c < n && Parent(c) == i ==> h[child].exp <= h[c].exp
    ensures HeapAround(Swap(h, i, child), n, child, start) && Bridged(Swap(h, i, child), n, child)
    ensures 0 < start < child ==> Swap(h, i, child)[Parent(start)].exp <= Swap(h, i, child)[start].exp
  {
    var r := Swap(h, i, child);
    forall c | 0 < c < n && Parent(c) != child && c != start
      ensures r[Parent(c)].exp <= r[c].exp
    {
    }
  }

  lemma DownDone(h: seq<PastDial>, n: nat, i: nat, start: nat)
    requires start <= i < n <= |h| && HeapAround(h, n, i, start) && Bridged(h, n, i)
    requires 0 < start < i ==> h[Parent(start)].exp <= h[start].exp
    requires forall c :: 0 < c < n && Parent(c) == i ==> h[i].exp <= h[c].exp
    ensures HeapBut(h, n, start) && Bridged(h, n, start)
  {
    forall c | 0 < c < n && Parent(c) == start && start > 0
      ensures h[Parent(start)].exp <= h[c].exp
    {
    }
  }
}
