/** The broadcast feed (event/feed.go): one send loop over a slice of select cases. The cases still to be served are a
    prefix of the slice; a served case is swapped behind the prefix, an unsubscribed one is shifted out, in place.
    Which channel is ready, who unsubscribes meanwhile and what happens to the inbox are left to chance. */
module Feed {
  import opened Types

  type Channel = nat
  type Value = int

  /** A select case: the one that receives unsubscribe requests, or a send on a channel. */
  datatype Case = RemoveSub | To(channel: Channel, value: Option<Value>)

  const FIRST_SUB := 1

  ghost predicate WellFormed(cases: seq<Case>) {
    && |cases| >= FIRST_SUB && cases[0] == RemoveSub
    && forall i :: FIRST_SUB <= i < |cases| ==> cases[i].To?
  }

  /** No value is set outside a send. */
  ghost predicate Quiet(cases: seq<Case>) {
    WellFormed(cases) && forall i :: FIRST_SUB <= i < |cases| ==> cases[i].value == None
  }

  ghost function Tagged(channels: seq<Channel>, value: Option<Value>): (r: seq<Case>)
    ensures |r| == |channels| && forall i :: 0 <= i < |r| ==> r[i] == To(channels[i], value)
  {
    if channels == [] then [] else Tagged(channels[..|channels| - 1], value) + [To(channels[|channels| - 1], value)]
  }

  ghost function Subs(cases: seq<Case>): (r: multiset<Case>)
    requires |cases| >= FIRST_SUB
  {
    multiset(cases[FIRST_SUB..])
  }

  function Swapped(cases: seq<Case>, i: nat, j: nat): (r: seq<Case>)
    requires i < |cases| && j < |cases|
  {
    cases[i := cases[j]][j := cases[i]]
  }

  function Without(cases: seq<Case>, i: nat): (r: seq<Case>)
    requires i < |cases|
  {
    cases[..i] + cases[i + 1..]
  }

  lemma IsWithout(cases: seq<Case>, i: nat, r: seq<Case>)
    requires i < |cases| && |r| == |cases| - 1
    requires forall j :: 0 <= j < |r| ==> r[j] == cases[if j < i then j else j + 1]
    ensures r == Without(cases, i)
  {
  }

  lemma TakeOut(cases: seq<Case>, i: nat)
    requires FIRST_SUB <= i < |cases|
    ensures Subs(Without(cases, i)) + multiset{cases[i]} == Subs(cases)
  {
    assert cases[FIRST_SUB..] == cases[FIRST_SUB..i] + [cases[i]] + cases[i + 1..];
    assert Without(cases, i)[FIRST_SUB..] == cases[FIRST_SUB..i] + cases[i + 1..];
  }

  lemma SwapSame(cases: seq<Case>, i: nat, j: nat)
    requires FIRST_SUB <= i <= j < |cases|
    ensures Subs(Swapped(cases, i, j)) == Subs(cases)
  {
    if i == j {
      assert Swapped(cases, i, j) == cases;
    } else {
      var front, mid, back := cases[FIRST_SUB..i], cases[i + 1..j], cases[j + 1..];
      assert cases[FIRST_SUB..] == front + [cases[i]] + mid + [cases[j]] + back;
      assert Swapped(cases, i, j)[FIRST_SUB..] == front + [cases[j]] + mid + [cases[i]] + back;
    }
  }

  /** Swapping a case with the last active one and shrinking the prefix takes exactly that case out of the active ones
      and leaves the list as a whole with the same cases. */
  lemma Deactivated(cases: seq<Case>, m: nat, i: nat)
    requires WellFormed(cases) && FIRST_SUB <= i < m <= |cases|
    ensures WellFormed(Swapped(cases, i, m - 1)) && Subs(Swapped(cases, i, m - 1)) == Subs(cases)
    ensures Subs(Swapped(cases, i, m - 1)[..m - 1]) + multiset{cases[i]} == Subs(cases[..m])
  {
    hide Subs;
    var swapped := Swapped(cases, i, m - 1);
    SwapSame(cases, i, m - 1);
    SwapSame(cases[..m], i, m - 1);
    assert Swapped(cases[..m], i, m - 1) == swapped[..m];
    TakeOut(swapped[..m], m - 1);
    assert Without(swapped[..m], m - 1) == swapped[..m - 1];
  }

  /** Shifting a case out of the list takes it out of the active prefix exactly when it was in there. */
  lemma Deleted(cases: seq<Case>, m: nat, i: nat)
    requires WellFormed(cases) && FIRST_SUB <= m <= |cases| && FIRST_SUB <= i < |cases|
    ensures WellFormed(Without(cases, i)) && Subs(Without(cases, i)) + multiset{cases[i]} == Subs(cases)
    ensures i < m ==> Subs(Without(cases, i)[..m - 1]) + multiset{cases[i]} == Subs(cases[..m])
    ensures i >= m ==> Subs(Without(cases, i)[..m]) == Subs(cases[..m])
  {
    TakeOut(cases, i);
    if i < m {
      TakeOut(cases[..m], i);
      assert Without(cases[..m], i) == Without(cases, i)[..m - 1];
    } else {
      assert Without(cases, i)[..m] == cases[..m];
    }
  }

  /** What a send has done so far: `served` got their value, `skipped` left while still waiting, `gone` left at all. */
  ghost predicate InStep(before: multiset<Case>, cases: seq<Case>, m: nat, served: multiset<Case>,
                         skipped: multiset<Case>, gone: multiset<Case>) {
    && WellFormed(cases) && FIRST_SUB <= m <= |cases|
    && served + skipped + Subs(cases[..m]) == before
    && Subs(cases) + gone == before && skipped <= gone
  }

  lemma ServeStep(before: multiset<Case>, cases: seq<Case>, m: nat, i: nat,
                  served: multiset<Case>, skipped: multiset<Case>, gone: multiset<Case>)
    requires InStep(before, cases, m, served, skipped, gone) && FIRST_SUB <= i < m
    ensures InStep(before, Swapped(cases, i, m - 1), m - 1, served + multiset{cases[i]}, skipped, gone)
  {
    hide Subs;
    Deactivated(cases, m, i);
  }

  lemma LeaveStep(before: multiset<Case>, cases: seq<Case>, m: nat, i: nat,
                  served: multiset<Case>, skipped: multiset<Case>, gone: multiset<Case>)
    requires InStep(before, cases, m, served, skipped, gone) && FIRST_SUB <= i < |cases|
    ensures InStep(before, Without(cases, i), if i < m then m - 1 else m, served,
                   if i < m then skipped + multiset{cases[i]} else skipped, gone + multiset{cases[i]})
  {
    hide Subs;
    Deleted(cases, m, i);
  }

  /** Of a channel subscribed once, a finished send delivered to it exactly when it did not leave while waiting. */
  lemma ExactlyOnce(channels: seq<Channel>, value: Value, served: multiset<Case>, skipped: multiset<Case>, ch: Channel)
    requires served + skipped == multiset(Tagged(channels, Some(value)))
    requires multiset(channels)[ch] == 1
    ensures served[To(ch, Some(value))] == if To(ch, Some(value)) in skipped then 0 else 1
  {
    TaggedCount(channels, value, ch);
  }

  /** A channel that was not subscribed when the send began gets nothing, and nobody gets another value. */
  lemma NobodyElse(channels: seq<Channel>, value: Value, served: multiset<Case>, skipped: multiset<Case>, c: Case)
    requires served + skipped == multiset(Tagged(channels, Some(value)))
    requires c in served
    ensures c.To? && c.channel in channels && c.value == Some(value)
  {
    assert c in multiset(Tagged(channels, Some(value)));
    assert c in Tagged(channels, Some(value));
  }

  lemma {:induction false} TaggedCount(channels: seq<Channel>, value: Value, ch: Channel)
    ensures multiset(Tagged(channels, Some(value)))[To(ch, Some(value))] == multiset(channels)[ch]
  {
    if channels == [] {
      assert Tagged(channels, Some(value)) == [];
    } else {
      var n := |channels| - 1;
      var lower, last := channels[..n], channels[n];
      TaggedCount(lower, value, ch);
      assert channels == lower + [last];
      assert Tagged(channels, Some(value)) == Tagged(lower, Some(value)) + [To(last, Some(value))];
      hide Tagged;
      assert multiset(channels) == multiset(lower) + multiset{last};
      assert multiset(Tagged(channels, Some(value)))
          == multiset(Tagged(lower, Some(value))) + multiset{To(last, Some(value))};
    }
  }

  ghost function ChannelsOf(cases: seq<Case>): (r: seq<Channel>)
    requires forall i :: 0 <= i < |cases| ==> cases[i].To?
    ensures |r| == |cases| && forall i :: 0 <= i < |r| ==> r[i] == cases[i].channel
  {
    if cases == [] then [] else ChannelsOf(cases[..|cases| - 1]) + [cases[|cases| - 1].channel]
  }

  lemma HoldsValue(channels: seq<Channel>, value: Value, c: Case)
    requires c in multiset(Tagged(channels, Some(value)))
    ensures c.To? && c.value == Some(value)
  {
    assert c in Tagged(channels, Some(value));
  }

  /** A waiting case carries the value that was set before the loop. */
  lemma CarriesValue(channels: seq<Channel>, value: Value, cases: seq<Case>, m: nat, i: nat,
                     served: multiset<Case>, skipped: multiset<Case>, gone: multiset<Case>)
    requires InStep(multiset(Tagged(channels, Some(value))), cases, m, served, skipped, gone) && FIRST_SUB <= i < m
    ensures cases[i] == To(cases[i].channel, Some(value))
  {
    var active := cases[..m][FIRST_SUB..];
    assert active[i - 1] == cases[i];
    assert cases[i] in multiset(active);
    HoldsValue(channels, value, cases[i]);
  }

  /** So does a case that has been served. */
  lemma CarriesValueAll(channels: seq<Channel>, value: Value, cases: seq<Case>, m: nat, i: nat,
                        served: multiset<Case>, skipped: multiset<Case>, gone: multiset<Case>)
    requires InStep(multiset(Tagged(channels, Some(value))), cases, m, served, skipped, gone)
    requires FIRST_SUB <= i < |cases|
    ensures cases[i] == To(cases[i].channel, Some(value))
  {
    assert cases[FIRST_SUB..][i - 1] == cases[i];
    assert cases[i] in multiset(cases[FIRST_SUB..]);
    HoldsValue(channels, value, cases[i]);
  }

  ghost predicate AllSet(cases: seq<Case>, cases': seq<Case>, value: Option<Value>)
    requires WellFormed(cases)
  {
    && |cases'| == |cases| && cases'[0] == RemoveSub
    && forall i :: FIRST_SUB <= i < |cases| ==> cases'[i] == To(cases[i].channel, value)
  }

  lemma SendStarts(channels: seq<Channel>, value: Value, cases: seq<Case>, cases': seq<Case>)
    requires Quiet(cases) && ChannelsOf(cases[FIRST_SUB..]) == channels && AllSet(cases, cases', Some(value))
    ensures InStep(multiset(Tagged(channels, Some(value))), cases', |cases'|, multiset{}, multiset{}, multiset{})
  {
    assert cases'[FIRST_SUB..] == Tagged(channels, Some(value));
    assert cases'[..|cases'|] == cases';
  }

  lemma SendEnds(cases: seq<Case>, cases': seq<Case>)
    requires WellFormed(cases) && AllSet(cases, cases', None)
    ensures Quiet(cases') && ChannelsOf(cases'[FIRST_SUB..]) == ChannelsOf(cases[FIRST_SUB..])
  {
  }

  lemma SendDone(channels: seq<Channel>, value: Value, cases: seq<Case>, served: multiset<Case>,
                 skipped: multiset<Case>, gone: multiset<Case>)
    requires InStep(multiset(Tagged(channels, Some(value))), cases, FIRST_SUB, served, skipped, gone)
    ensures served + skipped == multiset(Tagged(channels, Some(value))) && skipped <= gone
    ensures WellFormed(cases) && Subs(cases) + gone == multiset(Tagged(channels, Some(value)))
  {
    assert cases[..FIRST_SUB][FIRST_SUB..] == [];
  }

  lemma JoinedChannels(cases: seq<Case>, inbox: seq<Channel>, joined: seq<Case>)
    requires Quiet(cases) && |joined| == |cases| + |inbox|
    requires forall i :: 0 <= i < |joined| ==>
      joined[i] == if i < |cases| then cases[i] else To(inbox[i - |cases|], None)
    ensures Quiet(joined) && ChannelsOf(joined[FIRST_SUB..]) == ChannelsOf(cases[FIRST_SUB..]) + inbox
  {
    hide ChannelsOf;
    var all, before := ChannelsOf(joined[FIRST_SUB..]), ChannelsOf(cases[FIRST_SUB..]);
    forall i | 0 <= i < |all|
      ensures all[i] == (before + inbox)[i]
    {
      assert joined[FIRST_SUB..][i] == joined[FIRST_SUB + i];
      if i < |before| {
        assert cases[FIRST_SUB..][i] == cases[FIRST_SUB + i];
      }
    }
  }

  lemma FoundIn(cases: seq<Case>, ch: Channel)
    requires WellFormed(cases) && ch in ChannelsOf(cases[FIRST_SUB..])
    ensures exists i :: FIRST_SUB <= i < |cases| && cases[i].channel == ch
  {
    var j :| 0 <= j < |cases| - 1 && ChannelsOf(cases[FIRST_SUB..])[j] == ch;
    assert cases[FIRST_SUB + j].channel == ch;
  }

  lemma ChannelsWithout(cases: seq<Case>, i: nat)
    requires Quiet(cases) && FIRST_SUB <= i < |cases|
    ensures Quiet(Without(cases, i))
    ensures multiset(ChannelsOf(Without(cases, i)[FIRST_SUB..])) + multiset{cases[i].channel}
      == multiset(ChannelsOf(cases[FIRST_SUB..]))
  {
    hide ChannelsOf;
    var all, fewer := ChannelsOf(cases[FIRST_SUB..]), ChannelsOf(Without(cases, i)[FIRST_SUB..]);
    assert fewer == all[..i - 1] + all[i..];
    OneOut(all, i - 1);
  }

  lemma OneOut(channels: seq<Channel>, i: nat)
    requires i < |channels|
    ensures multiset(channels[..i] + channels[i + 1..]) + multiset{channels[i]} == multiset(channels)
  {
    assert channels == channels[..i] + [channels[i]] + channels[i + 1..];
  }

  /** The cases left all carry the value, so they are their channels tagged with it. */
  lemma RetagSubs(channels: seq<Channel>, value: Value, cases: seq<Case>, gone: multiset<Case>)
    requires WellFormed(cases) && Subs(cases) + gone == multiset(Tagged(channels, Some(value)))
    ensures multiset(Tagged(ChannelsOf(cases[FIRST_SUB..]), Some(value))) + gone
      == multiset(Tagged(channels, Some(value)))
  {
    hide Tagged, ChannelsOf;
    var subs := cases[FIRST_SUB..];
    forall i | 0 <= i < |subs|
      ensures subs[i].To? && subs[i].value == Some(value)
    {
      assert subs[i] in multiset(subs);
      HoldsValue(channels, value, subs[i]);
    }
    TaggedChannels(subs, value);
  }

  lemma TaggedChannels(subs: seq<Case>, value: Value)
    requires forall i :: 0 <= i < |subs| ==> subs[i].To? && subs[i].value == Some(value)
    ensures Tagged(ChannelsOf(subs), Some(value)) == subs
  {
    hide Tagged, ChannelsOf;
  }

  class Feed {
    /** `sendCases` is the first `n` of the backing array. */
    var buf: array<Case>
    var n: nat
    var inbox: seq<Channel>
    /** Every value put on a channel, in order. */
    ghost var delivered: seq<Case>
    /** Every unsubscribe request received while sending, with the value being sent. */
    ghost var requests: multiset<Case>

    ghost predicate Valid()
      reads this, buf
    {
      n <= buf.Length && Quiet(buf[..n])
    }

    ghost function Channels(): (r: seq<Channel>)
      requires Valid()
      reads this, buf
    {
      ChannelsOf(buf[..n][FIRST_SUB..])
    }

    constructor ()
      ensures Valid() && fresh(buf) && Channels() == [] && inbox == [] && delivered == [] && requests == multiset{}
    {
      buf := new Case[1](_ => RemoveSub);
      n, inbox, delivered, requests := 1, [], [], multiset{};
    }

    method Subscribe(ch: Channel)
      requires Valid()
      modifies this`inbox
      ensures Valid() && inbox == old(inbox) + [ch]
    {
      inbox := inbox + [ch];
    }

    /** The first case for the channel. */
    method Find(ch: Channel) returns (index: int)
      requires n <= buf.Length && WellFormed(buf[..n])
      ensures index == -1 || FIRST_SUB <= index < n
      ensures index == -1 ==> forall i :: FIRST_SUB <= i < n ==> buf[i].channel != ch
      ensures index != -1 ==> buf[index].channel == ch && forall i :: FIRST_SUB <= i < index ==> buf[i].channel != ch
    {
      var i := 0;
      while i < n
        invariant 0 <= i <= n
        invariant forall j :: FIRST_SUB <= j < i ==> buf[j].channel != ch
      {
        assert buf[i] == buf[..n][i];
        if buf[i].To? && buf[i].channel == ch {
          return i;
        }
        i := i + 1;
      }
      index := -1;
    }

    /** Shifts the cases behind the index one to the front. */
    method Delete(index: nat)
      requires index < n <= buf.Length
      modifies this`n, buf
      ensures n == old(n) - 1 && buf[..n] == Without(old(buf[..n]), index)
    {
      var i := index;
      while i + 1 < n
        invariant index <= i < n == old(n)
        invariant forall j :: 0 <= j < index ==> buf[j] == old(buf[j])
        invariant forall j :: index <= j < i ==> buf[j] == old(buf[j + 1])
        invariant forall j :: i < j < n ==> buf[j] == old(buf[j])
      {
        buf[i] := buf[i + 1];
        i := i + 1;
      }
      n := n - 1;
      IsWithout(old(buf[..n]), index, buf[..n]);
    }

    /** Moves a case behind the active ones. */
    method Deactivate(index: nat, m: nat) returns (shorter: nat)
      requires index < m <= n <= buf.Length
      modifies buf
      ensures shorter == m - 1 && buf[..n] == Swapped(old(buf[..n]), index, m - 1)
    {
      var last := m - 1;
      buf[index], buf[last] := buf[last], buf[index];
      shorter := last;
    }

    /** Drops the channel's first entry from the inbox. */
    method LeaveInbox(ch: Channel) returns (found: bool)
      modifies this`inbox
      ensures found <==> ch in old(inbox)
      ensures found ==> multiset(inbox) + multiset{ch} == multiset(old(inbox))
      ensures !found ==> inbox == old(inbox)
    {
      var i := 0;
      while i < |inbox| && inbox[i] != ch
        invariant i <= |inbox| && inbox == old(inbox)
        invariant forall j :: 0 <= j < i ==> inbox[j] != ch
      {
        i := i + 1;
      }
      found := i < |inbox|;
      if found {
        assert inbox == inbox[..i] + [ch] + inbox[i + 1..];
        inbox := inbox[..i] + inbox[i + 1..];
      }
    }

    /** Unsubscribing while no send is in progress. */
    method Unsubscribe(ch: Channel)
      requires Valid() && (ch in inbox || ch in Channels())
      modifies this`inbox, this`n, buf
      ensures Valid()
      ensures multiset(inbox) + multiset(Channels()) + multiset{ch} == multiset(old(inbox)) + multiset(old(Channels()))
      ensures ch in old(inbox) ==> Channels() == old(Channels())
    {
      var found := LeaveInbox(ch);
      if !found {
        DeleteCase(ch);
      }
    }

    method DeleteCase(ch: Channel)
      requires Valid() && ch in Channels()
      modifies this`n, buf
      ensures Valid() && multiset(Channels()) + multiset{ch} == multiset(old(Channels()))
    {
      hide ChannelsOf, Without;
      FoundIn(buf[..n], ch);
      var index := Find(ch);
      ChannelsWithout(buf[..n], index);
      Delete(index);
    }

    /** Takes over the inbox. */
    method TakeInbox()
      requires Valid()
      modifies this
      ensures Valid() && fresh(buf) && inbox == [] && delivered == old(delivered) && requests == old(requests)
      ensures Channels() == old(Channels()) + old(inbox)
    {
      hide Quiet, ChannelsOf;
      var joined := new Case[n + |inbox|](i requires 0 <= i < n + |inbox| reads this, buf =>
        if i < n && i < buf.Length then buf[i] else if n <= i then To(inbox[i - n], None) else RemoveSub);
      JoinedChannels(buf[..n], inbox, joined[..]);
      n, buf, inbox := n + |inbox|, joined, [];
      assert buf[..n] == joined[..];
    }

    /** Puts the value on every case, or takes it off. */
    method SetValues(value: Option<Value>)
      requires n <= buf.Length && WellFormed(buf[..n])
      modifies buf
      ensures AllSet(old(buf[..n]), buf[..n], value)
    {
      ghost var before := buf[..n];
      var i := FIRST_SUB;
      while i < n
        invariant FIRST_SUB <= i <= n
        invariant forall j :: 0 <= j < FIRST_SUB || i <= j < n ==> buf[j] == before[j]
        invariant forall j :: FIRST_SUB <= j < i ==> buf[j] == To(before[j].channel, value)
      {
        buf[i] := To(buf[i].channel, value);
        i := i + 1;
      }
    }

    /** Delivers to every subscribed channel. `served` are the deliveries, `skipped` the subscriptions cancelled before
        theirs, `gone` all cancelled ones; channels that subscribe meanwhile wait in the inbox. */
    method Send(value: Value) returns (nsent: nat, ghost served: multiset<Case>, ghost skipped: multiset<Case>,
                                       ghost gone: multiset<Case>)
      requires Valid()
      modifies this, buf
      ensures Valid() && fresh(buf)
      ensures served + skipped == multiset(Tagged(old(Channels()) + old(inbox), Some(value))) && skipped <= gone
      ensures nsent == |served|
      ensures old(delivered) <= delivered && multiset(delivered) == multiset(old(delivered)) + served
      ensures requests == old(requests) + gone
      ensures multiset(Tagged(Channels(), Some(value))) + gone
        == multiset(Tagged(old(Channels()) + old(inbox), Some(value)))
    {
      hide InStep, Subs, Tagged, ChannelsOf, AllSet;
      TakeInbox();
      ghost var channels, quiet := Channels(), buf[..n];
      SetValues(Some(value));
      SendStarts(channels, value, quiet, buf[..n]);
      nsent, served, skipped, gone := SendLoop(channels, value);
      SendDone(channels, value, buf[..n], served, skipped, gone);
      RetagSubs(channels, value, buf[..n], gone);
      ghost var rest := buf[..n];
      SetValues(None);
      SendEnds(rest, buf[..n]);
    }

    /** Serves ready channels and unsubscribe requests until no case waits. */
    method SendLoop(ghost channels: seq<Channel>, value: Value)
      returns (nsent: nat, ghost served: multiset<Case>, ghost skipped: multiset<Case>, ghost gone: multiset<Case>)
      requires FIRST_SUB <= n <= buf.Length
      requires InStep(multiset(Tagged(channels, Some(value))), buf[..n], n, multiset{}, multiset{}, multiset{})
      modifies this`delivered, this`requests, this`inbox, this`n, buf
      ensures FIRST_SUB <= n <= buf.Length
      ensures requests == old(requests) + gone
      ensures InStep(multiset(Tagged(channels, Some(value))), buf[..n], FIRST_SUB, served, skipped, gone)
      ensures nsent == |served|
      ensures old(delivered) <= delivered && multiset(delivered) == multiset(old(delivered)) + served
    {
      hide InStep, Tagged;
      served, skipped, gone, nsent := multiset{}, multiset{}, multiset{}, 0;
      var m := n;
      while true
        invariant FIRST_SUB <= m <= n <= buf.Length
        invariant InStep(multiset(Tagged(channels, Some(value))), buf[..n], m, served, skipped, gone)
        invariant nsent == |served|
        invariant old(delivered) <= delivered && multiset(delivered) == multiset(old(delivered)) + served
        invariant requests == old(requests) + gone
        decreases n + m
      {
        var count;
        served, m, count := TryPass(channels, value, m, multiset(old(delivered)), served, skipped, gone);
        nsent := nsent + count;
        if m == FIRST_SUB {
          break;
        }
        inbox := *;
        served, skipped, gone, m, count :=
          Select(channels, value, m, multiset(old(delivered)), old(requests), served, skipped, gone);
        nsent := nsent + count;
      }
    }

    /** Waits for a receiver to unblock or for an unsubscribe request, whichever comes. */
    method Select(ghost channels: seq<Channel>, value: Value, m: nat, ghost base: multiset<Case>,
                  ghost asked: multiset<Case>,
                  ghost served: multiset<Case>, ghost skipped: multiset<Case>, ghost gone: multiset<Case>)
      returns (ghost served': multiset<Case>, ghost skipped': multiset<Case>, ghost gone': multiset<Case>, shorter: nat,
               count: nat)
      requires FIRST_SUB < m <= n <= buf.Length
      requires InStep(multiset(Tagged(channels, Some(value))), buf[..n], m, served, skipped, gone)
      requires multiset(delivered) == base + served && requests == asked + gone
      modifies this`delivered, this`requests, this`n, buf
      ensures FIRST_SUB <= shorter <= n <= buf.Length && n + shorter < old(n) + m
      ensures InStep(multiset(Tagged(channels, Some(value))), buf[..n], shorter, served', skipped', gone')
      ensures |served'| == |served| + count && old(delivered) <= delivered
      ensures multiset(delivered) == base + served' && requests == asked + gone'
    {
      hide InStep, Tagged;
      served', skipped', gone' := served, skipped, gone;
      var chosen :| 0 <= chosen < m;
      if chosen == 0 {
        ghost var leaver;
        leaver, skipped', gone', shorter := Leave(channels, value, m, served, skipped, gone);
        count := 0;
      } else {
        served', shorter := Serve(channels, value, chosen, m, served, skipped, gone);
        count := 1;
      }
    }

    /** The fast path: offers the value to each waiting channel without blocking. */
    method TryPass(ghost channels: seq<Channel>, value: Value, m: nat, ghost base: multiset<Case>,
                   ghost served: multiset<Case>, ghost skipped: multiset<Case>, ghost gone: multiset<Case>)
      returns (ghost more: multiset<Case>, shorter: nat, count: nat)
      requires FIRST_SUB <= m <= n <= buf.Length
      requires InStep(multiset(Tagged(channels, Some(value))), buf[..n], m, served, skipped, gone)
      requires multiset(delivered) == base + served
      modifies this`delivered, buf
      ensures FIRST_SUB <= shorter <= m && count == m - shorter && |more| == |served| + count
      ensures InStep(multiset(Tagged(channels, Some(value))), buf[..n], shorter, more, skipped, gone)
      ensures old(delivered) <= delivered && multiset(delivered) == base + more
    {
      hide InStep, Tagged;
      more, shorter, count := served, m, 0;
      var i := FIRST_SUB;
      while i < shorter
        invariant FIRST_SUB <= i <= shorter <= m && count == m - shorter && |more| == |served| + count
        invariant InStep(multiset(Tagged(channels, Some(value))), buf[..n], shorter, more, skipped, gone)
        invariant old(delivered) <= delivered && multiset(delivered) == base + more
        decreases shorter - i
      {
        var ready: bool := *;
        if ready {
          more, shorter := Serve(channels, value, i, shorter, more, skipped, gone);
          count := count + 1;
        } else {
          i := i + 1;
        }
      }
    }

    /** An unsubscribe request from some subscriber: its first case is shifted out. */
    method Leave(ghost channels: seq<Channel>, value: Value, m: nat,
                 ghost served: multiset<Case>, ghost skipped: multiset<Case>, ghost gone: multiset<Case>)
      returns (ghost leaver: Case, ghost skipped': multiset<Case>, ghost gone': multiset<Case>, shorter: nat)
      requires FIRST_SUB < m <= n <= buf.Length
      requires InStep(multiset(Tagged(channels, Some(value))), buf[..n], m, served, skipped, gone)
      modifies this`n, this`requests, buf
      ensures n == old(n) - 1 && FIRST_SUB <= shorter <= m && shorter <= n
      ensures requests == old(requests) + multiset{leaver} && gone' == gone + multiset{leaver}
      ensures InStep(multiset(Tagged(channels, Some(value))), buf[..n], shorter, served, skipped', gone')
    {
      hide Tagged, Subs;
      var left :| FIRST_SUB <= left < n;
      assert buf[left] == buf[..n][left];
      var ch := buf[left].channel;
      leaver := To(ch, Some(value));
      requests := requests + multiset{leaver};
      var index := Find(ch);
      CarriesValueAll(channels, value, buf[..n], m, index, served, skipped, gone);
      LeaveStep(multiset(Tagged(channels, Some(value))), buf[..n], m, index, served, skipped, gone);
      gone' := gone + multiset{buf[index]};
      skipped' := if index < m then skipped + multiset{buf[index]} else skipped;
      Delete(index);
      shorter := if index < m then m - 1 else m;
    }

    /** One delivery: the case's channel gets the value and the case moves behind the active ones. */
    method Serve(ghost channels: seq<Channel>, value: Value, i: nat, m: nat,
                 ghost served: multiset<Case>, ghost skipped: multiset<Case>, ghost gone: multiset<Case>)
      returns (ghost more: multiset<Case>, shorter: nat)
      requires FIRST_SUB <= i < m <= n <= buf.Length
      requires InStep(multiset(Tagged(channels, Some(value))), buf[..n], m, served, skipped, gone)
      modifies this`delivered, buf
      ensures shorter == m - 1
      ensures InStep(multiset(Tagged(channels, Some(value))), buf[..n], m - 1, more, skipped, gone)
      ensures delivered == old(delivered) + [old(buf[i])] && more == served + multiset{old(buf[i])}
      ensures multiset(delivered) == multiset(old(delivered)) + multiset{old(buf[i])}
      ensures old(buf[i]) == To(old(buf[i]).channel, Some(value))
    {
      hide InStep, Swapped, Tagged;
      CarriesValue(channels, value, buf[..n], m, i, served, skipped, gone);
      ServeStep(multiset(Tagged(channels, Some(value))), buf[..n], m, i, served, skipped, gone);
      delivered := delivered + [To(buf[i].channel, Some(value))];
      more := served + multiset{buf[i]};
      shorter := Deactivate(i, m);
    }
  }
}
