/** Capability matching between two peers (p2p/peer.go, p2p/protocol.go): each side matches its own protocols against
    the capabilities the other announces and assigns message code ranges; both must arrive at the same ranges. */
module Protocols {
  import opened Types

  /** Codes below this one belong to the base protocol. */
  const BASE_LENGTH := 16

  datatype Protocol = Protocol(name: string, version: nat, length: nat)
  datatype Cap = Cap(name: string, version: nat)

  /** A running protocol and the first message code of its range. */
  datatype Entry = Entry(proto: Protocol, offset: nat)

  type Table = map<string, Entry>

  // ---- the order of capabilities ----

  /** Strings compare byte by byte, a prefix comes first. */
  predicate Before(a: string, b: string) {
    b != [] && (a == [] || a[0] < b[0] || (a[0] == b[0] && Before(a[1..], b[1..])))
  }

  lemma {:induction false} BeforeNotBoth(a: string, b: string)
    requires Before(a, b)
    ensures a != b && !Before(b, a)
  {
    if a != [] && a[0] == b[0] {
      BeforeNotBoth(a[1..], b[1..]);
    }
  }

  lemma {:induction false} BeforeTotal(a: string, b: string)
    ensures Before(a, b) || a == b || Before(b, a)
  {
    if a != [] && b != [] && a[0] == b[0] {
      BeforeTotal(a[1..], b[1..]);
      assert a == [a[0]] + a[1..] && b == [b[0]] + b[1..];
    }
  }

  lemma {:induction false} BeforeTransitive(a: string, b: string, c: string)
    requires Before(a, b) && Before(b, c)
    ensures Before(a, c)
  {
    if a != [] && a[0] == b[0] == c[0] {
      BeforeTransitive(a[1..], b[1..], c[1..]);
    }
  }

  /** Up to `n` the strings agree; there `a` ends or has the smaller character. */
  ghost predicate DiffersAt(a: string, b: string, n: nat) {
    n <= |a| && n < |b| && a[..n] == b[..n] && (n == |a| || a[n] < b[n])
  }

  /** The order is decided at the first difference. */
  lemma {:induction false} BeforeIff(a: string, b: string)
    ensures Before(a, b) <==> exists n: nat :: DiffersAt(a, b, n)
  {
    if Before(a, b) {
      if a == [] || a[0] < b[0] {
        assert DiffersAt(a, b, 0);
      } else {
        BeforeIff(a[1..], b[1..]);
        var n: nat :| DiffersAt(a[1..], b[1..], n);
        assert a[..n + 1] == [a[0]] + a[1..][..n] && b[..n + 1] == [b[0]] + b[1..][..n];
        assert DiffersAt(a, b, n + 1);
      }
    }
    if n: nat :| DiffersAt(a, b, n) {
      if n > 0 {
        assert a[..n][0] == b[..n][0];
        assert a[1..][..n - 1] == a[..n][1..] && b[1..][..n - 1] == b[..n][1..];
        assert DiffersAt(a[1..], b[1..], n - 1);
        BeforeIff(a[1..], b[1..]);
      }
    }
  }

  predicate Less(a: Cap, b: Cap) {
    Before(a.name, b.name) || (a.name == b.name && a.version < b.version)
  }

  ghost predicate SortedCaps(caps: seq<Cap>) {
    forall i, j :: 0 <= i < j < |caps| ==> !Less(caps[j], caps[i])
  }

  lemma NotLessTransitive(a: Cap, b: Cap, c: Cap)
    requires !Less(b, a) && !Less(c, b)
    ensures !Less(c, a)
  {
    BeforeTotal(a.name, b.name);
    BeforeTotal(b.name, c.name);
    if Before(a.name, b.name) && Before(b.name, c.name) {
      BeforeTransitive(a.name, b.name, c.name);
    }
    if Before(a.name, c.name) {
      BeforeNotBoth(a.name, c.name);
    }
  }

  function InsertCap(caps: seq<Cap>, c: Cap): (r: seq<Cap>)
    ensures multiset(r) == multiset(caps) + multiset{c}
  {
    if caps == [] || !Less(caps[0], c) then [c] + caps
    else
      assert caps == [caps[0]] + caps[1..];
      [caps[0]] + InsertCap(caps[1..], c)
  }

  lemma {:induction false} InsertCapSorted(caps: seq<Cap>, c: Cap)
    requires SortedCaps(caps)
    ensures SortedCaps(InsertCap(caps, c))
  {
    if caps == [] {
    } else if !Less(caps[0], c) {
      forall i | 0 <= i < |caps|
        ensures !Less(caps[i], c)
      {
        if i > 0 {
          NotLessTransitive(c, caps[0], caps[i]);
        }
      }
    } else {
      InsertCapSorted(caps[1..], c);
      var rest := InsertCap(caps[1..], c);
      forall i | 0 <= i < |rest|
        ensures !Less(rest[i], caps[0])
      {
        assert rest[i] in multiset(rest);
        LessNotBoth(caps[0], c);
      }
    }
  }

  lemma LessNotBoth(a: Cap, b: Cap)
    requires Less(a, b)
    ensures !Less(b, a)
  {
    if Before(a.name, b.name) {
      BeforeNotBoth(a.name, b.name);
    } else if Before(b.name, a.name) {
      BeforeNotBoth(b.name, a.name);
    }
  }

  function SortCaps(caps: seq<Cap>): (r: seq<Cap>)
    ensures multiset(r) == multiset(caps)
  {
    if caps == [] then [] else
      assert caps == caps[..|caps| - 1] + [caps[|caps| - 1]];
      InsertCap(SortCaps(caps[..|caps| - 1]), caps[|caps| - 1])
  }

  lemma {:induction false} SortCapsSorted(caps: seq<Cap>)
    ensures SortedCaps(SortCaps(caps))
  {
    if caps != [] {
      SortCapsSorted(caps[..|caps| - 1]);
      InsertCapSorted(SortCaps(caps[..|caps| - 1]), caps[|caps| - 1]);
    }
  }

  // ---- matching ----

  /** The first protocol with the capability's name and version. */
  function Lookup(protocols: seq<Protocol>, c: Cap): (r: Option<Protocol>)
    ensures r.Some? ==> r.value.name == c.name && r.value.version == c.version && r.value in protocols
    ensures r.None? ==> forall p :: p in protocols ==> Cap(p.name, p.version) != c
  {
    if protocols == [] then None
    else if protocols[0].name == c.name && protocols[0].version == c.version then Some(protocols[0])
    else Lookup(protocols[1..], c)
  }

  /** Of several protocols with one name and version the first counts. */
  lemma {:induction false} LookupFirst(protocols: seq<Protocol>, c: Cap, i: nat)
    requires i < |protocols| && Cap(protocols[i].name, protocols[i].version) == c
    requires forall j :: 0 <= j < i ==> Cap(protocols[j].name, protocols[j].version) != c
    ensures Lookup(protocols, c) == Some(protocols[i])
    decreases |protocols|
  {
    if i > 0 {
      assert Cap(protocols[0].name, protocols[0].version) != c;
      LookupFirst(protocols[1..], c, i - 1);
    }
  }

  /** The capabilities a peer with these protocols announces. */
  function CapsOf(protocols: seq<Protocol>): (r: seq<Cap>)
    ensures |r| == |protocols| && forall i :: 0 <= i < |r| ==> r[i] == Cap(protocols[i].name, protocols[i].version)
  {
    if protocols == [] then [] else [Cap(protocols[0].name, protocols[0].version)] + CapsOf(protocols[1..])
  }

  ghost function Matched(protocols: seq<Protocol>, caps: seq<Cap>): set<Cap> {
    set c | c in caps && Lookup(protocols, c).Some?
  }

  ghost predicate Ascending(names: seq<string>) {
    forall i, j :: 0 <= i < j < |names| ==> Before(names[i], names[j])
  }

  /** The ranges of the names, in ascending order, follow each other from the end of the base protocol. */
  ghost predicate Tiled(table: Table, names: seq<string>)
    requires forall n :: n in names ==> n in table
  {
    && (names != [] ==> table[names[0]].offset == BASE_LENGTH)
    && forall i, j :: 0 <= i < j < |names| && j == i + 1 ==>
         table[names[j]].offset == table[names[i]].offset + table[names[i]].proto.length
  }

  /** The code after the last range. */
  ghost function End(table: Table, names: seq<string>): nat
    requires forall n :: n in names ==> n in table
  {
    if names == [] then BASE_LENGTH else table[names[|names| - 1]].offset + table[names[|names| - 1]].proto.length
  }

  /** The table for a set of common capabilities: the highest version of each name, ranges tiled in name order. */
  ghost predicate IsTable(protocols: seq<Protocol>, common: set<Cap>, table: Table, names: seq<string>) {
    && Ascending(names) && (forall n :: n in table <==> n in names)
    && (forall c :: c in common ==> c.name in table && c.version <= table[c.name].proto.version)
    && (forall n :: n in table ==> Cap(n, table[n].proto.version) in common
                                   && Lookup(protocols, Cap(n, table[n].proto.version)) == Some(table[n].proto))
    && Tiled(table, names)
  }

  /** A table as above, for some order of names. */
  ghost predicate Negotiated(protocols: seq<Protocol>, common: set<Cap>, table: Table) {
    exists names :: IsTable(protocols, common, table, names)
  }

  lemma NotLess(c: Cap, d: Cap)
    requires !Less(c, d)
    ensures if c.name == d.name then d.version <= c.version else Before(d.name, c.name)
  {
    BeforeTotal(c.name, d.name);
  }

  /** A match for a name already in the table replaces the last range. */
  lemma Replaced(protocols: seq<Protocol>, common: set<Cap>, table: Table, names: seq<string>, c: Cap, p: Protocol)
    requires IsTable(protocols, common, table, names) && Lookup(protocols, c) == Some(p) && c.name in table
    requires forall d :: d in common ==> !Less(c, d)
    ensures table[c.name].proto.length <= End(table, names)
    ensures var table' := table[c.name := Entry(p, End(table, names) - table[c.name].proto.length)];
            IsTable(protocols, common + {c}, table', names) && End(table', names) == table'[c.name].offset + p.length
  {
    hide Lookup, Before;
    var last := names[|names| - 1];
    var top := Cap(last, table[last].proto.version);
    assert last in table;
    var k :| 0 <= k < |names| && names[k] == c.name;
    NotLess(c, top);
    if k < |names| - 1 {
      BeforeNotBoth(c.name, last);
    }
    assert last == c.name;
    forall i | 0 <= i < |names| - 1
      ensures names[i] != c.name
    {
      BeforeNotBoth(names[i], last);
    }
    hide Tiled, End, Ascending, Less;
    TiledAgain(table, names, p);
  }

  /** The last range may be given another length. */
  lemma TiledAgain(table: Table, names: seq<string>, p: Protocol)
    requires (forall n :: n in names ==> n in table) && names != [] && Tiled(table, names)
    requires forall i :: 0 <= i < |names| - 1 ==> names[i] != names[|names| - 1]
    ensures var last := names[|names| - 1];
            && table[last].proto.length <= End(table, names)
            && var table' := table[last := Entry(p, End(table, names) - table[last].proto.length)];
            Tiled(table', names) && End(table', names) == table'[last].offset + p.length
  {
  }

  lemma TiledMore(table: Table, names: seq<string>, name: string, p: Protocol)
    requires (forall n :: n in names ==> n in table) && name !in table && Tiled(table, names)
    ensures var table' := table[name := Entry(p, End(table, names))];
            Tiled(table', names + [name]) && End(table', names + [name]) == table'[name].offset + p.length
  {
    var table' := table[name := Entry(p, End(table, names))];
    var names' := names + [name];
    forall i | 0 <= i < |names|
      ensures table'[names'[i]] == table[names[i]]
    {
      assert names[i] in names;
    }
  }

  /** A match for a new name gets the range behind all others. */
  lemma Appended(protocols: seq<Protocol>, common: set<Cap>, table: Table, names: seq<string>, c: Cap, p: Protocol)
    requires IsTable(protocols, common, table, names) && Lookup(protocols, c) == Some(p) && c.name !in table
    requires forall d :: d in common ==> !Less(c, d)
    ensures var table' := table[c.name := Entry(p, End(table, names))];
            IsTable(protocols, common + {c}, table', names + [c.name])
            && End(table', names + [c.name]) == table'[c.name].offset + p.length
  {
    hide Before, Lookup, Less, Tiled, End;
    TiledMore(table, names, c.name, p);
    forall i | 0 <= i < |names|
      ensures Before(names[i], c.name)
    {
      assert names[i] in table;
      NotLess(c, Cap(names[i], table[names[i]].proto.version));
    }
    assert forall n :: n in names + [c.name] <==> n in names || n == c.name;
  }

  /** The protocol loop: the first local protocol that fits the capability. */
  method FindProtocol(protocols: seq<Protocol>, c: Cap) returns (r: Option<Protocol>)
    ensures r == Lookup(protocols, c)
  {
    var j := 0;
    while j < |protocols|
      invariant j <= |protocols| && Lookup(protocols, c) == Lookup(protocols[j..], c)
    {
      if protocols[j].name == c.name && protocols[j].version == c.version {
        return Some(protocols[j]);
      }
      assert protocols[j..][1..] == protocols[j + 1..];
      j := j + 1;
    }
    r := None;
  }

  lemma MatchedNext(protocols: seq<Protocol>, caps: seq<Cap>, i: nat)
    requires i < |caps|
    ensures Lookup(protocols, caps[i]).Some? ==>
      Matched(protocols, caps[..i + 1]) == Matched(protocols, caps[..i]) + {caps[i]}
    ensures Lookup(protocols, caps[i]).None? ==> Matched(protocols, caps[..i + 1]) == Matched(protocols, caps[..i])
  {
    assert caps[..i + 1] == caps[..i] + [caps[i]];
  }

  lemma EmptyTable(protocols: seq<Protocol>)
    ensures IsTable(protocols, Matched(protocols, []), map[], []) && End(map[], []) == BASE_LENGTH
  {
  }

  lemma NotBelow(protocols: seq<Protocol>, caps: seq<Cap>, i: nat)
    requires SortedCaps(caps) && i < |caps|
    ensures forall d :: d in Matched(protocols, caps[..i]) ==> !Less(caps[i], d)
  {
    forall d | d in Matched(protocols, caps[..i])
      ensures !Less(caps[i], d)
    {
      var k :| 0 <= k < i && caps[..i][k] == d;
    }
  }

  lemma SameMatched(protocols: seq<Protocol>, caps: seq<Cap>, caps': seq<Cap>)
    requires multiset(caps) == multiset(caps')
    ensures Matched(protocols, caps) == Matched(protocols, caps')
  {
    assert forall c :: c in caps <==> c in multiset(caps);
    assert forall c :: c in caps' <==> c in multiset(caps');
  }

  /** Matches the own protocols against the announced capabilities: from the lowest name and version up, a newer version
      of a name takes the range of the one before it. */
  method MatchProtocols(protocols: seq<Protocol>, announced: seq<Cap>) returns (table: Table)
    ensures Negotiated(protocols, Matched(protocols, announced), table)
  {
    hide Less, Lookup, SortedCaps, IsTable, End;
    var caps := SortCaps(announced);
    SortCapsSorted(announced);
    var offset := BASE_LENGTH;
    table := map[];
    ghost var names: seq<string> := [];
    EmptyTable(protocols);
    assert caps[..0] == [];
    var i := 0;
    while i < |caps|
      invariant i <= |caps| && forall n :: n in names ==> n in table
      invariant IsTable(protocols, Matched(protocols, caps[..i]), table, names) && offset == End(table, names)
    {
      var c := caps[i];
      MatchedNext(protocols, caps, i);
      NotBelow(protocols, caps, i);
      var found := FindProtocol(protocols, c);
      if found.Some? {
        var proto := found.value;
        if c.name in table {
          Replaced(protocols, Matched(protocols, caps[..i]), table, names, c, proto);
          offset := offset - table[c.name].proto.length;
        } else {
          Appended(protocols, Matched(protocols, caps[..i]), table, names, c, proto);
          names := names + [c.name];
        }
        table := table[c.name := Entry(proto, offset)];
        offset := offset + proto.length;
      }
      i := i + 1;
    }
    assert caps[..i] == caps;
    SameMatched(protocols, caps, announced);
  }

  /** A name runs exactly if a version of it is announced and known here, and then in the highest such version. */
  lemma RunsHighestCommon(protocols: seq<Protocol>, announced: seq<Cap>, table: Table, name: string)
    requires Negotiated(protocols, Matched(protocols, announced), table)
    ensures name in table <==>
      exists c, p :: c in announced && p in protocols && c.name == p.name == name && c.version == p.version
    ensures name in table ==>
      && table[name].proto in protocols && table[name].proto.name == name
      && Cap(name, table[name].proto.version) in announced
      && forall c, p :: c in announced && p in protocols && c.name == p.name == name && c.version == p.version ==>
           c.version <= table[name].proto.version
  {
    hide Lookup, Tiled, Ascending;
    var common := Matched(protocols, announced);
    var names :| IsTable(protocols, common, table, names);
    if name in table {
      var c := Cap(name, table[name].proto.version);
      assert c in common && Lookup(protocols, c).value == table[name].proto;
    }
    forall c, p | c in announced && p in protocols && c.name == p.name == name && c.version == p.version
      ensures name in table && c.version <= table[name].proto.version
    {
      assert Cap(p.name, p.version) == c;
      assert c in common;
    }
  }

  /** The ranges start behind the base protocol's sixteen codes and follow the order of names. */
  lemma RangesInNameOrder(protocols: seq<Protocol>, announced: seq<Cap>, table: Table, a: string, b: string)
    requires Negotiated(protocols, Matched(protocols, announced), table) && a in table && b in table
    ensures table[a].offset >= 16
    ensures Before(a, b) ==> table[a].offset + table[a].proto.length <= table[b].offset
  {
    hide Lookup, Tiled, Before, Matched;
    var names :| IsTable(protocols, Matched(protocols, announced), table, names);
    var i :| 0 <= i < |names| && names[i] == a;
    var j :| 0 <= j < |names| && names[j] == b;
    FirstCode(table, names, i);
    if Before(a, b) {
      if j < i {
        BeforeNotBoth(b, a);
      } else if i == j {
        BeforeNotBoth(a, b);
      } else {
        RangesAscend(table, names, i, j);
      }
    }
  }

  lemma {:induction false} FirstCode(table: Table, names: seq<string>, i: nat)
    requires (forall n :: n in names ==> n in table) && Tiled(table, names) && i < |names|
    ensures table[names[i]].offset >= 16
  {
    if i > 0 {
      FirstCode(table, names, i - 1);
    }
  }

  // ---- both sides agree ----

  lemma Announces(protocols: seq<Protocol>, c: Cap)
    ensures c in CapsOf(protocols) <==> Lookup(protocols, c).Some?
  {
    if c in CapsOf(protocols) {
      var i :| 0 <= i < |protocols| && CapsOf(protocols)[i] == c;
      assert protocols[i] in protocols;
    }
    if Lookup(protocols, c).Some? {
      var i :| 0 <= i < |protocols| && protocols[i] == Lookup(protocols, c).value;
      assert CapsOf(protocols)[i] == c;
    }
  }

  /** What one side finds in common is what the other finds. */
  lemma CommonCaps(ours: seq<Protocol>, theirs: seq<Protocol>)
    ensures Matched(ours, CapsOf(theirs)) == Matched(theirs, CapsOf(ours))
  {
    forall c
      ensures c in Matched(ours, CapsOf(theirs)) <==> c in Matched(theirs, CapsOf(ours))
    {
      Announces(ours, c);
      Announces(theirs, c);
    }
  }

  lemma HasFirst(names: seq<string>)
    ensures names != [] ==> names[0] in names
  {
  }

  lemma {:induction false} AscendingUnique(a: seq<string>, b: seq<string>)
    requires Ascending(a) && Ascending(b) && forall n :: n in a <==> n in b
    ensures a == b
  {
    if a == [] {
      HasFirst(b);
    } else {
      var i, j := |a| - 1, |b| - 1;
      assert a[i] in b && b != [];
      assert b[j] in a;
      LastSame(a, b);
      forall n
        ensures n in a[..i] <==> n in b[..j]
      {
        OnlyLast(a, n);
        OnlyLast(b, n);
      }
      AscendingUnique(a[..i], b[..j]);
      assert a == a[..i] + [a[i]] && b == b[..j] + [b[j]];
    }
  }

  lemma LastSame(a: seq<string>, b: seq<string>)
    requires Ascending(a) && Ascending(b) && a != [] && b != [] && a[|a| - 1] in b && b[|b| - 1] in a
    ensures a[|a| - 1] == b[|b| - 1]
  {
    var x, y := a[|a| - 1], b[|b| - 1];
    if x != y {
      var i :| 0 <= i < |b| && b[i] == x;
      var j :| 0 <= j < |a| && a[j] == y;
      assert Before(x, y) && Before(y, x);
      BeforeNotBoth(x, y);
    }
  }

  lemma OnlyLast(a: seq<string>, n: string)
    requires Ascending(a) && a != []
    ensures n in a[..|a| - 1] <==> n in a && n != a[|a| - 1]
  {
    var last := |a| - 1;
    if n in a[..last] {
      var i :| 0 <= i < last && a[i] == n;
      BeforeNotBoth(a[i], a[last]);
    }
  }

  ghost predicate SameRanges(table: Table, table': Table) {
    && table.Keys == table'.Keys
    && forall n :: n in table ==> table[n].offset == table'[n].offset && table[n].proto.length == table'[n].proto.length
                                  && table[n].proto.version == table'[n].proto.version
  }

  lemma {:induction false} SameOffsets(table: Table, table': Table, names: seq<string>, i: nat)
    requires i < |names|
    requires (forall n :: n in names ==> n in table && n in table' && table[n].proto.length == table'[n].proto.length)
    requires Tiled(table, names) && Tiled(table', names)
    ensures table[names[i]].offset == table'[names[i]].offset
  {
    if i > 0 {
      SameOffsets(table, table', names, i - 1);
    }
  }

  lemma SameVersion(ours: seq<Protocol>, theirs: seq<Protocol>, common: set<Cap>,
                    table: Table, names: seq<string>, table': Table, names': seq<string>, n: string)
    requires IsTable(ours, common, table, names) && IsTable(theirs, common, table', names') && n in table
    requires forall c :: c in common && Lookup(ours, c).Some? && Lookup(theirs, c).Some? ==>
                         Lookup(ours, c).value.length == Lookup(theirs, c).value.length
    ensures n in table' && table[n].proto.version == table'[n].proto.version
    ensures table[n].proto.length == table'[n].proto.length
  {
    hide Lookup, Tiled, Before, Ascending;
    var c := Cap(n, table[n].proto.version);
    assert c in common;
    assert Cap(n, table'[n].proto.version) in common;
  }

  lemma SameVersions(ours: seq<Protocol>, theirs: seq<Protocol>, common: set<Cap>,
                     table: Table, names: seq<string>, table': Table, names': seq<string>)
    requires IsTable(ours, common, table, names) && IsTable(theirs, common, table', names')
    requires forall c :: c in common && Lookup(ours, c).Some? && Lookup(theirs, c).Some? ==>
                         Lookup(ours, c).value.length == Lookup(theirs, c).value.length
    ensures forall n :: n in table ==> n in table' && table[n].proto.version == table'[n].proto.version
                                       && table[n].proto.length == table'[n].proto.length
  {
    hide IsTable, Lookup;
    forall n | n in table
      ensures n in table' && table[n].proto.version == table'[n].proto.version
      ensures table[n].proto.length == table'[n].proto.length
    {
      SameVersion(ours, theirs, common, table, names, table', names', n);
    }
  }

  lemma OffsetsAgree(ours: seq<Protocol>, theirs: seq<Protocol>, common: set<Cap>,
                     table: Table, names: seq<string>, table': Table, names': seq<string>)
    requires IsTable(ours, common, table, names) && IsTable(theirs, common, table', names')
    requires forall n :: n in table <==> n in table'
    requires forall n :: n in table ==> table[n].proto.length == table'[n].proto.length
    ensures forall n :: n in table ==> table[n].offset == table'[n].offset
  {
    hide Lookup, Tiled, Before, Ascending;
    AscendingUnique(names, names');
    forall n | n in table
      ensures table[n].offset == table'[n].offset
    {
      var i :| 0 <= i < |names| && names[i] == n;
      SameOffsets(table, table', names, i);
    }
  }

  /** Protocols both sides have under one name and version use equally many codes. */
  ghost predicate SameLengths(ours: seq<Protocol>, theirs: seq<Protocol>) {
    forall p, q :: p in ours && q in theirs && p.name == q.name && p.version == q.version ==> p.length == q.length
  }

  /** Two peers whose common protocols have the same lengths compute the same versions and ranges. */
  lemma TablesAgree(ours: seq<Protocol>, theirs: seq<Protocol>, table: Table, table': Table)
    requires Negotiated(ours, Matched(ours, CapsOf(theirs)), table)
    requires Negotiated(theirs, Matched(theirs, CapsOf(ours)), table')
    requires SameLengths(ours, theirs)
    ensures SameRanges(table, table')
  {
    hide IsTable, Lookup, Matched;
    CommonCaps(ours, theirs);
    var common := Matched(ours, CapsOf(theirs));
    var names :| IsTable(ours, common, table, names);
    var names' :| IsTable(theirs, common, table', names');
    SameVersions(ours, theirs, common, table, names, table', names');
    SameVersions(theirs, ours, common, table', names', table, names);
    OffsetsAgree(ours, theirs, common, table, names, table', names');
  }

  // ---- message codes ----

  predicate Handles(e: Entry, code: nat) {
    e.offset <= code < e.offset + e.proto.length
  }

  lemma {:induction false} RangesAscend(table: Table, names: seq<string>, i: nat, j: nat)
    requires (forall n :: n in names ==> n in table) && Tiled(table, names) && i < j < |names|
    ensures BASE_LENGTH <= table[names[i]].offset
    ensures table[names[i]].offset + table[names[i]].proto.length <= table[names[j]].offset
    decreases j
  {
    if i + 1 < j {
      RangesAscend(table, names, i, j - 1);
    } else if i > 0 {
      RangesAscend(table, names, i - 1, i);
    }
  }

  /** The last range ends where the table ends; below it every code from the base protocol's end has a handler. */
  lemma {:induction false} HandlerIndex(table: Table, names: seq<string>, k: nat, code: nat) returns (i: nat)
    requires (forall n :: n in names ==> n in table) && Tiled(table, names) && k <= |names|
    requires BASE_LENGTH <= code < End(table, names[..k])
    ensures i < k && Handles(table[names[i]], code)
  {
    assert names[..k][k - 1] == names[k - 1];
    if code >= table[names[k - 1]].offset {
      i := k - 1;
    } else {
      assert k > 1 && names[..k - 1][k - 2] == names[k - 2];
      i := HandlerIndex(table, names, k - 1, code);
    }
  }

  /** Every code of the tiled range has exactly one handler, every other code none. */
  lemma OneHandler(protocols: seq<Protocol>, common: set<Cap>, table: Table, names: seq<string>, code: nat)
    requires IsTable(protocols, common, table, names)
    ensures (exists n :: n in table && Handles(table[n], code)) <==> 16 <= code < End(table, names)
    ensures forall n, n' :: n in table && n' in table && Handles(table[n], code) && Handles(table[n'], code) ==> n == n'
  {
    hide Lookup, Tiled, Before, Ascending;
    if BASE_LENGTH <= code < End(table, names) {
      assert names[..|names|] == names;
      var i := HandlerIndex(table, names, |names|, code);
      assert names[i] in table;
    }
    forall n | n in table && Handles(table[n], code)
      ensures BASE_LENGTH <= code < End(table, names)
    {
      var i :| 0 <= i < |names| && names[i] == n;
      InsideEnd(table, names, i);
    }
    forall n, n' | n in table && n' in table && Handles(table[n], code) && Handles(table[n'], code)
      ensures n == n'
    {
      var i :| 0 <= i < |names| && names[i] == n;
      var j :| 0 <= j < |names| && names[j] == n';
      if i < j {
        RangesAscend(table, names, i, j);
      } else if j < i {
        RangesAscend(table, names, j, i);
      }
    }
  }

  lemma InsideEnd(table: Table, names: seq<string>, i: nat)
    requires (forall n :: n in names ==> n in table) && Tiled(table, names) && i < |names|
    ensures BASE_LENGTH <= table[names[i]].offset
    ensures table[names[i]].offset + table[names[i]].proto.length <= End(table, names)
  {
    if i < |names| - 1 {
      RangesAscend(table, names, i, |names| - 1);
    } else if i > 0 {
      RangesAscend(table, names, i - 1, i);
    }
  }

  /** Finds the protocol responsible for a code, whatever order the running protocols are visited in. */
  method GetProto(running: Table, code: nat) returns (r: Option<string>)
    ensures r.Some? ==> r.value in running && Handles(running[r.value], code)
    ensures r.None? ==> forall n :: n in running ==> !Handles(running[n], code)
  {
    var todo := running.Keys;
    while todo != {}
      invariant todo <= running.Keys
      invariant forall n :: n in running && n !in todo ==> !Handles(running[n], code)
      decreases |todo|
    {
      var name :| name in todo;
      todo := todo - {name};
      var proto := running[name];
      if code >= proto.offset && code < proto.offset + proto.proto.length {
        return Some(name);
      }
    }
    r := None;
  }

  /** The code a protocol's message travels under; a code outside the protocol is refused. */
  function WireCode(e: Entry, code: nat): (r: Option<nat>)
    ensures r.Some? <==> code < e.proto.length
    ensures r.Some? ==> Handles(e, r.value)
  {
    if code >= e.proto.length then None else Some(code + e.offset)
  }

  /** The code the protocol sees again. */
  function LocalCode(e: Entry, code: nat): nat
    requires Handles(e, code)
  {
    code - e.offset
  }

  /** What one peer writes under a protocol, the other reads under that protocol and no other, with the same code. */
  lemma CodesTravel(ours: seq<Protocol>, theirs: seq<Protocol>, table: Table, table': Table, name: string, code: nat,
                    reader: string)
    requires Negotiated(ours, Matched(ours, CapsOf(theirs)), table)
    requires Negotiated(theirs, Matched(theirs, CapsOf(ours)), table')
    requires SameLengths(ours, theirs)
    requires name in table && code < table[name].proto.length && reader in table'
    ensures WireCode(table[name], code).Some?
    ensures Handles(table'[reader], WireCode(table[name], code).value) <==> reader == name
    ensures reader == name ==> LocalCode(table'[reader], WireCode(table[name], code).value) == code
  {
    hide IsTable, Lookup, Matched, CapsOf;
    TablesAgree(ours, theirs, table, table');
    var common := Matched(theirs, CapsOf(ours));
    var names' :| IsTable(theirs, common, table', names');
    OneHandler(theirs, common, table', names', WireCode(table[name], code).value);
  }
}
