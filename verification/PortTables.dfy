/** The table of mapped ports: entries, the two searches over it, and the effect of each
    client request on the table and on the entries' reference counts. */
module PortTables {
  import opened Options
  import opened SockAddrs

  /** A mapped port. `id` identifies the allocation: it is never given to a second entry. */
  datatype PortEntry = PortEntry(
    id: nat, owner: nat, local: SockAddr, mapped: SockAddr, wcard: bool, refs: int)

  /** What happened to an entry's reference count, and when its memory was released. */
  datatype PortEvent = Reused(id: nat) | Released(id: nat) | Freed(id: nat)

  /** `ports` is the list, newest first; `born[i]` is entry `i` as first linked and
      `history` the events so far. The last two only record the run. */
  datatype Table = Table(ports: seq<PortEntry>, born: seq<PortEntry>, history: multiset<PortEvent>)

  const EMPTY_TABLE := Table([], [], multiset{})

  // ------------------------------------------------------------ searches

  /** The test of find_iwpm_mapping on one entry. */
  predicate Hit(s: SockAddr, e: PortEntry, notMapped: bool) {
    var current := if notMapped then e.local else e.mapped;
    GetPort(s) == GetPort(current) && (SameSockAddr(s, current) || e.wcard || IsWildcard(s))
  }

  /** find_iwpm_mapping: the position of the first hit. */
  function FindMapping(ports: seq<PortEntry>, s: SockAddr, notMapped: bool): (r: Option<nat>)
    ensures r.Some? ==> r.value < |ports| && Hit(s, ports[r.value], notMapped)
    ensures r.Some? ==> forall j :: 0 <= j < r.value ==> !Hit(s, ports[j], notMapped)
    ensures r.None? ==> forall j :: 0 <= j < |ports| ==> !Hit(s, ports[j], notMapped)
  {
    if ports == [] then None else
    var last := |ports| - 1;
    var r := FindMapping(ports[..last], s, notMapped);
    if r.Some? then r else if Hit(s, ports[last], notMapped) then Some(last) else None
  }

  /** find_iwpm_same_mapping on local addresses: the position of the first equal address. */
  function FindSame(ports: seq<PortEntry>, s: SockAddr): (r: Option<nat>)
    ensures r.Some? ==> r.value < |ports| && SameSockAddr(s, ports[r.value].local)
    ensures r.Some? ==> forall j :: 0 <= j < r.value ==> !SameSockAddr(s, ports[j].local)
    ensures r.None? ==> forall j :: 0 <= j < |ports| ==> !SameSockAddr(s, ports[j].local)
  {
    if ports == [] then None else
    var last := |ports| - 1;
    var r := FindSame(ports[..last], s);
    if r.Some? then r else if SameSockAddr(s, ports[last].local) then Some(last) else None
  }

  // ------------------------------------------------------------ effects

  /** get_iwpm_tcp_port: the family is checked before the host stack is asked for a port. */
  function TcpPort(family: nat, bind: Option<Half>): Option<Half> {
    if IsInet(family) then bind else None
  }

  /** get_iwpm_port: a new entry counts its creator as its one owner. */
  function NewEntry(owner: nat, local: SockAddr, mapped: SockAddr): PortEntry {
    PortEntry(0, owner, local, mapped, IsWildcard(local), 1)
  }

  /** create_iwpm_mapped_port. */
  function Create(local: SockAddr, owner: nat, noMap: bool, bind: Option<Half>, alloc: bool): Option<PortEntry> {
    if noMap then (if alloc then Some(NewEntry(owner, local, local)) else None)
    else
      var p := TcpPort(local.family, bind);
      if p.Some? && alloc then Some(NewEntry(owner, local, local.(port := p.value))) else None
  }

  /** reopen_iwpm_mapped_port. */
  function Reopen(local: SockAddr, mapped: SockAddr, owner: nat, noMap: bool, bind: Option<Half>, alloc: bool)
    : Option<PortEntry>
  {
    if local.family != mapped.family then None
    else if noMap then (if alloc then Some(NewEntry(owner, local, mapped)) else None)
    else
      var p := TcpPort(local.family, bind);
      if p.Some? && alloc then Some(NewEntry(owner, local, mapped.(port := p.value))) else None
  }

  /** One more owner for the entry at `i`. */
  function Reuse(t: Table, i: nat): Table
    requires i < |t.ports|
  {
    t.(ports := t.ports[i := t.ports[i].(refs := t.ports[i].refs + 1)],
       history := t.history + multiset{Reused(t.ports[i].id)})
  }

  /** A new entry at the head of the list. */
  function Link(t: Table, e: PortEntry): Table {
    var e' := e.(id := |t.born|);
    t.(ports := [e'] + t.ports, born := t.born + [e'])
  }

  /** One owner fewer for the entry at `i`; the last one unlinks and frees it. */
  function Release(t: Table, i: nat): Table
    requires i < |t.ports|
  {
    var e := t.ports[i];
    if e.refs == 1 then
      t.(ports := t.ports[..i] + t.ports[i + 1..],
         history := t.history + multiset{Released(e.id), Freed(e.id)})
    else
      t.(ports := t.ports[i := e.(refs := e.refs - 1)],
         history := t.history + multiset{Released(e.id)})
  }

  datatype AddOutcome = AddDone | AddDuplicate | AddNotCreated | AddNotAnswered

  /** process_iwpm_add_mapping, as a change of the table. Only a wildcard entry may be shared,
      and a request that is not answered leaves no trace. */
  function AddMapping(t: Table, local: SockAddr, client: nat, noMap: bool, bind: Option<Half>,
                      alloc: bool, answered: bool): (r: (Table, AddOutcome))
  {
    match FindMapping(t.ports, local, true)
    case Some(i) =>
      if !(SameSockAddr(local, t.ports[i].local) && t.ports[i].wcard) then (t, AddDuplicate)
      else if answered then (Reuse(t, i), AddDone)
      else (t, AddNotAnswered)
    case None =>
      match Create(local, client, noMap, bind, alloc)
      case None => (t, AddNotCreated)
      case Some(e) => if answered then (Link(t, e), AddDone) else (t, AddNotAnswered)
  }

  /** process_iwpm_remove_mapping: ignored unless the owner asks. */
  function RemoveMapping(t: Table, local: SockAddr, client: nat): (r: Table)
  {
    match FindSame(t.ports, local)
    case None => t
    case Some(i) => if t.ports[i].owner != client then t else Release(t, i)
  }

  datatype InfoOutcome = InfoKnown | InfoLinked | InfoDuplicate | InfoNotCreated

  /** process_iwpm_mapinfo. */
  function MapInfo(t: Table, local: SockAddr, mapped: SockAddr, client: nat, noMap: bool,
                   bind: Option<Half>, alloc: bool): (r: (Table, InfoOutcome))
  {
    match FindMapping(t.ports, local, true)
    case Some(i) =>
      if SameSockAddr(t.ports[i].local, local) && SameSockAddr(t.ports[i].mapped, mapped) then (t, InfoKnown)
      else (t, InfoDuplicate)
    case None =>
      match Reopen(local, mapped, client, noMap, bind, alloc)
      case None => (t, InfoNotCreated)
      case Some(e) => (Link(t, e), InfoLinked)
  }

  // ------------------------------------------------------------ invariants

  /** Two entries on one port have different addresses and neither is a wildcard. */
  ghost predicate Apart(a: PortEntry, b: PortEntry) {
    GetPort(a.local) == GetPort(b.local) ==>
      !SameSockAddr(a.local, b.local) && !IsWildcard(a.local) && !IsWildcard(b.local)
  }

  ghost predicate PairwiseApart(ports: seq<PortEntry>) {
    forall i, j :: 0 <= i < |ports| && 0 <= j < |ports| && i != j ==> Apart(ports[i], ports[j])
  }

  ghost predicate Linked(ports: seq<PortEntry>, id: nat) {
    exists i :: 0 <= i < |ports| && ports[i].id == id
  }

  /** Every linked entry is linked once and is the entry first linked under its number. */
  ghost predicate IdsInv(ports: seq<PortEntry>, born: seq<PortEntry>) {
    && (forall i, j :: 0 <= i < |ports| && 0 <= j < |ports| && i != j ==> ports[i].id != ports[j].id)
    && (forall i :: 0 <= i < |ports| ==>
          ports[i].id < |born| && ports[i] == born[ports[i].id].(refs := ports[i].refs))
  }

  ghost predicate BornInv(b: PortEntry) {
    b.wcard == IsWildcard(b.local) && b.mapped.family == b.local.family && b.refs == 1
  }

  ghost predicate AllBornInv(born: seq<PortEntry>) {
    forall k :: 0 <= k < |born| ==> born[k].id == k && BornInv(born[k])
  }

  /** The count is one plus reuses minus releases, and is positive while linked. */
  ghost predicate RefsInv(e: PortEntry, history: multiset<PortEvent>) {
    && e.refs >= 1
    && e.refs + history[Released(e.id)] == 1 + history[Reused(e.id)]
    && history[Freed(e.id)] == 0
  }

  /** An entry is freed once, when it is no longer linked. */
  ghost predicate FreedInv(t: Table, k: nat) {
    if k < |t.born| then t.history[Freed(k)] == if Linked(t.ports, k) then 0 else 1
    else t.history[Reused(k)] == 0 && t.history[Released(k)] == 0 && t.history[Freed(k)] == 0
  }

  ghost predicate CountInv(t: Table) {
    && (forall i :: 0 <= i < |t.ports| ==> RefsInv(t.ports[i], t.history))
    && (forall k: nat :: FreedInv(t, k))
  }

  ghost predicate TableInv(t: Table) {
    PairwiseApart(t.ports) && IdsInv(t.ports, t.born) && AllBornInv(t.born) && CountInv(t)
  }

  lemma ReuseKeeps(t: Table, i: nat)
    requires TableInv(t) && i < |t.ports|
    ensures TableInv(Reuse(t, i))
    ensures forall k :: Linked(Reuse(t, i).ports, k) <==> Linked(t.ports, k)
  {
    var t' := Reuse(t, i);
    forall k | Linked(t.ports, k) ensures Linked(t'.ports, k) {
      var j :| 0 <= j < |t.ports| && t.ports[j].id == k;
      assert t'.ports[j].id == k;
    }
    forall k: nat ensures FreedInv(t', k) { assert FreedInv(t, k); }
  }

  lemma LinkIds(t: Table, e: PortEntry)
    requires IdsInv(t.ports, t.born) && AllBornInv(t.born) && BornInv(e)
    ensures IdsInv(Link(t, e).ports, Link(t, e).born) && AllBornInv(Link(t, e).born)
    ensures forall k :: Linked(Link(t, e).ports, k) <==> Linked(t.ports, k) || k == |t.born|
  {
    var ports := Link(t, e).ports;
    assert ports[0].id == |t.born|;
    forall k | Linked(t.ports, k) ensures Linked(ports, k) {
      var j :| 0 <= j < |t.ports| && t.ports[j].id == k;
      assert ports[j + 1].id == k;
    }
  }

  lemma LinkCounts(t: Table, e: PortEntry)
    requires IdsInv(t.ports, t.born) && AllBornInv(t.born) && BornInv(e) && CountInv(t)
    ensures CountInv(Link(t, e))
  {
    LinkIds(t, e);
    assert FreedInv(t, |t.born|);
    forall k: nat ensures FreedInv(Link(t, e), k) { assert FreedInv(t, k); }
  }

  lemma LinkKeeps(t: Table, e: PortEntry)
    requires TableInv(t) && BornInv(e)
    requires FindMapping(t.ports, e.local, true).None?
    ensures TableInv(Link(t, e))
    ensures forall k :: Linked(Link(t, e).ports, k) <==> Linked(t.ports, k) || k == |t.born|
  {
    LinkIds(t, e);
    LinkCounts(t, e);
    forall j | 0 <= j < |t.ports|
      ensures Apart(Link(t, e).ports[0], t.ports[j]) && Apart(t.ports[j], Link(t, e).ports[0])
    {
      assert !Hit(e.local, t.ports[j], true);
      assert BornInv(t.born[t.ports[j].id]);
    }
  }

  lemma ReleaseIds(t: Table, i: nat)
    requires IdsInv(t.ports, t.born) && i < |t.ports|
    ensures IdsInv(Release(t, i).ports, t.born)
    ensures forall k :: Linked(Release(t, i).ports, k) <==>
                          Linked(t.ports, k) && !(k == t.ports[i].id && t.ports[i].refs == 1)
  {
    var ports, e := Release(t, i).ports, t.ports[i];
    forall k | Linked(t.ports, k) && !(k == e.id && e.refs == 1) ensures Linked(ports, k) {
      var j :| 0 <= j < |t.ports| && t.ports[j].id == k;
      assert ports[if e.refs == 1 && j > i then j - 1 else j].id == k;
    }
  }

  lemma ReleaseKeeps(t: Table, i: nat)
    requires TableInv(t) && i < |t.ports|
    ensures TableInv(Release(t, i))
    ensures forall k :: Linked(Release(t, i).ports, k) <==>
                          Linked(t.ports, k) && !(k == t.ports[i].id && t.ports[i].refs == 1)
  {
    ReleaseIds(t, i);
    assert RefsInv(t.ports[i], t.history);
    forall k: nat ensures FreedInv(Release(t, i), k) { assert FreedInv(t, k); }
  }

  lemma AddMappingKeeps(t: Table, local: SockAddr, client: nat, noMap: bool, bind: Option<Half>,
                        alloc: bool, answered: bool)
    requires TableInv(t)
    ensures TableInv(AddMapping(t, local, client, noMap, bind, alloc, answered).0)
    ensures AddMapping(t, local, client, noMap, bind, alloc, answered).1 != AddDone ==>
              AddMapping(t, local, client, noMap, bind, alloc, answered).0 == t
  {
    match FindMapping(t.ports, local, true)
    case Some(i) => ReuseKeeps(t, i);
    case None =>
      var c := Create(local, client, noMap, bind, alloc);
      if c.Some? { LinkKeeps(t, c.value); }
  }

  lemma MapInfoKeeps(t: Table, local: SockAddr, mapped: SockAddr, client: nat, noMap: bool,
                     bind: Option<Half>, alloc: bool)
    requires TableInv(t)
    ensures TableInv(MapInfo(t, local, mapped, client, noMap, bind, alloc).0)
  {
    var c := Reopen(local, mapped, client, noMap, bind, alloc);
    if FindMapping(t.ports, local, true).None? && c.Some? { LinkKeeps(t, c.value); }
  }

  lemma RemoveMappingKeeps(t: Table, local: SockAddr, client: nat)
    requires TableInv(t)
    ensures TableInv(RemoveMapping(t, local, client))
  {
    var r := FindSame(t.ports, local);
    if r.Some? { ReleaseKeeps(t, r.value); }
  }

  // ------------------------------------------------------------ consequences

  /** A search, by local or by mapped address, finds an entry if and only if one is on the same port
      with the same address there, or with a wildcard on either side. */
  lemma FindsIff(ports: seq<PortEntry>, s: SockAddr, notMapped: bool)
    ensures FindMapping(ports, s, notMapped).Some? <==>
              exists i :: 0 <= i < |ports| &&
                var a := if notMapped then ports[i].local else ports[i].mapped;
                GetPort(s) == GetPort(a) && (SameSockAddr(s, a) || ports[i].wcard || IsWildcard(s))
  {
    var f := FindMapping(ports, s, notMapped);
    if f.Some? { assert Hit(s, ports[f.value], notMapped); }
    if i :| 0 <= i < |ports| && var a := if notMapped then ports[i].local else ports[i].mapped;
                GetPort(s) == GetPort(a) && (SameSockAddr(s, a) || ports[i].wcard || IsWildcard(s)) {
      assert Hit(s, ports[i], notMapped);
    }
  }

  /** At most one entry answers a search for an address that is not a wildcard. */
  lemma HitIsUnique(t: Table, s: SockAddr, i: nat, j: nat)
    requires TableInv(t) && !IsWildcard(s)
    requires i < |t.ports| && j < |t.ports|
    requires Hit(s, t.ports[i], true) && Hit(s, t.ports[j], true)
    ensures i == j
  {
  }

  lemma Elsewhere(ports: seq<PortEntry>, ports': seq<PortEntry>, i: nat) returns (j: nat)
    requires multiset(ports) == multiset(ports') && i < |ports|
    ensures j < |ports'| && ports'[j] == ports[i]
  {
    assert ports[i] in multiset(ports);
    j :| 0 <= j < |ports'| && ports'[j] == ports[i];
  }

  /** Hence the search does not depend on the order of the list. */
  lemma FindIsOrderFree(t: Table, u: Table, s: SockAddr)
    requires TableInv(t) && TableInv(u) && !IsWildcard(s)
    requires multiset(t.ports) == multiset(u.ports)
    ensures var a, b := FindMapping(t.ports, s, true), FindMapping(u.ports, s, true);
            a.Some? == b.Some? && (a.Some? ==> t.ports[a.value] == u.ports[b.value])
  {
    var a, b := FindMapping(t.ports, s, true), FindMapping(u.ports, s, true);
    if a.Some? {
      var j := Elsewhere(t.ports, u.ports, a.value);
      HitIsUnique(u, s, j, b.value);
    }
    if b.Some? {
      var j := Elsewhere(u.ports, t.ports, b.value);
    }
  }

  /** Two linked entries with one local address are one entry. */
  lemma SameLocalIsSameEntry(t: Table, p: nat, q: nat)
    requires TableInv(t) && Linked(t.ports, p) && Linked(t.ports, q)
    requires p < |t.born| && q < |t.born| && SameSockAddr(t.born[p].local, t.born[q].local)
    ensures p == q
  {
  }

  /** Two linked entries that answer one search for a non-wildcard are one entry. */
  lemma SameHitIsSameEntry(t: Table, s: SockAddr, p: nat, q: nat)
    requires TableInv(t) && Linked(t.ports, p) && Linked(t.ports, q)
    requires p < |t.born| && q < |t.born| && Hit(s, t.born[p], true) && Hit(s, t.born[q], true)
    requires !IsWildcard(s) || t.born[p].wcard || t.born[q].wcard
    ensures p == q
  {
  }

  // ------------------------------------------------------------ calls that follow one another

  lemma HitFirst(ports: seq<PortEntry>, s: SockAddr, i: nat)
    requires i < |ports| && Hit(s, ports[i], true)
    requires forall j :: 0 <= j < i ==> !Hit(s, ports[j], true)
    ensures FindMapping(ports, s, true) == Some(i)
  {
  }

  /** In a table satisfying the invariant at most one entry has a given local address. */
  lemma OnlyOneSame(t: Table, s: SockAddr, i: nat)
    requires TableInv(t) && i < |t.ports| && SameSockAddr(s, t.ports[i].local)
    ensures FindSame(t.ports, s) == Some(i)
  {
    forall j | 0 <= j < |t.ports| && j != i ensures !SameSockAddr(s, t.ports[j].local) {
      assert Apart(t.ports[i], t.ports[j]);
      SameIsPartialEquivalence(t.ports[i].local, s, t.ports[j].local);
    }
  }

  /** A count raised and lowered again. */
  lemma ReuseThenRelease(t: Table, i: nat)
    requires i < |t.ports| && t.ports[i].refs >= 1
    ensures Release(Reuse(t, i), i).ports == t.ports
  {
    var e := t.ports[i];
    assert t.ports[i := e.(refs := e.refs + 1)][i := e] == t.ports;
  }

  /** A new entry linked and removed again. */
  lemma LinkThenRelease(t: Table, e: PortEntry)
    requires e.refs == 1
    ensures Release(Link(t, e), 0).ports == t.ports
  {
    var e' := e.(id := |t.born|);
    assert ([e'] + t.ports)[..0] + ([e'] + t.ports)[1..] == t.ports;
  }

  /** After a shared entry got one more owner, a removal takes that owner away again. */
  lemma SharedThenRemove(t: Table, local: SockAddr, client: nat, i: nat)
    requires TableInv(t) && i < |t.ports| && SameSockAddr(local, t.ports[i].local) && t.ports[i].owner == client
    ensures RemoveMapping(Reuse(t, i), local, client).ports == t.ports
  {
    ReuseKeeps(t, i);
    OnlyOneSame(Reuse(t, i), local, i);
    assert RefsInv(t.ports[i], t.history);
    ReuseThenRelease(t, i);
  }

  /** After a new entry was linked, a removal takes it off again. */
  lemma NewThenRemove(t: Table, local: SockAddr, client: nat, e: PortEntry)
    requires TableInv(t) && BornInv(e) && e.local == local && e.owner == client && IsInet(local.family)
    requires FindMapping(t.ports, local, true).None?
    ensures RemoveMapping(Link(t, e), local, client).ports == t.ports
  {
    LinkKeeps(t, e);
    SameIsPartialEquivalence(local, local, local);
    OnlyOneSame(Link(t, e), local, 0);
    LinkThenRelease(t, e);
  }

  /** A sharer that does not own the entry is refused, so the count it raised stays raised. */
  lemma SharerKeeps(t: Table, local: SockAddr, client: nat, i: nat)
    requires TableInv(t) && i < |t.ports| && SameSockAddr(local, t.ports[i].local) && t.ports[i].owner != client
    ensures RemoveMapping(Reuse(t, i), local, client) == Reuse(t, i)
    ensures RemoveMapping(Reuse(t, i), local, client).ports[i].refs == t.ports[i].refs + 1
  {
    ReuseKeeps(t, i);
    OnlyOneSame(Reuse(t, i), local, i);
  }

  /** An address of an unknown family is never found again. */
  lemma UnknownStays(t: Table, local: SockAddr, client: nat)
    requires !IsInet(local.family)
    ensures RemoveMapping(t, local, client) == t
  {
  }

  /** A removal by the client that added a mapping undoes the addition, so that the list is as it
      was before both, if and only if the entry was shared and is that client's own, or was new and
      of a known family. */
  lemma AddThenRemove(t: Table, local: SockAddr, client: nat, noMap: bool, bind: Option<Half>, alloc: bool)
    requires TableInv(t) && AddMapping(t, local, client, noMap, bind, alloc, true).1 == AddDone
    ensures RemoveMapping(AddMapping(t, local, client, noMap, bind, alloc, true).0, local, client).ports == t.ports
        <==> var f := FindMapping(t.ports, local, true);
             if f.Some? then t.ports[f.value].owner == client else IsInet(local.family)
  {
    match FindMapping(t.ports, local, true)
    case Some(i) =>
      if t.ports[i].owner == client {
        SharedThenRemove(t, local, client, i);
      } else {
        SharerKeeps(t, local, client, i);
      }
    case None =>
      var e := Create(local, client, noMap, bind, alloc).value;
      if IsInet(local.family) {
        NewThenRemove(t, local, client, e);
      } else {
        UnknownStays(Link(t, e), local, client);
      }
  }

  const ANY_80 := SockAddr(AF_INET, Half(0, 80), ZERO_QUAD, ZERO_IP)

  /** Two clients on the wildcard address: the second one's removal changes nothing, and when the
      first has removed its own share the entry is still mapped. */
  lemma SharerLeavesMapping()
    ensures var one := AddMapping(EMPTY_TABLE, ANY_80, 1, true, None, true, true);
            var two := AddMapping(one.0, ANY_80, 2, true, None, true, true);
            && one.1 == AddDone && two.1 == AddDone
            && RemoveMapping(two.0, ANY_80, 2) == two.0
            && |RemoveMapping(RemoveMapping(two.0, ANY_80, 2), ANY_80, 1).ports| == 1
  {
    var one := AddMapping(EMPTY_TABLE, ANY_80, 1, true, None, true, true);
    HitFirst(one.0.ports, ANY_80, 0);
    var two := AddMapping(one.0, ANY_80, 2, true, None, true, true);
    assert two.0.ports[..0] == [];
    assert FindSame(two.0.ports, ANY_80) == Some(0);
  }

  /** Once an address is mapped, a second addition succeeds only for a wildcard, which then has
      one owner more and no new entry. */
  lemma AddTwice(t: Table, local: SockAddr, client: nat, noMap: bool, bind: Option<Half>, alloc: bool,
                 client': nat, noMap': bool, bind': Option<Half>, alloc': bool)
    requires TableInv(t) && IsInet(local.family)
    requires AddMapping(t, local, client, noMap, bind, alloc, true).1 == AddDone
    ensures var t' := AddMapping(t, local, client, noMap, bind, alloc, true).0;
            var again := AddMapping(t', local, client', noMap', bind', alloc', true);
            if IsWildcard(local) then again.1 == AddDone && again.0.born == t'.born && |again.0.ports| == |t'.ports|
            else again == (t', AddDuplicate)
  {
    var t' := AddMapping(t, local, client, noMap, bind, alloc, true).0;
    var f := FindMapping(t.ports, local, true);
    if f.Some? {
      assert BornInv(t.born[t.ports[f.value].id]);
      HitFirst(t'.ports, local, f.value);
    } else {
      HitFirst(t'.ports, local, 0);
    }
  }
}
