/** Who holds a mapped port: how often clients have taken an entry and given it back, counted from
    what they asked for, and the reference count as exactly the difference. */
module RefCounts {
  import opened Options
  import opened SockAddrs
  import opened WireMsgs
  import opened PortTables
  import opened MapRequests
  import opened Daemons

  /** There is memory for a new entry, and a port unless the client wants none. */
  predicate Obtainable(family: nat, noMap: bool, bind: Option<Half>, alloc: bool) {
    alloc && (noMap || (IsInet(family) && bind.Some?))
  }

  /** A query for this step's addresses is started: the local address has an entry that is no
      wildcard or can get one, the remote one has a known family, and there is memory. */
  predicate CanStart(d: Daemon, s: Step)
    requires s.QueryStep?
  {
    && IsInet(s.remote.family) && s.allocReq
    && match FindMapping(d.table.ports, s.local, true)
       case Some(i) => !d.table.ports[i].wcard
       case None => !IsWildcard(s.local) && Obtainable(s.local.family, s.noMap, s.bind, s.alloc)
  }

  /** The step makes its client one more holder of entry `id`; a new entry gets the next number. */
  predicate Takes(d: Daemon, s: Step, id: nat) {
    match s
    case AddStep(local, client, noMap, bind, alloc, answered) =>
      && answered
      && (match FindMapping(d.table.ports, local, true)
          case Some(i) => d.table.ports[i].id == id && IsWildcard(local) && SameSockAddr(local, d.table.ports[i].local)
          case None => id == |d.table.born| && Obtainable(local.family, noMap, bind, alloc))
    case QueryStep(local, _, _, _, _, _, _, _, _, _, _, _) =>
      && CanStart(d, s)
      && (match FindMapping(d.table.ports, local, true)
          case Some(i) => d.table.ports[i].id == id
          case None => id == |d.table.born|)
    case MapInfoStep(local, mapped, client, noMap, bind, alloc) =>
      && FindMapping(d.table.ports, local, true).None? && id == |d.table.born|
      && local.family == mapped.family && Obtainable(local.family, noMap, bind, alloc)
    case _ => false
  }

  /** The step is the removal of entry `id` by its owner. */
  predicate GivesBack(d: Daemon, s: Step, id: nat) {
    match s
    case RemoveStep(local, client) =>
      (match FindSame(d.table.ports, local)
       case Some(i) => d.table.ports[i].id == id && d.table.ports[i].owner == client
       case None => false)
    case _ => false
  }

  /** Entry `id` has `n` holders: it is linked, with that count, exactly if that is not none. */
  ghost predicate Holders(t: Table, id: nat, n: int) {
    && n >= 0
    && (n > 0 <==> Linked(t.ports, id))
    && (forall i :: 0 <= i < |t.ports| && t.ports[i].id == id ==> t.ports[i].refs == n)
  }

  lemma ReuseHolders(t: Table, i: nat, id: nat, n: int)
    requires TableInv(t) && i < |t.ports| && Holders(t, id, n)
    ensures Holders(Reuse(t, i), id, if t.ports[i].id == id then n + 1 else n)
  {
    ReuseKeeps(t, i);
  }

  lemma LinkHolders(t: Table, e: PortEntry, id: nat, n: int)
    requires TableInv(t) && BornInv(e) && Holders(t, id, n)
    ensures Holders(Link(t, e), id, if id == |t.born| then n + 1 else n)
  {
    LinkIds(t, e);
  }

  lemma ReleaseHolders(t: Table, i: nat, id: nat, n: int)
    requires TableInv(t) && i < |t.ports| && Holders(t, id, n)
    ensures Holders(Release(t, i), id, if t.ports[i].id == id then n - 1 else n)
  {
    ReleaseIds(t, i);
    assert RefsInv(t.ports[i], t.history);
  }

  function Change(d: Daemon, s: Step, id: nat): int {
    (if Takes(d, s, id) then 1 else 0) - if GivesBack(d, s, id) then 1 else 0
  }

  lemma AddHolders(d: Daemon, s: Step, id: nat, n: int)
    requires s.AddStep? && TableInv(d.table) && Holders(d.table, id, n)
    ensures Holders(Next(d, s).table, id, n + Change(d, s, id))
  {
    match FindMapping(d.table.ports, s.local, true)
    case Some(i) =>
      assert BornInv(d.table.born[d.table.ports[i].id]);
      ReuseHolders(d.table, i, id, n);
    case None =>
      var c := Create(s.local, s.client, s.noMap, s.bind, s.alloc);
      if c.Some? { LinkHolders(d.table, c.value, id, n); }
  }

  lemma QueryHolders(d: Daemon, s: Step, id: nat, n: int)
    requires s.QueryStep? && Enabled(d, s) && TableInv(d.table) && Holders(d.table, id, n)
    ensures Holders(Next(d, s).table, id, n + Change(d, s, id))
  {
    match FindMapping(d.table.ports, s.local, true)
    case Some(i) => ReuseHolders(d.table, i, id, n);
    case None =>
      var c := Create(s.local, s.client, s.noMap, s.bind, s.alloc);
      if c.Some? { LinkHolders(d.table, c.value, id, n); }
  }

  lemma MapInfoHolders(d: Daemon, s: Step, id: nat, n: int)
    requires s.MapInfoStep? && TableInv(d.table) && Holders(d.table, id, n)
    ensures Holders(Next(d, s).table, id, n + Change(d, s, id))
  {
    var c := Reopen(s.local, s.mapped, s.client, s.noMap, s.bind, s.alloc);
    if FindMapping(d.table.ports, s.local, true).None? && c.Some? { LinkHolders(d.table, c.value, id, n); }
  }

  lemma RemoveHolders(d: Daemon, s: Step, id: nat, n: int)
    requires s.RemoveStep? && TableInv(d.table) && Holders(d.table, id, n)
    ensures Holders(Next(d, s).table, id, n + Change(d, s, id))
  {
    var r := FindSame(d.table.ports, s.local);
    if r.Some? { ReleaseHolders(d.table, r.value, id, n); }
  }

  /** A step adds the holder that takes the entry and takes off the one that gives it back. */
  lemma StepHolders(d: Daemon, s: Step, id: nat, n: int)
    requires Enabled(d, s) && TableInv(d.table) && Holders(d.table, id, n)
    ensures Holders(Next(d, s).table, id, n + Change(d, s, id))
  {
    match s
    case AddStep(_, _, _, _, _, _) => AddHolders(d, s, id, n);
    case QueryStep(_, _, _, _, _, _, _, _, _, _, _, _) => QueryHolders(d, s, id, n);
    case MapInfoStep(_, _, _, _, _, _) => MapInfoHolders(d, s, id, n);
    case RemoveStep(_, _) => RemoveHolders(d, s, id, n);
    case _ =>
  }

  /** How often entry `id` was taken in the first `n` steps of a run, less how often given back. */
  ghost function Balance(states: seq<Daemon>, steps: seq<Step>, id: nat, n: nat): int
    requires |states| == |steps| + 1 && n <= |steps|
  {
    if n == 0 then 0 else Balance(states, steps, id, n - 1) + Change(states[n - 1], steps[n - 1], id)
  }

  /** In every run the reference count of an entry is the number of times it was taken, by additions,
      queries and mapping records, less the number of times its owner removed it; it is in the table
      exactly while that is not zero. */
  lemma {:induction false} CountIsBalance(states: seq<Daemon>, steps: seq<Step>, n: nat, id: nat)
    requires IsRun(states, steps) && n <= |steps|
    ensures Holders(states[n].table, id, Balance(states, steps, id, n))
  {
    if n > 0 {
      CountIsBalance(states, steps, n - 1, id);
      RunKeeps(states, steps, n - 1);
      StepHolders(states[n - 1], steps[n - 1], id, Balance(states, steps, id, n - 1));
    }
  }

  /** A query from a mapped address takes a reference and makes no new entry. */
  lemma QueryTakesReference(d: Daemon, s: Step, i: nat)
    requires s.QueryStep? && Enabled(d, s) && CanStart(d, s)
    requires FindMapping(d.table.ports, s.local, true) == Some(i)
    ensures var t, t' := d.table, Next(d, s).table;
            t'.born == t.born && t'.ports == t.ports[i := t.ports[i].(refs := t.ports[i].refs + 1)]
  {
  }

  /** Hence in every run the address stays mapped through the next step, even if that is its owner's
      removal. */
  lemma QueryOutlivesRemoval(states: seq<Daemon>, steps: seq<Step>, n: nat, i: nat)
    requires IsRun(states, steps) && n + 1 < |steps| && steps[n].QueryStep? && CanStart(states[n], steps[n])
    requires FindMapping(states[n].table.ports, steps[n].local, true) == Some(i)
    ensures i < |states[n].table.ports| && Linked(states[n + 2].table.ports, states[n].table.ports[i].id)
  {
    var id := states[n].table.ports[i].id;
    RunKeeps(states, steps, n);
    assert RefsInv(states[n].table.ports[i], states[n].table.history);
    CountIsBalance(states, steps, n, id);
    assert Balance(states, steps, id, n) == states[n].table.ports[i].refs;
    CountIsBalance(states, steps, n + 2, id);
    assert Balance(states, steps, id, n + 2) ==
             Balance(states, steps, id, n + 1) + Change(states[n + 1], steps[n + 1], id);
  }

  /** An addition is reported done exactly if its client has become a holder. */
  lemma AddOutcomes(d: Daemon, s: Step)
    requires s.AddStep? && TableInv(d.table)
    ensures AddMapping(d.table, s.local, s.client, s.noMap, s.bind, s.alloc, s.answered).1 == AddDone <==>
              exists id :: Takes(d, s, id)
  {
    var f := FindMapping(d.table.ports, s.local, true);
    var id := if f.Some? then d.table.ports[f.value].id else |d.table.born|;
    if f.Some? { assert BornInv(d.table.born[d.table.ports[f.value].id]); }
    if AddMapping(d.table, s.local, s.client, s.noMap, s.bind, s.alloc, s.answered).1 == AddDone {
      assert Takes(d, s, id);
    }
  }

  /** A mapping record leads to a new entry, or is known, because there is an entry with both its
      addresses, or is refused. */
  lemma MapInfoOutcomes(d: Daemon, s: Step)
    requires s.MapInfoStep? && TableInv(d.table)
    ensures var outcome := MapInfo(d.table, s.local, s.mapped, s.client, s.noMap, s.bind, s.alloc).1;
            && (outcome == InfoLinked <==> Takes(d, s, |d.table.born|))
            && (outcome == InfoKnown <==>
                  exists i :: 0 <= i < |d.table.ports| && SameSockAddr(d.table.ports[i].local, s.local)
                              && SameSockAddr(d.table.ports[i].mapped, s.mapped))
  {
    var f := FindMapping(d.table.ports, s.local, true);
    forall i | 0 <= i < |d.table.ports| && SameSockAddr(d.table.ports[i].local, s.local)
      ensures f.Some? && (!IsWildcard(s.local) ==> f.value == i)
    {
      SameIsPartialEquivalence(s.local, d.table.ports[i].local, s.local);
      assert Hit(s.local, d.table.ports[i], true);
      if !IsWildcard(s.local) { HitIsUnique(d.table, s.local, i, f.value); }
    }
  }

  /** A query is reported started exactly if it was. */
  lemma QueryOutcomes(d: Daemon, s: Step)
    requires s.QueryStep? && Enabled(d, s) && TableInv(d.table)
    ensures var outcome := QueryMapping(d, s.local, s.remote, s.client, s.nl, s.noMap, s.bind, s.alloc, s.allocReq,
                                        s.to, s.handle, s.stack, s.queued).1;
            outcome == QueryStarted <==> CanStart(d, s)
  {
  }

  // ------------------------------------------------------------ where entries come from

  /** The entry that a step which links one is for: its address, its owner, and the address it is
      mapped to, which has the port that was bound, or the given one if the client wants none. */
  ghost predicate LinkedFor(e: PortEntry, s: Step) {
    match s
    case AddStep(local, client, noMap, bind, _, _) => EntryFor(e, local, local, client, noMap, bind)
    case QueryStep(local, _, client, _, noMap, bind, _, _, _, _, _, _) =>
      EntryFor(e, local, local, client, noMap, bind)
    case MapInfoStep(local, mapped, client, noMap, bind, _) => EntryFor(e, local, mapped, client, noMap, bind)
    case _ => false
  }

  ghost predicate EntryFor(e: PortEntry, local: SockAddr, mapped: SockAddr, client: nat, noMap: bool,
                           bind: Option<Half>)
  {
    && e.owner == client && e.local == local && e.mapped.(port := mapped.port) == mapped
    && (if noMap then e.mapped.port == mapped.port else bind == Some(e.mapped.port))
    && (e.wcard <==> IsWildcard(local))
  }

  /** A step that takes an entry no one has had links it for its own address and client. */
  lemma NewEntryIsFor(d: Daemon, s: Step)
    requires Enabled(d, s) && TableInv(d.table) && Takes(d, s, |d.table.born|)
    ensures var t := Next(d, s).table;
            && t.born == d.table.born + [t.born[|d.table.born|]] && LinkedFor(t.born[|d.table.born|], s)
            && t.ports == [t.born[|d.table.born|]] + d.table.ports
  {
  }

  /** A mapping record for a free address, whose port the host gives back, restores the mapping: an
      entry at the head of the list with both its addresses. */
  lemma RecordIsRestored(d: Daemon, s: Step)
    requires s.MapInfoStep? && TableInv(d.table) && Takes(d, s, |d.table.born|)
    requires s.noMap || s.bind == Some(s.mapped.port)
    ensures var ports := Next(d, s).table.ports;
            && |ports| == |d.table.ports| + 1 && ports[1..] == d.table.ports
            && ports[0].local == s.local && ports[0].mapped == s.mapped && ports[0].owner == s.client
  {
    NewEntryIsFor(d, s);
  }

  lemma OtherwiseNoneIsBorn(d: Daemon, s: Step)
    requires Enabled(d, s) && TableInv(d.table) && !Takes(d, s, |d.table.born|)
    ensures Next(d, s).table.born == d.table.born
  {
  }

  /** An entry after a step was there before, or is the new one of that step. */
  lemma BornBeforeOrNow(d: Daemon, s: Step, born: seq<PortEntry>, id: nat)
    requires Enabled(d, s) && TableInv(d.table) && born == Next(d, s).table.born && id < |born|
    ensures if id < |d.table.born| then born[id] == d.table.born[id]
            else id == |d.table.born| && Takes(d, s, id) && LinkedFor(born[id], s)
  {
    if Takes(d, s, |d.table.born|) { NewEntryIsFor(d, s); } else { OtherwiseNoneIsBorn(d, s); }
  }

  /** In every run, every entry there has been was linked by a step that asked for it. */
  lemma {:induction false} EntryHasItsStep(states: seq<Daemon>, steps: seq<Step>, n: nat, id: nat) returns (k: nat)
    requires IsRun(states, steps) && n <= |steps| && id < |states[n].table.born|
    ensures k < n && id == |states[k].table.born| && Takes(states[k], steps[k], id)
    ensures LinkedFor(states[n].table.born[id], steps[k])
  {
    k := n - 1;
    RunKeeps(states, steps, k);
    BornBeforeOrNow(states[k], steps[k], states[k + 1].table.born, id);
    if id < |states[k].table.born| { k := EntryHasItsStep(states, steps, k, id); }
  }
}
