/** The daemon's handlers as they run: searches are loops over the lists, counts go up and
    come down again on error paths, and the timer pass deletes from the list it walks. Each
    is proved to have the effect module Daemons gives it. */
module Server {
  import opened Options
  import opened Seqs
  import opened SockAddrs
  import opened WireMsgs
  import opened PortTables
  import opened MapRequests
  import opened Daemons

  class Iwpmd {
    var ports: seq<PortEntry>
    var reqs: seq<MapReq>
    var pending: seq<SendMsg>
    var reports: seq<Report>
    ghost var born: seq<PortEntry>
    ghost var history: multiset<PortEvent>
    ghost var issued: map<Handle, QueryRec>
    /** The number the next linked entry gets. */
    var nextId: nat

    ghost function State(): Daemon
      reads this
    {
      Daemon(Table(ports, born, history), reqs, pending, reports, issued)
    }

    /** Numbers are handed out in order. */
    ghost predicate Numbered()
      reads this
    {
      nextId == |born|
    }

    /** What a handler relies on: every linked entry is owned. */
    ghost predicate Ready()
      reads this
    {
      Numbered() && forall i :: 0 <= i < |ports| ==> ports[i].refs >= 1
    }

    /** What holds in every state the daemon can reach holds of this one. */
    ghost predicate Valid()
      reads this
    {
      Numbered() && DaemonInv(State())
    }

    constructor ()
      ensures Valid() && State() == INIT
    {
      ports, reqs, pending, reports := [], [], [], [];
      born, history, issued, nextId := [], multiset{}, map[], 0;
    }

    // ---------------------------------------------------------- helpers

    /** find_iwpm_mapping. */
    method FindIwpmMapping(s: SockAddr, notMapped: bool) returns (r: Option<nat>)
      ensures r == FindMapping(ports, s, notMapped)
    {
      for i := 0 to |ports|
        invariant forall j :: 0 <= j < i ==> !Hit(s, ports[j], notMapped)
      {
        if Hit(s, ports[i], notMapped) {
          return Some(i);
        }
      }
      return None;
    }

    /** find_iwpm_same_mapping. */
    method FindIwpmSameMapping(s: SockAddr) returns (r: Option<nat>)
      ensures r == FindSame(ports, s)
    {
      for i := 0 to |ports|
        invariant forall j :: 0 <= j < i ==> !SameSockAddr(s, ports[j].local)
      {
        if SameSockAddr(s, ports[i].local) {
          return Some(i);
        }
      }
      return None;
    }

    /** update_iwpm_map_request: the copy is taken before the update. */
    method UpdateIwpmMapRequest(handle: Handle, src: SockAddr, kinds: set<Kind>, update: bool)
      returns (copy: Option<MapReq>)
      modifies this`reqs
      ensures reqs == if update then Service(old(reqs), handle, kinds, src) else old(reqs)
      ensures copy == match FindReq(old(reqs), handle, kinds, src) case None => None case Some(k) => Some(old(reqs)[k])
    {
      for i := 0 to |reqs|
        invariant reqs == old(reqs)
        invariant forall j :: 0 <= j < i ==> !Matches(reqs[j], handle, kinds, src)
      {
        if Matches(reqs[i], handle, kinds, src) {
          copy := Some(reqs[i]);
          if update && !reqs[i].complete {
            if reqs[i].kind == Ack {
              reqs := reqs[i := reqs[i].(timeout := MAP_REQ_TIMEOUT, complete := false)];
            } else {
              reqs := reqs[i := reqs[i].(timeout := 0, complete := true)];
            }
          }
          return;
        }
      }
      return None;
    }

    /** send_iwpm_msg. */
    method SendIwpmMsg(queued: bool, m: SendMsg) returns (ok: bool)
      modifies this`pending
      ensures ok == queued && pending == Push(old(pending), queued, m)
    {
      if queued { pending := [m] + pending; }
      return queued;
    }

    /** Take an owner off the entry at `at`, or drop a new entry that was never linked. */
    method DropOwner(at: Option<nat>)
      requires at.Some? ==> at.value < |ports| && ports[at.value].refs > 1
      modifies this`ports
      ensures ports == if at.None? then old(ports)
                       else old(ports)[at.value := old(ports)[at.value].(refs := old(ports)[at.value].refs - 1)]
    {
      if at.Some? {
        var e := ports[at.value];
        ports := ports[at.value := e.(refs := e.refs - 1)];
      }
    }

    // ---------------------------------------------------------- client requests

    /** process_iwpm_add_mapping: the count is raised before the answer is sent and lowered
        again if it cannot be. */
    method ProcessAddMapping(local: SockAddr, client: nat, noMap: bool, bind: Option<Half>, alloc: bool, answered: bool)
      returns (outcome: AddOutcome)
      requires Ready()
      modifies this
      ensures Numbered()
      ensures (State().table, outcome) ==
                AddMapping(old(State()).table, local, client, noMap, bind, alloc, answered)
      ensures State() == old(State()).(table := State().table)
    {
      var at := FindIwpmMapping(local, true);
      var e: PortEntry;
      if at.Some? {
        e := ports[at.value];
        if SameSockAddr(local, e.local) && e.wcard {
          e := e.(refs := e.refs + 1);
          ports := ports[at.value := e];
        } else {
          return AddDuplicate;
        }
      } else {
        var c := Create(local, client, noMap, bind, alloc);
        if c.None? { return AddNotCreated; }
        e := c.value;
      }
      if !answered {
        DropOwner(at);
        assert at.Some? ==> ports == old(ports);
        return AddNotAnswered;
      }
      var _ := AddIwpmMappedPort(e);
      return AddDone;
    }

    /** add_iwpm_mapped_port: an entry with more than one owner is on the list already. */
    method AddIwpmMappedPort(e: PortEntry) returns (id: nat)
      requires Numbered()
      modifies this`ports, this`born, this`history, this`nextId
      ensures Numbered()
      ensures e.refs > 1 ==>
                && id == e.id && ports == old(ports) && born == old(born)
                && history == old(history) + multiset{Reused(e.id)}
      ensures e.refs <= 1 ==>
                && id == |old(born)|
                && Table(ports, born, history) == Link(Table(old(ports), old(born), old(history)), e)
    {
      if e.refs > 1 {
        history := history + multiset{Reused(e.id)};
        return e.id;
      }
      id := nextId;
      ports := [e.(id := id)] + ports;
      born := born + [e.(id := id)];
      nextId := nextId + 1;
    }

    /** process_iwpm_query_mapping. */
    method ProcessQueryMapping(local: SockAddr, remote: SockAddr, client: nat, nl: NlHeader, noMap: bool,
                               bind: Option<Half>, alloc: bool, allocReq: bool, to: nat, handle: Handle, stack: Parms,
                               queued: bool) returns (outcome: QueryOutcome)
      requires Ready()
      modifies this
      ensures Numbered()
      ensures (State(), outcome) ==
                QueryMapping(old(State()), local, remote, client, nl, noMap, bind, alloc, allocReq, to, handle, stack,
                             queued)
    {
      var at := FindIwpmMapping(local, true);
      var e: PortEntry;
      if at.Some? {
        e := ports[at.value].(refs := ports[at.value].refs + 1);
        ports := ports[at.value := e];
      } else {
        var c := Create(local, client, noMap, bind, alloc);
        if c.None? { return QueryNotCreated; }
        e := c.value;
      }
      if e.wcard || !IsInet(remote.family) || !allocReq {
        DropOwner(at);
        assert at.Some? ==> ports == old(ports);
        outcome := if e.wcard then QueryWildcard else if !IsInet(remote.family) then QueryBadFamily else QueryNoMemory;
        return;
      }
      outcome := QueryStarted;
      var id := AddIwpmMappedPort(e);
      var msg := SendMsg(to, QueryParms(local, remote, e.mapped, handle, stack), id);
      TrackQuery(msg, e.local, remote, nl, handle);
      var _ := SendIwpmMsg(queued, msg);
      assert (Table(ports, born, history), id) == QueryTable(old(State()), local, e);
    }

    /** create_iwpm_map_request and add_iwpm_map_request for a query. */
    method TrackQuery(msg: SendMsg, src: SockAddr, remote: SockAddr, nl: NlHeader, handle: Handle)
      modifies this`reqs, this`issued
      ensures reqs == [MapReq(Query, handle, src, remote, nl, Some(msg), MAP_REQ_TIMEOUT, false)] + old(reqs)
      ensures issued == old(issued)[handle := QueryRec(msg.port, msg.to, msg.parms, src, remote, nl)]
    {
      reqs := [MapReq(Query, handle, src, remote, nl, Some(msg), MAP_REQ_TIMEOUT, false)] + reqs;
      issued := issued[handle := QueryRec(msg.port, msg.to, msg.parms, src, remote, nl)];
    }

    /** process_iwpm_remove_mapping. */
    method ProcessRemoveMapping(local: SockAddr, client: nat)
      requires Ready()
      modifies this
      ensures Numbered()
      ensures State() == old(State()).(table := RemoveMapping(old(State()).table, local, client))
    {
      var at := FindIwpmSameMapping(local);
      if at.None? { return; }
      var i := at.value;
      if ports[i].owner != client { return; }
      var before := ports[i].refs;
      var id := ports[i].id;
      ports := ports[i := ports[i].(refs := before - 1)];
      if before == 1 {
        ports := ports[..i] + ports[i + 1..];
        history := history + multiset{Released(id), Freed(id)};
      } else {
        history := history + multiset{Released(id)};
      }
    }

    /** process_iwpm_mapinfo. */
    method ProcessMapInfo(local: SockAddr, mapped: SockAddr, client: nat, noMap: bool, bind: Option<Half>, alloc: bool)
      returns (outcome: InfoOutcome)
      requires Ready()
      modifies this
      ensures Numbered()
      ensures (State().table, outcome) == MapInfo(old(State()).table, local, mapped, client, noMap, bind, alloc)
      ensures State() == old(State()).(table := State().table)
    {
      var at := FindIwpmMapping(local, true);
      if at.Some? {
        var e := ports[at.value];
        return if SameSockAddr(e.local, local) && SameSockAddr(e.mapped, mapped) then InfoKnown else InfoDuplicate;
      }
      var c := Reopen(local, mapped, client, noMap, bind, alloc);
      if c.None? { return InfoNotCreated; }
      var _ := AddIwpmMappedPort(c.value);
      return InfoLinked;
    }

    // ---------------------------------------------------------- wire messages

    /** process_iwpm_wire_request. */
    method ProcessWireRequest(from: nat, parms: Parms, alloc: bool, own: Handle, queued: bool, answered: bool)
      requires Ready() && Family(parms.ipVer).Some?
      modifies this
      ensures Numbered()
      ensures State() == WireRequest(old(State()), from, parms, alloc, own, queued, answered)
    {
      var at := FindIwpmMapping(Unpack(Family(parms.ipVer).value, parms.apIp, parms.apPort), true);
      if at.None? {
        var _ := SendIwpmMsg(queued, SendMsg(from, parms.(mt := MT_REJ), 0));
      } else {
        AcceptWireRequest(from, parms, ports[at.value], alloc, own, queued, answered);
      }
    }

    /** process_iwpm_wire_request once an entry is found. */
    method AcceptWireRequest(from: nat, parms: Parms, e: PortEntry, alloc: bool, own: Handle, queued: bool,
                             answered: bool)
      requires Family(parms.ipVer).Some?
      modifies this`reqs, this`pending, this`reports
      ensures State() == AnswerRequest(old(State()), from, parms, e, alloc, own, queued, answered)
    {
      var m := MappedParms(parms, e);
      var mappedLocal := Unpack(Family(parms.ipVer).value, m.apIp, m.apPort);
      var copy := UpdateIwpmMapRequest(m.handle, mappedLocal, {Accept}, false);
      if copy.Some? || !alloc { return; }
      TrackAccept(from, parms, SendMsg(from, m.(mt := MT_ACC), e.id), e, own, queued, answered);
    }

    /** The accepting address replaced by its mapping. */
    method MappedParms(parms: Parms, e: PortEntry) returns (m: Parms)
      requires Family(parms.ipVer).Some?
      ensures m.(mt := MT_ACC) == AcceptParms(parms, e)
    {
      m := parms;
      if e.wcard {
        m := m.(apPort := GetPort(e.mapped));
      } else {
        m := m.(apIp := PackIp(Family(m.ipVer).value, e.mapped, m.apIp), apPort := e.mapped.port);
      }
    }

    /** The second half of process_iwpm_wire_request: track the accept, queue it, tell the client. */
    method TrackAccept(from: nat, m: Parms, acc: SendMsg, e: PortEntry, own: Handle, queued: bool, answered: bool)
      requires Family(m.ipVer).Some? && acc.parms.ipVer == m.ipVer
      modifies this`reqs, this`pending, this`reports
      ensures reqs == [AcceptReq(m, acc, own)] + old(reqs) && pending == Push(old(pending), queued, acc)
      ensures reports == if queued && answered then old(reports) + [RemoteInfoReport(m, from, e)] else old(reports)
    {
      var family := Family(m.ipVer).value;
      var mappedLocal := Unpack(family, acc.parms.apIp, acc.parms.apPort);
      var remote := Unpack(family, m.cpIp, m.cpPort);
      var mappedRemote := Unpack(family, m.mappedIp, m.mappedPort);
      reqs := [MapReq(Accept, if m.handle == NULL_HANDLE then own else m.handle, mappedLocal, remote, NO_NL,
                      Some(acc), MAP_REQ_TIMEOUT, false)] + reqs;
      var ok := SendIwpmMsg(queued, acc);
      if ok && answered {
        reports := reports + [Report(RemoteInfo, m.handle, from, e.id, 0, e.owner, NO_NL,
                                     e.local, remote, e.mapped, mappedRemote)];
      }
    }

    /** process_iwpm_wire_accept. */
    method ProcessWireAccept(from: nat, m: Parms, tag: nat, answered: bool, alloc: bool, queued: bool)
      requires Ready() && Family(m.ipVer).Some?
      modifies this
      ensures Numbered()
      ensures State() == WireAccept(old(State()), from, m, tag, answered, alloc, queued)
    {
      var at := FindIwpmSameMapping(Unpack(Family(m.ipVer).value, m.cpIp, m.cpPort));
      if at.None? { return; }
      var e := ports[at.value];
      var copy := UpdateIwpmMapRequest(m.handle, e.local, {Query, Ack}, true);
      if copy.None? || copy.value.complete { return; }
      var ack := true;
      if copy.value.kind != Ack {
        ack := TellAccepted(from, m, tag, e, copy.value, answered, alloc);
      }
      if ack {
        var _ := SendIwpmMsg(queued, SendMsg(from, m.(mt := MT_ACK), 0));
      }
    }

    /** The middle of process_iwpm_wire_accept: tell the client, track the ack. */
    method TellAccepted(from: nat, m: Parms, tag: nat, e: PortEntry, r: MapReq, answered: bool, alloc: bool)
      returns (ack: bool)
      requires Family(m.ipVer).Some?
      modifies this`reqs, this`reports
      ensures ack == (answered && alloc)
      ensures reports == if answered then old(reports) + [AcceptedReport(m, from, tag, e, r)] else old(reports)
      ensures reqs == if ack then [AckReq(r)] + old(reqs) else old(reqs)
    {
      if !answered { return false; }
      var remoteMapped := Unpack(Family(m.ipVer).value, m.apIp, m.apPort);
      reports := reports + [Report(Accepted, r.handle, from, e.id, tag, e.owner, r.nl,
                                   e.local, r.remote, e.mapped, remoteMapped)];
      if !alloc { return false; }
      reqs := [MapReq(Ack, r.handle, r.src, r.remote, NO_NL, None, MAP_REQ_TIMEOUT, false)] + reqs;
      return true;
    }

    /** process_iwpm_wire_reject. */
    method ProcessWireReject(from: nat, m: Parms, answered: bool)
      requires Ready() && Family(m.ipVer).Some?
      modifies this
      ensures Numbered()
      ensures State() == WireReject(old(State()), from, m, answered)
    {
      var at := FindIwpmSameMapping(Unpack(Family(m.ipVer).value, m.cpIp, m.cpPort));
      if at.None? { return; }
      var e := ports[at.value];
      var copy := UpdateIwpmMapRequest(m.handle, e.local, {Query}, true);
      if copy.None? || copy.value.complete { return; }
      var r := copy.value;
      if answered {
        reports := reports + [Report(Rejected, r.handle, from, e.id, 0, e.owner, r.nl,
                                     e.local, r.remote, e.mapped, r.remote)];
      }
    }

    /** process_iwpm_wire_ack. */
    method ProcessWireAck(m: Parms)
      requires Ready() && Family(m.ipVer).Some?
      modifies this
      ensures Numbered()
      ensures State() == WireAck(old(State()), m)
    {
      var mappedLocal := Unpack(Family(m.ipVer).value, m.apIp, m.apPort);
      var at := FindIwpmMapping(mappedLocal, false);
      if at.None? { return; }
      var _ := UpdateIwpmMapRequest(m.handle, mappedLocal, {Accept}, true);
    }

    // ---------------------------------------------------------- the timer thread

    /** One pass of iwpm_mapping_reqs_handler, deleting from the list while walking it. */
    method TimerPass(failed: set<nat>)
      requires Numbered() && Sendable(reqs)
      modifies this`reqs, this`pending
      ensures Numbered()
      ensures State() == old(State()).(reqs := Pass(old(reqs)), pending := Resend(old(reqs), old(pending), failed))
    {
      ghost var done, queue := Pass(reqs), Resend(reqs, pending, failed);
      var walked, rest := [], reqs;
      var i := 0;
      WalkFirst(reqs, pending, failed);
      NoneAdded(reqs);
      while rest != []
        invariant Walking(done, queue, failed, i, walked, rest, pending)
        invariant reqs == walked + rest && Sendable(rest)
        decreases |rest|
      {
        var r, others := rest[0], rest[1..];
        assert rest == [r] + others;
        WalkNext(done, queue, failed, i, walked, r, others, pending);
        walked := VisitReq(r, i, failed, walked, others);
        rest, i := others, i + 1;
      }
      WalkLast(done, queue, failed, i, walked, pending);
    }

    /** What the pass does with one request: send its message again if it is due, take a second
        off it, or delete it. `walked` and `rest` are the list before and after it. */
    method VisitReq(r: MapReq, at: nat, failed: set<nat>, walked: seq<MapReq>, rest: seq<MapReq>)
      returns (kept: seq<MapReq>)
      requires r.kind != Ack ==> r.msg.Some?
      modifies this`reqs, this`pending
      ensures kept == walked + ToSeq(Tick(r)) && reqs == kept + rest
      ensures pending == Requeues(r, at, failed) + old(pending)
    {
      kept := walked;
      if r.timeout > 0 {
        if r.timeout < MAP_REQ_TIMEOUT && r.kind != Ack && at !in failed {
          pending := [r.msg.value] + pending;
        }
        kept := walked + [r.(timeout := r.timeout - 1)];
      }
      reqs := kept + rest;
    }

    // ---------------------------------------------------------- the daemon

    /** The request of process_iwpm_netlink_msg to its handler. */
    method HandleRequest(s: Step)
      requires Ready() && Enabled(State(), s) && IsRequest(s)
      modifies this
      ensures Numbered() && State() == Next(old(State()), s)
    {
      match s
      case AddStep(local, client, noMap, bind, alloc, answered) =>
        var _ := ProcessAddMapping(local, client, noMap, bind, alloc, answered);
      case QueryStep(local, remote, client, nl, noMap, bind, alloc, allocReq, to, handle, stack, queued) =>
        var _ := ProcessQueryMapping(local, remote, client, nl, noMap, bind, alloc, allocReq, to, handle, stack,
                                     queued);
      case RemoveStep(local, client) => ProcessRemoveMapping(local, client);
      case MapInfoStep(local, mapped, client, noMap, bind, alloc) =>
        var _ := ProcessMapInfo(local, mapped, client, noMap, bind, alloc);
    }

    /** The message of process_iwpm_msg to its handler. */
    method HandleWire(m: Parms, from: nat, tag: nat, host: HostSays)
      requires Ready() && Family(m.ipVer).Some?
      modifies this
      ensures Numbered() && State() == Next(old(State()), WireStep(m, from, tag, host))
    {
      if m.mt == MT_REQ {
        ProcessWireRequest(from, m, host.alloc, host.own, host.queued, host.answered);
      } else if m.mt == MT_ACK {
        ProcessWireAck(m);
      } else if m.mt == MT_ACC {
        ProcessWireAccept(from, m, tag, host.answered, host.alloc, host.queued);
      } else {
        ProcessWireReject(from, m, host.answered);
      }
    }

    /** process_iwpm_netlink_msg: whatever the client asks, the daemon makes the specified step and
        stays valid. */
    method ProcessIwpmNetlinkMsg(s: Step)
      requires Valid() && Enabled(State(), s) && IsRequest(s)
      modifies this
      ensures Valid() && State() == Next(old(State()), s)
    {
      InvIsReady(State());
      HandleRequest(s);
      StepKeeps(old(State()), s);
    }

    /** A wire message whose IP version is known. */
    method ProcessParms(m: Parms, from: nat, tag: nat, host: HostSays)
      requires Valid() && Family(m.ipVer).Some?
      modifies this
      ensures Valid() && State() == Next(old(State()), WireStep(m, from, tag, host))
    {
      InvIsReady(State());
      HandleWire(m, from, tag, host);
      StepKeeps(old(State()), WireStep(m, from, tag, host));
    }

    /** process_iwpm_msg: whatever bytes arrive, the daemon ignores them or makes the step of the
        message they hold, and stays valid. */
    method ProcessIwpmMsg(bytes: seq<Byte>, rest: seq<Byte>, stale: Parms, from: nat, tag: nat, host: HostSays)
      requires Valid() && |rest| == REQUEST_SIZE - MESSAGE_SIZE
      modifies this
      ensures Valid()
      ensures Receive(bytes, rest, stale).None? ==> State() == old(State())
      ensures Receive(bytes, rest, stale).Some? ==>
                && Family(Receive(bytes, rest, stale).value.ipVer).Some?
                && State() == Next(old(State()), WireStep(Receive(bytes, rest, stale).value, from, tag, host))
    {
      var m := Receive(bytes, rest, stale);
      if m.Some? {
        ReceivedIsKnown(bytes, rest, stale);
        ProcessParms(m.value, from, tag, host);
      }
    }

    /** iwpm_mapping_reqs_handler, one round of its inner loop. */
    method MappingReqsHandler(failed: set<nat>)
      requires Valid()
      modifies this
      ensures Valid() && State() == Next(old(State()), TimerStep(failed))
    {
      InvIsReady(State());
      TimerPass(failed);
      StepKeeps(old(State()), TimerStep(failed));
    }

    /** iwpm_pending_msgs_handler takes the next message. */
    method PopPending() returns (m: SendMsg)
      requires Valid() && pending != []
      modifies this
      ensures Valid() && State() == Next(old(State()), SendStep) && m == old(pending)[0]
    {
      m := pending[0];
      pending := pending[1..];
      StepKeeps(old(State()), SendStep);
    }

    /** What is true of a valid daemon: no query has two verdicts, every linked entry has as many
        owners as were counted, and no two entries can answer one search. */
    lemma ValidMeans(i: nat, j: nat)
      requires Valid()
      ensures i < j < |reports| && IsVerdict(reports[i]) && IsVerdict(reports[j]) ==>
                reports[i].handle != reports[j].handle
      ensures i < |ports| ==>
                ports[i].refs >= 1 && ports[i].refs + history[Released(ports[i].id)] == 1 + history[Reused(ports[i].id)]
      ensures i < j < |ports| ==> Apart(ports[i], ports[j])
    {
      assert i < |ports| ==> RefsInv(State().table.ports[i], State().table.history);
    }
  }

  /** What the host decides while a wire message is handled. */
  datatype HostSays = HostSays(alloc: bool, own: Handle, queued: bool, answered: bool)

  /** The step a wire message leads to. */
  function WireStep(m: Parms, from: nat, tag: nat, host: HostSays): Step {
    if m.mt == MT_REQ then RequestStep(from, m, host.alloc, host.own, host.queued, host.answered)
    else if m.mt == MT_ACK then AckStep(from, m)
    else if m.mt == MT_ACC then AcceptStep(from, m, tag, host.answered, host.alloc, host.queued)
    else RejectStep(from, m, host.answered)
  }

  predicate IsRequest(s: Step) { s.AddStep? || s.QueryStep? || s.RemoveStep? || s.MapInfoStep? }

  lemma ReceivedIsKnown(bytes: seq<Byte>, rest: seq<Byte>, stale: Parms)
    requires |rest| == REQUEST_SIZE - MESSAGE_SIZE && Receive(bytes, rest, stale).Some?
    ensures Family(Receive(bytes, rest, stale).value.ipVer).Some?
  {
  }

  /** The invariant gives the handlers what they rely on. */
  lemma InvIsReady(d: Daemon)
    requires DaemonInv(d)
    ensures forall i :: 0 <= i < |d.table.ports| ==> d.table.ports[i].refs >= 1
    ensures Sendable(d.reqs)
  {
    forall i | 0 <= i < |d.table.ports| ensures d.table.ports[i].refs >= 1 {
      assert RefsInv(d.table.ports[i], d.table.history);
    }
    forall i | 0 <= i < |d.reqs| && d.reqs[i].kind != Ack ensures d.reqs[i].msg.Some? {
      assert ReqInv(d.reqs[i], d.issued);
    }
  }

  /** Every tracked query and accept keeps a message to send again. */
  ghost predicate Sendable(reqs: seq<MapReq>) {
    forall i :: 0 <= i < |reqs| && reqs[i].kind != Ack ==> reqs[i].msg.Some?
  }

  /** The pass stands at position `i` before `rest`: with what it has yet to do, the list will be
      `done` and the queue `queue`. */
  ghost predicate Walking(done: seq<MapReq>, queue: seq<SendMsg>, failed: set<nat>, i: nat, walked: seq<MapReq>,
                          rest: seq<MapReq>, pending: seq<SendMsg>)
  {
    done == walked + Pass(rest) && queue == Requeued(rest, i, failed) + pending
  }

  lemma WalkFirst(reqs: seq<MapReq>, pending: seq<SendMsg>, failed: set<nat>)
    ensures Walking(Pass(reqs), Resend(reqs, pending, failed), failed, 0, [], reqs, pending)
  {
    ResendAdds(reqs, pending, failed);
    NoneAdded(Pass(reqs));
  }

  lemma WalkNext(done: seq<MapReq>, queue: seq<SendMsg>, failed: set<nat>, i: nat, walked: seq<MapReq>,
                 r: MapReq, rest: seq<MapReq>, pending: seq<SendMsg>)
    requires Walking(done, queue, failed, i, walked, [r] + rest, pending)
    ensures Walking(done, queue, failed, i + 1, walked + ToSeq(Tick(r)), rest, Requeues(r, i, failed) + pending)
  {
    PassAppend([r], rest);
    PassSnoc([], r);
    NoneAdded(ToSeq(Tick(r)));
    Assoc(walked, ToSeq(Tick(r)), Pass(rest));
    RequeuedAppend([r], rest, i, failed);
    RequeuedNext([], r, i, failed);
    NoneAdded(Requeues(r, i, failed));
    NoneAdded([r]);
    Assoc(Requeued(rest, i + 1, failed), Requeues(r, i, failed), pending);
  }

  lemma WalkLast(done: seq<MapReq>, queue: seq<SendMsg>, failed: set<nat>, i: nat, walked: seq<MapReq>,
                 pending: seq<SendMsg>)
    requires Walking(done, queue, failed, i, walked, [], pending)
    ensures walked + [] == done && pending == queue
  {
    NoneAdded(pending);
  }
}
