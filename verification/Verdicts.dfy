/** The answers clients wait for: when a reply to a query leads to its verdict, and a run in which
    a query is rejected. */
module Verdicts {
  import opened Options
  import opened SockAddrs
  import opened WireMsgs
  import opened PortTables
  import opened MapRequests
  import opened Daemons
  import opened Networks
  import opened RefCounts
  import opened Effects
  import opened Handshakes

  // ------------------------------------------------------------ acks come after verdicts

  ghost predicate WasAccepted(reports: seq<Report>, handle: Handle) {
    exists i :: 0 <= i < |reports| && reports[i].kind == Accepted && reports[i].handle == handle
  }

  /** A tracked ack is for a query that was reported accepted. */
  ghost predicate AcksAnswered(reqs: seq<MapReq>, reports: seq<Report>) {
    forall k :: 0 <= k < |reqs| && reqs[k].kind == Ack ==> WasAccepted(reports, reqs[k].handle)
  }

  /** No query and no other ack with its handle stands before a tracked ack. */
  ghost predicate AcksLead(reqs: seq<MapReq>) {
    forall j, k :: 0 <= j < k < |reqs| && reqs[k].kind == Ack && reqs[j].handle == reqs[k].handle ==>
      reqs[j].kind == Accept
  }

  ghost predicate AcksInv(d: Daemon) { AcksAnswered(d.reqs, d.reports) && AcksLead(d.reqs) }

  lemma AcceptedStays(was: seq<Report>, now: seq<Report>, handle: Handle)
    requires WasAccepted(was, handle) && was <= now
    ensures WasAccepted(now, handle)
  {
    var i :| 0 <= i < |was| && was[i].kind == Accepted && was[i].handle == handle;
    assert now[i] == was[i];
  }

  /** An open query has no verdict, so no ack of its handle is tracked. */
  lemma OpenHasNoAck(d: Daemon, k: nat, j: nat)
    requires DaemonInv(d) && AcksInv(d) && k < |d.reqs| && d.reqs[k].kind == Query && !d.reqs[k].complete
    requires j < |d.reqs| && d.reqs[j].kind == Ack
    ensures d.reqs[j].handle != d.reqs[k].handle
  {
    var i :| 0 <= i < |d.reports| && d.reports[i].kind == Accepted && d.reports[i].handle == d.reqs[j].handle;
    assert ClosedBy(d.reqs[k], d.reports[i]);
  }

  lemma {:induction false} PassAcksLead(reqs: seq<MapReq>)
    requires AcksLead(reqs)
    ensures AcksLead(Pass(reqs))
  {
    if reqs != [] {
      var last := |reqs| - 1;
      var p := Pass(reqs[..last]);
      PassAcksLead(reqs[..last]);
      forall j | 0 <= j < |p| && reqs[last].kind == Ack && p[j].handle == reqs[last].handle
        ensures p[j].kind == Accept
      {
        var i := PassOrigin(reqs[..last], j);
        assert reqs[..last][i] == reqs[i];
      }
    }
  }

  lemma PassAcks(d: Daemon)
    requires AcksInv(d)
    ensures AcksInv(d.(reqs := Pass(d.reqs)))
  {
    PassAcksLead(d.reqs);
    forall k | 0 <= k < |Pass(d.reqs)| && Pass(d.reqs)[k].kind == Ack
      ensures WasAccepted(d.reports, Pass(d.reqs)[k].handle)
    {
      var j := PassOrigin(d.reqs, k);
    }
  }

  lemma QueryAcks(d: Daemon, s: Step)
    requires s.QueryStep? && Enabled(d, s) && DaemonInv(d) && AcksInv(d)
    ensures AcksInv(Next(d, s))
  {
    forall k | 0 <= k < |d.reqs| && d.reqs[k].kind == Ack ensures d.reqs[k].handle != s.handle {
      assert ReqInv(d.reqs[k], d.issued);
    }
  }

  lemma RequestAcks(d: Daemon, s: Step)
    requires s.RequestStep? && Enabled(d, s) && AcksInv(d)
    ensures AcksInv(Next(d, s))
  {
    forall handle | WasAccepted(d.reports, handle) ensures WasAccepted(Next(d, s).reports, handle) {
      AcceptedStays(d.reports, Next(d, s).reports, handle);
    }
  }

  lemma ServiceAcks(d: Daemon, handle: Handle, kinds: set<Kind>, src: SockAddr)
    requires AcksInv(d)
    ensures AcksInv(d.(reqs := Service(d.reqs, handle, kinds, src)))
  {
  }

  lemma ReportAcks(d: Daemon, rep: Report)
    requires AcksInv(d)
    ensures AcksInv(d.(reports := d.reports + [rep]))
    ensures rep.kind == Accepted ==> WasAccepted(d.reports + [rep], rep.handle)
  {
    forall k | 0 <= k < |d.reqs| && d.reqs[k].kind == Ack ensures WasAccepted(d.reports + [rep], d.reqs[k].handle) {
      AcceptedStays(d.reports, d.reports + [rep], d.reqs[k].handle);
    }
    assert (d.reports + [rep])[|d.reports|] == rep;
  }

  lemma PostAckAcks(d: Daemon, r: MapReq)
    requires AcksInv(d) && r.kind == Ack && WasAccepted(d.reports, r.handle)
    requires forall j :: 0 <= j < |d.reqs| && d.reqs[j].kind == Ack ==> d.reqs[j].handle != r.handle
    ensures AcksInv(d.(reqs := [r] + d.reqs))
  {
  }

  lemma AcceptAcks(d: Daemon, s: Step)
    requires s.AcceptStep? && Enabled(d, s) && DaemonInv(d) && AcksInv(d)
    ensures AcksInv(Next(d, s))
  {
    var f := FindSame(d.table.ports, CpAddr(s.m));
    if f.Some? {
      var e := d.table.ports[f.value];
      var g := FindReq(d.reqs, s.m.handle, {Query, Ack}, e.local);
      if g.Some? {
        var r := d.reqs[g.value];
        var d1 := d.(reqs := Service(d.reqs, s.m.handle, {Query, Ack}, e.local));
        ServiceAcks(d, s.m.handle, {Query, Ack}, e.local);
        if !r.complete && r.kind == Query {
          forall j | 0 <= j < |d.reqs| && d.reqs[j].kind == Ack ensures d.reqs[j].handle != r.handle {
            OpenHasNoAck(d, g.value, j);
          }
          var rep := AcceptedReport(s.m, s.from, s.tag, e, r);
          ReportAcks(d1, rep);
          PostAckAcks(d1.(reports := d1.reports + [rep]), AckReq(r));
        }
      }
    }
  }

  lemma RejectAcks(d: Daemon, s: Step)
    requires s.RejectStep? && Enabled(d, s) && AcksInv(d)
    ensures AcksInv(Next(d, s))
  {
    var f := FindSame(d.table.ports, CpAddr(s.m));
    if f.Some? {
      var e := d.table.ports[f.value];
      var g := FindReq(d.reqs, s.m.handle, {Query}, e.local);
      if g.Some? {
        ServiceAcks(d, s.m.handle, {Query}, e.local);
        var d1 := d.(reqs := Service(d.reqs, s.m.handle, {Query}, e.local));
        ReportAcks(d1, RejectedReport(s.from, e, d.reqs[g.value]));
      }
    }
  }

  lemma StepAcks(d: Daemon, s: Step)
    requires Enabled(d, s) && DaemonInv(d) && AcksInv(d)
    ensures AcksInv(Next(d, s))
  {
    match s
    case QueryStep(_, _, _, _, _, _, _, _, _, _, _, _) => QueryAcks(d, s);
    case RequestStep(_, _, _, _, _, _) => RequestAcks(d, s);
    case AcceptStep(_, _, _, _, _, _) => AcceptAcks(d, s);
    case RejectStep(_, _, _) => RejectAcks(d, s);
    case AckStep(_, m) => ServiceAcks(d, m.handle, {Accept}, ApAddr(m));
    case TimerStep(_) => PassAcks(d);
    case _ =>
  }

  ghost predicate AllAcks(w: World) {
    forall h :: 0 <= h < |w.hosts| ==> AcksInv(w.hosts[h])
  }

  lemma WorldStepAcks(w: World, s: WorldStep)
    requires WorldInv(w) && AllAcks(w) && CanStep(w, s)
    ensures AllAcks(WorldNext(w, s))
  {
    var h := if s.Local? then s.host else s.packet.to;
    assert GoodHost(w.hosts, h, w.hosts[h]);
    StepAcks(w.hosts[h], s.step);
  }

  lemma StartAcks(w: World)
    requires forall h :: 0 <= h < |w.hosts| ==> w.hosts[h] == INIT
    ensures AllAcks(w)
  {
  }

  lemma NextAcks(worlds: seq<World>, steps: seq<WorldStep>, n: nat)
    requires IsWorldRun(worlds, steps) && n < |steps| && AllAcks(worlds[n])
    ensures AllAcks(worlds[n + 1])
  {
    WorldRunKeeps(worlds, steps, n);
    WorldStepAcks(worlds[n], steps[n]);
  }

  lemma {:induction false} RunAcks(worlds: seq<World>, steps: seq<WorldStep>, n: nat)
    requires IsWorldRun(worlds, steps) && n <= |steps|
    ensures AllAcks(worlds[n])
  {
    if n == 0 {
      StartAcks(worlds[0]);
    } else {
      RunAcks(worlds, steps, n - 1);
      NextAcks(worlds, steps, n - 1);
    }
  }

  // ------------------------------------------------------------ every reply to an open query

  /** The query at `k` with this handle is open, and the entry it was started from still mapped. */
  ghost predicate Open(d: Daemon, handle: Handle, k: nat) {
    && k < |d.reqs| && d.reqs[k].kind == Query && d.reqs[k].handle == handle && !d.reqs[k].complete
    && handle in d.issued && StillMapped(d, d.issued[handle].port)
  }

  /** The query's message names the address it was started from, as the one to answer to. */
  ghost predicate Answerable(d: Daemon, handle: Handle) {
    && handle in d.issued
    && var q := d.issued[handle];
       Family(q.parms.ipVer).Some? && SameSockAddr(CpAddr(q.parms), q.src)
  }

  /** The client that asked has been told, in one report more, what became of its query. */
  ghost predicate GivesVerdict(d: Daemon, handle: Handle, kind: ReportKind, d': Daemon) {
    && |d'.reports| == |d.reports| + 1 && d'.reports[..|d.reports|] == d.reports
    && handle in d.issued
    && var r, q := d'.reports[|d.reports|], d.issued[handle];
       r.kind == kind && r.handle == handle && r.nl == q.nl && r.local == q.src && r.remote == q.remote
  }

  ghost predicate IsReply(s: Step) { (s.AcceptStep? || s.RejectStep?) && s.answered }

  lemma EntryOf(d: Daemon, handle: Handle) returns (i: nat)
    requires DaemonInv(d) && GoodQuery(d, handle) && StillMapped(d, d.issued[handle].port)
    ensures i < |d.table.ports| && d.table.ports[i].local == d.issued[handle].src
  {
    i :| 0 <= i < |d.table.ports| && d.table.ports[i].id == d.issued[handle].port;
    assert d.table.ports[i] == d.table.born[d.issued[handle].port].(refs := d.table.ports[i].refs);
  }

  lemma ReplyConcludes(d: Daemon, s: Step, k: nat)
    requires DaemonInv(d) && AcksInv(d) && IsReply(s) && Enabled(d, s)
    requires GoodQuery(d, s.m.handle) && Open(d, s.m.handle, k) && Answerable(d, s.m.handle)
    requires CpAddr(s.m) == CpAddr(d.issued[s.m.handle].parms)
    ensures GivesVerdict(d, s.m.handle, if s.AcceptStep? then Accepted else Rejected, Next(d, s))
  {
    var i := EntryOf(d, s.m.handle);
    var q := d.issued[s.m.handle];
    assert ReqInv(d.reqs[k], d.issued);
    SameIsPartialEquivalence(q.src, CpAddr(s.m), q.src);
    assert ReplyTo(d, s.m, i, k);
    if s.AcceptStep? {
      forall j | 0 <= j < |d.reqs| && d.reqs[j].kind == Ack ensures d.reqs[j].handle != s.m.handle {
        OpenHasNoAck(d, k, j);
      }
      AcceptIsReported(d, s, i, k);
    } else {
      RejectIsReported(d, s, i, k);
    }
  }

  /** A reply finds no request that was started from another address than it names. */
  lemma ReplyMisses(d: Daemon, s: Step)
    requires DaemonInv(d) && IsReply(s) && Enabled(d, s) && GoodQuery(d, s.m.handle)
    requires CpAddr(s.m) == CpAddr(d.issued[s.m.handle].parms) && !Answerable(d, s.m.handle)
    ensures Next(d, s) == d
  {
    var q := d.issued[s.m.handle];
    var f := FindSame(d.table.ports, CpAddr(s.m));
    if f.Some? {
      var e := d.table.ports[f.value];
      forall k | 0 <= k < |d.reqs| ensures !Matches(d.reqs[k], s.m.handle, {Query, Ack}, e.local) {
        assert ReqInv(d.reqs[k], d.issued);
        SameIsPartialEquivalence(CpAddr(s.m), e.local, q.src);
      }
    }
  }

  /** A reply carries the handle and the connecting address of a query of the host it reaches. */
  lemma ReplyCarries(w: World, ws: WorldStep)
    requires WorldInv(w) && ws.Deliver? && CanStep(w, ws) && (ws.step.AcceptStep? || ws.step.RejectStep?)
    ensures var d := w.hosts[ws.packet.to];
            && GoodQuery(d, ws.step.m.handle)
            && CpAddr(ws.step.m) == CpAddr(d.issued[ws.step.m.handle].parms)
  {
    var p := ws.packet;
    assert GoodMsg(w.hosts, p.from, p.to, p.parms, p.port);
    WhatArrives(p, ws.rest, ws.stale, ws.step);
    if ws.step.AcceptStep? {
      AcceptCarries(w.hosts[p.to].issued[p.parms.handle].parms, w.hosts[p.from].table.born[p.port], ws.step.m);
    }
  }

  lemma ArrivalConcludes(w: World, ws: WorldStep, k: nat)
    requires WorldInv(w) && AllAcks(w) && ws.Deliver? && CanStep(w, ws) && IsReply(ws.step)
    requires Open(w.hosts[ws.packet.to], ws.step.m.handle, k)
    ensures var d, s := w.hosts[ws.packet.to], ws.step;
            if Answerable(d, s.m.handle)
            then GivesVerdict(d, s.m.handle, if s.AcceptStep? then Accepted else Rejected, Next(d, s))
            else Next(d, s) == d
  {
    var d := w.hosts[ws.packet.to];
    assert GoodHost(w.hosts, ws.packet.to, d);
    ReplyCarries(w, ws);
    if Answerable(d, ws.step.m.handle) { ReplyConcludes(d, ws.step, k); } else { ReplyMisses(d, ws.step); }
  }

  /** In every run, an accept or reject that reaches its host while the query is open, the entry it
      was started from is mapped and the client can be told, leads to its verdict if the query's
      message names the address it was started from; if it does not, the reply changes nothing. */
  lemma ReplyLeadsToVerdict(worlds: seq<World>, steps: seq<WorldStep>, n: nat, k: nat)
    requires IsWorldRun(worlds, steps) && n < |steps| && steps[n].Deliver? && IsReply(steps[n].step)
    requires steps[n].packet.to < |worlds[n].hosts|
    requires Open(worlds[n].hosts[steps[n].packet.to], steps[n].step.m.handle, k)
    ensures |worlds[n + 1].hosts| == |worlds[n].hosts|
    ensures var d, d' := worlds[n].hosts[steps[n].packet.to], worlds[n + 1].hosts[steps[n].packet.to];
            var s := steps[n].step;
            if Answerable(d, s.m.handle)
            then GivesVerdict(d, s.m.handle, if s.AcceptStep? then Accepted else Rejected, d')
            else d' == d
  {
    WorldRunKeeps(worlds, steps, n);
    RunAcks(worlds, steps, n);
    ArrivalConcludes(worlds[n], steps[n], k);
  }

  /** A query that is started can be answered if and only if its two addresses are of one family;
      if its local address is a wildcard of that family it cannot be. */
  lemma AnswerableIff(d: Daemon, s: Step)
    requires s.QueryStep? && Enabled(d, s) && DaemonInv(d) && CanStart(d, s)
    ensures !IsWildcard(s.local) ==>
              (Answerable(Next(d, s), s.handle) <==> s.local.family == s.remote.family)
    ensures IsWildcard(s.local) && s.local.family == s.remote.family ==> !Answerable(Next(d, s), s.handle)
  {
    var f := FindMapping(d.table.ports, s.local, true);
    PackUnpack(s.remote.family, s.local, s.stack.cpIp);
    if f.Some? { assert BornInv(d.table.born[d.table.ports[f.value].id]); }
  }

  /** A query reported accepted could be answered. */
  lemma AcceptedWasAnswerable(hosts: seq<Daemon>, h: nat, handle: Handle)
    requires h < |hosts| && GoodHost(hosts, h, hosts[h]) && WasAccepted(hosts[h].reports, handle)
    ensures Answerable(hosts[h], handle)
  {
    var d := hosts[h];
    var i :| 0 <= i < |d.reports| && d.reports[i].kind == Accepted && d.reports[i].handle == handle;
    assert GoodReport(hosts, h, d.reports[i]);
    SameIsPartialEquivalence(CpAddr(d.issued[handle].parms), d.reports[i].local, d.issued[handle].src);
  }

  /** An ack of this handle is tracked at `k`, and the entry the query was started from still mapped. */
  ghost predicate AckTracked(d: Daemon, handle: Handle, k: nat) {
    && k < |d.reqs| && d.reqs[k].kind == Ack && d.reqs[k].handle == handle
    && handle in d.issued && StillMapped(d, d.issued[handle].port)
  }

  lemma RepetitionConcludes(w: World, ws: WorldStep, k: nat)
    requires WorldInv(w) && AllAcks(w) && ws.Deliver? && CanStep(w, ws) && ws.step.AcceptStep?
    requires AckTracked(w.hosts[ws.packet.to], ws.step.m.handle, k)
    ensures var d, s := w.hosts[ws.packet.to], ws.step;
            var d' := Next(d, s);
            && d' == d.(reqs := d.reqs[k := d.reqs[k].(timeout := 10)], pending := d'.pending)
            && AckGoesOut(d, s, d')
  {
    var h, d, s := ws.packet.to, w.hosts[ws.packet.to], ws.step;
    assert GoodHost(w.hosts, h, d);
    ReplyCarries(w, ws);
    AcceptedWasAnswerable(w.hosts, h, s.m.handle);
    var i := EntryOf(d, s.m.handle);
    assert ReqInv(d.reqs[k], d.issued);
    SameIsPartialEquivalence(d.issued[s.m.handle].src, CpAddr(s.m), d.issued[s.m.handle].src);
    RepeatedAcceptIsAcked(d, s, i, k);
  }

  /** In every run, an accept that comes again while its ack is tracked is acknowledged once more,
      the ack is tracked for its whole wait again, and nothing else changes. */
  lemma RepeatedAcceptInRun(worlds: seq<World>, steps: seq<WorldStep>, n: nat, k: nat)
    requires IsWorldRun(worlds, steps) && n < |steps| && steps[n].Deliver? && steps[n].step.AcceptStep?
    requires steps[n].packet.to < |worlds[n].hosts|
    requires AckTracked(worlds[n].hosts[steps[n].packet.to], steps[n].step.m.handle, k)
    ensures |worlds[n + 1].hosts| == |worlds[n].hosts| && Family(steps[n].step.m.ipVer).Some?
    ensures var d, d' := worlds[n].hosts[steps[n].packet.to], worlds[n + 1].hosts[steps[n].packet.to];
            && d' == d.(reqs := d.reqs[k := d.reqs[k].(timeout := 10)], pending := d'.pending)
            && AckGoesOut(d, steps[n].step, d')
  {
    WorldRunKeeps(worlds, steps, n);
    RunAcks(worlds, steps, n);
    RepetitionConcludes(worlds[n], steps[n], k);
  }

  // ------------------------------------------------------------ a query that is rejected

  /** The reject for a query of host 0, which host 1 sends when it has nothing mapped. */
  function Refusal(u: Setup): Parms
    requires Startable(u)
  {
    Request(u).(mt := MT_REJ)
  }

  function Refusing(u: Setup): Daemon
    requires Startable(u)
  {
    INIT.(pending := [SendMsg(0, Refusal(u), 0)])
  }

  function RefusalPacket(u: Setup): Packet
    requires Startable(u)
  {
    Packet(1, 0, Refusal(u), 0)
  }

  lemma ServerRefuses(u: Setup)
    requires Startable(u)
    ensures Encodable(Request(u)) && Request(u).mt == MT_REQ && Encodable(Refusal(u))
    ensures WireRequest(INIT, 0, Request(u), true, u.handle, true, true) == Refusing(u)
  {
  }

  lemma QueryIsOut(u: Setup)
    requires Startable(u)
    ensures Reachable(World([QuerySent(u), INIT], {} + {RequestPacket(u)}))
  {
    Start([INIT, INIT]);
    ClientAsks(u);
    Steps([INIT, INIT], {}, 0, Ask(u), Asking(u));
    Sends([Asking(u), INIT], {}, 0, SendMsg(1, Request(u), 0));
  }

  lemma QueryIsRefused(u: Setup)
    requires Startable(u)
    ensures Reachable(World([QuerySent(u), Refusing(u)], {} + {RequestPacket(u)}))
  {
    QueryIsOut(u);
    ServerRefuses(u);
    var step := RequestStep(0, Request(u), true, u.handle, true, true);
    Receives([QuerySent(u), INIT], {} + {RequestPacket(u)}, RequestPacket(u), u.rest, step, Refusing(u));
  }

  lemma RefusalIsOut(u: Setup)
    requires Startable(u)
    ensures Reachable(World([QuerySent(u), INIT], {} + {RequestPacket(u)} + {RefusalPacket(u)}))
  {
    QueryIsRefused(u);
    Sends([QuerySent(u), Refusing(u)], {} + {RequestPacket(u)}, 1, SendMsg(0, Refusal(u), 0));
  }

  /** What the client is told. */
  function BadNews(u: Setup): Report {
    Report(Rejected, u.handle, 1, 0, 0, u.client, u.nl, u.local, u.server, u.local.(port := u.localPort), u.server)
  }

  function Refused(u: Setup): Daemon
    requires Startable(u)
  {
    WireReject(QuerySent(u), 1, Refusal(u), true)
  }

  lemma ClientIsRefused(u: Setup)
    requires Startable(u)
    ensures if u.local.family == u.server.family then Refused(u).reports == [BadNews(u)]
            else Refused(u) == QuerySent(u)
  {
    PackUnpack(u.server.family, u.local, u.stack.cpIp);
    var d := QuerySent(u);
    assert d.table.ports[..0] == [] && d.reqs[..0] == [];
  }

  /** For every query there is a run in which nothing is mapped where it asks and the reject comes
      back: then its client is told, if the two addresses are of one family; if they are not, the
      reject changes nothing. */
  lemma RefusalArrives(u: Setup)
    requires Startable(u)
    ensures Reachable(World([Refused(u), INIT], {} + {RequestPacket(u)} + {RefusalPacket(u)}))
    ensures if u.local.family == u.server.family then Refused(u).reports == [BadNews(u)]
            else Refused(u) == QuerySent(u)
  {
    RefusalIsOut(u);
    ClientIsRefused(u);
    ServerRefuses(u);
    Receives([QuerySent(u), INIT], {} + {RequestPacket(u)} + {RefusalPacket(u)}, RefusalPacket(u), u.rest,
             RejectStep(1, Refusal(u), true), Refused(u));
  }
}
