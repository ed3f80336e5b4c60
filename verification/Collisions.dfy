/** When a request for a mapped address gets its answer. A daemon takes a request for a repetition
    when it already tracks an accept with that handle and mapped address, whoever it is for; handles
    are given out by each host on its own, so another host's query can stand in the way. */
module Collisions {
  import opened Options
  import opened SockAddrs
  import opened WireMsgs
  import opened PortTables
  import opened MapRequests
  import opened Daemons
  import opened Networks
  import opened Handshakes

  /** An accept for host `to` is tracked, so that it will be sent until it is acknowledged. */
  ghost predicate Served(reqs: seq<MapReq>, to: nat, handle: Handle, src: SockAddr) {
    exists j :: 0 <= j < |reqs| && ServedBy(reqs[j], to, handle, src)
  }

  ghost predicate ServedBy(r: MapReq, to: nat, handle: Handle, src: SockAddr) {
    Matches(r, handle, {Accept}, src) && r.msg.Some? && r.msg.value.to == to
  }

  /** A request for a mapped address is served after it was handled if and only if it was before,
      or no accept with its handle and mapped address was tracked and there was memory. */
  lemma ServedIff(d: Daemon, s: Step, i: nat)
    requires s.RequestStep? && Enabled(d, s) && s.m.handle != NULL_HANDLE
    requires FindMapping(d.table.ports, ApAddr(s.m), true) == Some(i)
    ensures var src := ApAddr(AcceptParms(s.m, d.table.ports[i]));
            Served(Next(d, s).reqs, s.from, s.m.handle, src) <==>
              || Served(d.reqs, s.from, s.m.handle, src)
              || (FindReq(d.reqs, s.m.handle, {Accept}, src).None? && s.alloc)
  {
    var e := d.table.ports[i];
    var src := ApAddr(AcceptParms(s.m, e));
    if FindReq(d.reqs, s.m.handle, {Accept}, src).None? && s.alloc {
      assert ServedBy(Next(d, s).reqs[0], s.from, s.m.handle, src);
    }
  }

  // ------------------------------------------------------------ handles of one's own

  /** A tracked accept has the handle of its message. */
  ghost predicate Tracks(reqs: seq<MapReq>) {
    forall i :: 0 <= i < |reqs| && reqs[i].kind == Accept ==> TracksOne(reqs[i])
  }

  ghost predicate TracksOne(r: MapReq) {
    && r.msg.Some? && r.msg.value.parms.mt == MT_ACC
    && (r.msg.value.parms.handle == r.handle || r.msg.value.parms.handle == NULL_HANDLE)
  }

  lemma StepTracks(d: Daemon, s: Step)
    requires Tracks(d.reqs) && Enabled(d, s)
    ensures Tracks(Next(d, s).reqs)
  {
    match s
    case TimerStep(_) => PassTracks(d.reqs);
    case RequestStep(_, _, _, _, _, _) => RequestTracks(d, s);
    case AcceptStep(_, m, _, _, _, _) => AcceptTracks(d, s);
    case RejectStep(_, m, _) => RejectTracks(d, s);
    case _ =>
  }

  lemma PassTracks(reqs: seq<MapReq>)
    requires Tracks(reqs)
    ensures Tracks(Pass(reqs))
  {
    forall k | 0 <= k < |Pass(reqs)| && Pass(reqs)[k].kind == Accept ensures TracksOne(Pass(reqs)[k]) {
      var j := PassOrigin(reqs, k);
      assert TracksOne(reqs[j]);
    }
  }

  lemma RequestTracks(d: Daemon, s: Step)
    requires Tracks(d.reqs) && s.RequestStep? && Enabled(d, s)
    ensures Tracks(Next(d, s).reqs)
  {
  }

  lemma AcceptTracks(d: Daemon, s: Step)
    requires Tracks(d.reqs) && s.AcceptStep? && Enabled(d, s)
    ensures Tracks(Next(d, s).reqs)
  {
  }

  lemma RejectTracks(d: Daemon, s: Step)
    requires Tracks(d.reqs) && s.RejectStep? && Enabled(d, s)
    ensures Tracks(Next(d, s).reqs)
  {
  }

  ghost predicate AllTrack(w: World) {
    forall h :: 0 <= h < |w.hosts| ==> Tracks(w.hosts[h].reqs)
  }

  lemma WorldStepTracks(w: World, s: WorldStep)
    requires AllTrack(w) && CanStep(w, s)
    ensures AllTrack(WorldNext(w, s))
  {
    var h := if s.Local? then s.host else s.packet.to;
    StepTracks(w.hosts[h], s.step);
  }

  lemma {:induction false} RunTracks(worlds: seq<World>, steps: seq<WorldStep>, n: nat)
    requires IsWorldRun(worlds, steps) && n <= |steps|
    ensures AllTrack(worlds[n])
  {
    if n > 0 {
      RunTracks(worlds, steps, n - 1);
      WorldStepTracks(worlds[n - 1], steps[n - 1]);
    }
  }

  /** No other host has given its query this handle. */
  ghost predicate OwnHandle(hosts: seq<Daemon>, a: nat, handle: Handle) {
    forall g :: 0 <= g < |hosts| && g != a ==> handle !in hosts[g].issued
  }

  /** A tracked accept is for a host that issued its handle. */
  lemma TrackedForAsker(w: World, h: nat, k: nat)
    requires WorldInv(w) && AllTrack(w) && h < |w.hosts| && k < |w.hosts[h].reqs| && w.hosts[h].reqs[k].kind == Accept
    ensures var r := w.hosts[h].reqs[k];
            && r.msg.Some? && r.msg.value.to < |w.hosts| && r.handle in w.hosts[r.msg.value.to].issued
  {
    var r := w.hosts[h].reqs[k];
    assert Tracks(w.hosts[h].reqs) && TracksOne(r);
    assert GoodHost(w.hosts, h, w.hosts[h]);
    assert GoodMsg(w.hosts, h, r.msg.value.to, r.msg.value.parms, r.msg.value.port);
  }

  /** In every run, a request for a mapped address whose handle no other host uses is served when
      it arrives, if there is memory. */
  lemma OwnHandleIsServed(worlds: seq<World>, steps: seq<WorldStep>, n: nat, i: nat)
    requires IsWorldRun(worlds, steps) && n < |steps| && steps[n].Deliver? && steps[n].step.RequestStep?
    requires var p, s := steps[n].packet, steps[n].step;
             && s.alloc && OwnHandle(worlds[n].hosts, p.from, s.m.handle)
             && FindMapping(worlds[n].hosts[p.to].table.ports, ApAddr(s.m), true) == Some(i)
    ensures var p, s := steps[n].packet, steps[n].step;
            p.to < |worlds[n + 1].hosts| && i < |worlds[n].hosts[p.to].table.ports| &&
            Served(worlds[n + 1].hosts[p.to].reqs, p.from, s.m.handle,
                   ApAddr(AcceptParms(s.m, worlds[n].hosts[p.to].table.ports[i])))
  {
    WorldRunKeeps(worlds, steps, n);
    RunTracks(worlds, steps, n);
    RequestArrivesAsSent(worlds[n], steps[n]);
    ServedNow(worlds[n], steps[n].packet, steps[n].step, i);
  }

  /** A request is handled as it was sent. */
  lemma RequestArrivesAsSent(w: World, ws: WorldStep)
    requires WorldInv(w) && CanStep(w, ws) && ws.Deliver? && ws.step.RequestStep?
    ensures var p, s := ws.packet, ws.step;
            p in w.net && p.to < |w.hosts| && p.parms.mt == MT_REQ && s.from == p.from && s.m == p.parms
  {
    var p := ws.packet;
    assert GoodMsg(w.hosts, p.from, p.to, p.parms, p.port);
    WhatArrives(p, ws.rest, ws.stale, ws.step);
  }

  lemma ServedNow(w: World, p: Packet, s: Step, i: nat)
    requires WorldInv(w) && AllTrack(w) && p in w.net && p.to < |w.hosts| && p.parms.mt == MT_REQ
    requires s.RequestStep? && s.alloc && s.from == p.from && s.m == p.parms && Enabled(w.hosts[p.to], s)
    requires OwnHandle(w.hosts, p.from, s.m.handle)
    requires FindMapping(w.hosts[p.to].table.ports, ApAddr(s.m), true) == Some(i)
    ensures var d := w.hosts[p.to];
            Served(Next(d, s).reqs, p.from, s.m.handle, ApAddr(AcceptParms(s.m, d.table.ports[i])))
  {
    var d := w.hosts[p.to];
    assert GoodMsg(w.hosts, p.from, p.to, p.parms, p.port);
    ServedIff(d, s, i);
    var src := ApAddr(AcceptParms(s.m, d.table.ports[i]));
    var f := FindReq(d.reqs, s.m.handle, {Accept}, src);
    if f.Some? { MatchIsOwn(w, p.to, f.value, p.from, s.m.handle, src); }
  }

  /** With a handle of one's own, a tracked accept that matches is one's own. */
  lemma MatchIsOwn(w: World, h: nat, k: nat, a: nat, handle: Handle, src: SockAddr)
    requires WorldInv(w) && AllTrack(w) && h < |w.hosts| && k < |w.hosts[h].reqs| && OwnHandle(w.hosts, a, handle)
    requires Matches(w.hosts[h].reqs[k], handle, {Accept}, src)
    ensures Served(w.hosts[h].reqs, a, handle, src)
  {
    TrackedForAsker(w, h, k);
    assert ServedBy(w.hosts[h].reqs[k], a, handle, src);
  }

  // ------------------------------------------------------------ two hosts with one handle

  /** Host 2 asks for the same address as host 0, with the same handle. */
  predicate Twins(u: Setup, v: Setup) {
    && Ordinary(u) && Ordinary(v) && v.server == u.server && v.bound == u.bound && v.serverPort == u.serverPort
    && v.listener == u.listener && v.handle == u.handle
  }

  function SecondRequest(v: Setup): Packet
    requires Ordinary(v)
  {
    Packet(2, 1, Request(v), 0)
  }

  function SecondArrival(v: Setup): Step
    requires Ordinary(v)
  {
    RequestStep(2, Request(v), true, v.handle, true, true)
  }

  lemma ServerListens(u: Setup)
    requires Ordinary(u)
    ensures Reachable(World([INIT, Listener(u), INIT], {}))
  {
    Start([INIT, INIT, INIT]);
    ListenerAdds(u);
    Steps([INIT, INIT, INIT], {}, 1, AddStep(u.bound, u.listener, false, Some(u.serverPort), true, true), Listener(u));
  }

  lemma FirstAsks(u: Setup)
    requires Ordinary(u)
    ensures Reachable(World([Asking(u), Listener(u), INIT], {}))
  {
    ServerListens(u);
    ClientAsks(u);
    Steps([INIT, Listener(u), INIT], {}, 0, Ask(u), Asking(u));
  }

  lemma BothAsk(u: Setup, v: Setup)
    requires Twins(u, v)
    ensures Reachable(World([Asking(u), Listener(u), Asking(v)], {}))
  {
    FirstAsks(u);
    ClientAsks(v);
    Steps([Asking(u), Listener(u), INIT], {}, 2, Ask(v), Asking(v));
  }

  lemma FirstRequestOut(u: Setup, v: Setup)
    requires Twins(u, v)
    ensures Reachable(World([QuerySent(u), Listener(u), Asking(v)], {} + {RequestPacket(u)}))
  {
    BothAsk(u, v);
    Sends([Asking(u), Listener(u), Asking(v)], {}, 0, SendMsg(1, Request(u), 0));
  }

  lemma BothRequestsOut(u: Setup, v: Setup)
    requires Twins(u, v)
    ensures Reachable(World([QuerySent(u), Listener(u), QuerySent(v)], {} + {RequestPacket(u)} + {SecondRequest(v)}))
  {
    FirstRequestOut(u, v);
    Sends([QuerySent(u), Listener(u), Asking(v)], {} + {RequestPacket(u)}, 2, SendMsg(1, Request(v), 0));
  }

  lemma FirstIsAnswered(u: Setup, v: Setup)
    requires Twins(u, v)
    ensures Reachable(World([QuerySent(u), Answering(u), QuerySent(v)], {} + {RequestPacket(u)} + {SecondRequest(v)}))
  {
    BothRequestsOut(u, v);
    ServerAnswers(u);
    Receives([QuerySent(u), Listener(u), QuerySent(v)], {} + {RequestPacket(u)} + {SecondRequest(v)},
             RequestPacket(u), u.rest, RequestStep(0, Request(u), true, u.handle, true, true), Answering(u));
  }

  lemma SecondIsIgnored(u: Setup, v: Setup)
    requires Twins(u, v)
    ensures Enabled(Answering(u), SecondArrival(v)) && Next(Answering(u), SecondArrival(v)) == Answering(u)
  {
    ServerAnswers(v);
    QueryParmsGood(v.local, v.server, Connecting(v).mapped, v.handle, v.stack);
    var d, m := Answering(u), Request(v);
    assert d.table.ports[..0] == [] && d.reqs[..0] == [];
    assert FindMapping(d.table.ports, ApAddr(m), true) == Some(0);
    assert Matches(d.reqs[0], m.handle, {Accept}, ApAddr(AcceptParms(m, Listening(u))));
    assert FindReq(d.reqs, m.handle, {Accept}, ApAddr(AcceptParms(m, Listening(u)))) == Some(0);
  }

  /** There is a run in which host 2's request for a mapped address arrives, with memory at hand,
      and changes nothing: no accept and no reject for it is queued or tracked, because host 0's
      query has the same handle. */
  lemma TwinIsNotServed(u: Setup, v: Setup) returns (w: World)
    requires Twins(u, v)
    ensures Reachable(w) && CanStep(w, Deliver(SecondRequest(v), v.rest, Request(v), SecondArrival(v)))
    ensures WorldNext(w, Deliver(SecondRequest(v), v.rest, Request(v), SecondArrival(v))) == w
    ensures |w.hosts| == 3 && FindMapping(w.hosts[1].table.ports, ApAddr(Request(v)), true).Some?
    ensures forall m :: m in w.hosts[1].pending ==> m.to != 2
    ensures forall r :: r in w.hosts[1].reqs && r.msg.Some? ==> r.msg.value.to != 2
  {
    w := TwinWorld(u, v);
    FirstIsAnswered(u, v);
    TwinArrives(u, v);
    SecondIsMapped(u, v);
    NothingForTwin(u);
  }

  function TwinWorld(u: Setup, v: Setup): World
    requires Twins(u, v)
  {
    World([QuerySent(u), Answering(u), QuerySent(v)], {} + {RequestPacket(u)} + {SecondRequest(v)})
  }

  lemma TwinArrives(u: Setup, v: Setup)
    requires Twins(u, v)
    ensures var ws := Deliver(SecondRequest(v), v.rest, Request(v), SecondArrival(v));
            CanStep(TwinWorld(u, v), ws) && WorldNext(TwinWorld(u, v), ws) == TwinWorld(u, v)
  {
    SecondIsIgnored(u, v);
    ServerAnswers(v);
    CanArrive(TwinWorld(u, v), SecondRequest(v), v.rest, SecondArrival(v));
    IdleArrival(TwinWorld(u, v), Deliver(SecondRequest(v), v.rest, Request(v), SecondArrival(v)));
  }

  lemma NothingForTwin(u: Setup)
    requires Ordinary(u)
    ensures forall m :: m in Answering(u).pending ==> m.to != 2
    ensures forall r :: r in Answering(u).reqs && r.msg.Some? ==> r.msg.value.to != 2
  {
  }

  lemma SecondIsMapped(u: Setup, v: Setup)
    requires Twins(u, v)
    ensures FindMapping(Answering(u).table.ports, ApAddr(Request(v)), true).Some?
  {
    QueryParmsGood(v.local, v.server, Connecting(v).mapped, v.handle, v.stack);
    assert Hit(ApAddr(Request(v)), Answering(u).table.ports[0], true);
  }
}
