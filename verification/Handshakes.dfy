/** A handshake that runs to its end: what the agreement of two hosts speaks of does happen. */
module Handshakes {
  import opened Options
  import opened SockAddrs
  import opened WireMsgs
  import opened PortTables
  import opened MapRequests
  import opened Daemons
  import opened Networks

  /** A connection from `local` on host 0 to `server` on host 1, whose listener has mapped `bound`,
      and what each host hands out. */
  datatype Setup = Setup(local: SockAddr, server: SockAddr, bound: SockAddr, localPort: Half, serverPort: Half,
                         client: nat, listener: nat, handle: Handle, nl: NlHeader, stack: Parms, rest: seq<Byte>)

  /** The query can be started. */
  predicate Startable(u: Setup) {
    && IsInet(u.local.family) && !IsWildcard(u.local) && IsInet(u.server.family)
    && u.handle != NULL_HANDLE && |u.rest| == REQUEST_SIZE - MESSAGE_SIZE
  }

  /** Both ends are of one family, and the listener has mapped the address asked for or, as servers
      do, the wildcard on its port. */
  predicate Ordinary(u: Setup) {
    && Startable(u) && u.server.family == u.local.family && !IsWildcard(u.server)
    && (SameSockAddr(u.bound, u.server)
        || (IsWildcard(u.bound) && u.bound.family == u.server.family && u.bound.port == u.server.port))
  }

  function Listening(u: Setup): PortEntry {
    PortEntry(0, u.listener, u.bound, u.bound.(port := u.serverPort), IsWildcard(u.bound), 1)
  }

  function Connecting(u: Setup): PortEntry {
    PortEntry(0, u.client, u.local, u.local.(port := u.localPort), false, 1)
  }

  function OneEntry(e: PortEntry): Table { Table([e], [e], multiset{}) }

  function Request(u: Setup): Parms
    requires Startable(u)
  {
    QueryParms(u.local, u.server, Connecting(u).mapped, u.handle, u.stack)
  }

  function Reply(u: Setup): Parms
    requires Ordinary(u)
  {
    AcceptParms(Request(u), Listening(u))
  }

  // ------------------------------------------------------------ the two hosts, step by step

  function Listener(u: Setup): Daemon { INIT.(table := OneEntry(Listening(u))) }

  function Asking(u: Setup): Daemon
    requires Startable(u)
  {
    var msg := SendMsg(1, Request(u), 0);
    Daemon(OneEntry(Connecting(u)),
           [MapReq(Query, u.handle, u.local, u.server, u.nl, Some(msg), MAP_REQ_TIMEOUT, false)], [msg], [],
           map[u.handle := QueryRec(0, 1, Request(u), u.local, u.server, u.nl)])
  }

  function Answering(u: Setup): Daemon
    requires Ordinary(u)
  {
    var acc := SendMsg(0, Reply(u), 0);
    Daemon(OneEntry(Listening(u)), [AcceptReq(Request(u), acc, u.handle)], [acc],
           [RemoteInfoReport(Request(u), 0, Listening(u))], map[])
  }

  lemma ListenerAdds(u: Setup)
    requires Ordinary(u)
    ensures Next(INIT, AddStep(u.bound, u.listener, false, Some(u.serverPort), true, true)) == Listener(u)
  {
  }

  function Ask(u: Setup): Step {
    QueryStep(u.local, u.server, u.client, u.nl, false, Some(u.localPort), true, true, 1, u.handle, u.stack, true)
  }

  lemma ClientAsks(u: Setup)
    requires Startable(u)
    ensures Enabled(INIT, Ask(u)) && Next(INIT, Ask(u)) == Asking(u)
  {
  }

  lemma ServerAnswers(u: Setup)
    requires Ordinary(u)
    ensures Encodable(Request(u)) && Request(u).mt == MT_REQ
    ensures WireRequest(Listener(u), 0, Request(u), true, u.handle, true, true) == Answering(u)
  {
  }

  /** The client's report: the accepting peer's mapped address comes from the wire. */
  function Outcome(u: Setup): Report
    requires Ordinary(u)
  {
    Report(Accepted, u.handle, 1, 0, 0, u.client, u.nl, u.local, u.server, Connecting(u).mapped, ApAddr(Reply(u)))
  }

  /** The listener's report. */
  function Info(u: Setup): Report
    requires Ordinary(u)
  {
    RemoteInfoReport(Request(u), 0, Listening(u))
  }

  function Told(u: Setup): Daemon
    requires Ordinary(u)
  {
    WireAccept(Asking(u).(pending := []), 1, Reply(u), 0, true, true, true)
  }

  lemma ClientIsTold(u: Setup)
    requires Ordinary(u)
    ensures Encodable(Reply(u)) && Reply(u).mt == MT_ACC
    ensures Told(u).reports == [Outcome(u)] && Told(u).table == OneEntry(Connecting(u))
    ensures Told(u).issued == Asking(u).issued
  {
  }

  // ------------------------------------------------------------ the run

  function QuerySent(u: Setup): Daemon
    requires Startable(u)
  {
    Asking(u).(pending := [])
  }

  function Answered(u: Setup): Daemon
    requires Ordinary(u)
  {
    Answering(u).(pending := [])
  }

  function RequestPacket(u: Setup): Packet
    requires Startable(u)
  {
    Packet(0, 1, Request(u), 0)
  }

  function ReplyPacket(u: Setup): Packet
    requires Ordinary(u)
  {
    Packet(1, 0, Reply(u), 0)
  }

  /** `w` ends some run. */
  ghost predicate Reachable(w: World) {
    exists worlds, steps :: IsWorldRun(worlds, steps) && worlds[|steps|] == w
  }

  lemma Start(hosts: seq<Daemon>)
    requires forall h :: 0 <= h < |hosts| ==> hosts[h] == INIT
    ensures Reachable(World(hosts, {}))
  {
    var worlds, steps := [World(hosts, {})], [];
    assert IsWorldRun(worlds, steps) && worlds[|steps|] == World(hosts, {});
  }

  lemma Extend(w: World, s: WorldStep)
    requires Reachable(w) && CanStep(w, s)
    ensures Reachable(WorldNext(w, s))
  {
    var worlds, steps :| IsWorldRun(worlds, steps) && worlds[|steps|] == w;
    var w' := WorldNext(w, s);
    RunExtends(worlds, steps, s, w');
    EndIsReachable(worlds + [w'], steps + [s], w');
  }

  lemma EndIsReachable(worlds: seq<World>, steps: seq<WorldStep>, w: World)
    requires IsWorldRun(worlds, steps) && worlds[|steps|] == w
    ensures Reachable(w)
  {
  }

  ghost predicate Leads(w: World, s: WorldStep, w': World) {
    CanStep(w, s) && w' == WorldNext(w, s)
  }

  ghost predicate Chain(worlds: seq<World>, steps: seq<WorldStep>) {
    |worlds| == |steps| + 1 && forall i :: 0 <= i < |steps| ==> Leads(worlds[i], steps[i], worlds[i + 1])
  }

  lemma RunIsChain(worlds: seq<World>, steps: seq<WorldStep>)
    requires |worlds| == |steps| + 1 && worlds[0].net == {}
    requires forall h :: 0 <= h < |worlds[0].hosts| ==> worlds[0].hosts[h] == INIT
    ensures IsWorldRun(worlds, steps) <==> Chain(worlds, steps)
  {
    if IsWorldRun(worlds, steps) {
      forall i | 0 <= i < |steps| ensures Leads(worlds[i], steps[i], worlds[i + 1]) {}
    }
    if Chain(worlds, steps) {
      forall i | 0 <= i < |steps|
        ensures CanStep(worlds[i], steps[i]) && worlds[i + 1] == WorldNext(worlds[i], steps[i])
      {
        assert Leads(worlds[i], steps[i], worlds[i + 1]);
      }
    }
  }

  lemma RunExtends(worlds: seq<World>, steps: seq<WorldStep>, s: WorldStep, w: World)
    requires IsWorldRun(worlds, steps) && Leads(worlds[|steps|], s, w)
    ensures IsWorldRun(worlds + [w], steps + [s])
  {
    RunIsChain(worlds, steps);
    ChainExtends(worlds, steps, s, w);
    RunIsChain(worlds + [w], steps + [s]);
  }

  lemma ChainExtends(worlds: seq<World>, steps: seq<WorldStep>, s: WorldStep, w: World)
    requires Chain(worlds, steps) && Leads(worlds[|steps|], s, w)
    ensures Chain(worlds + [w], steps + [s])
  {
    var worlds', steps' := worlds + [w], steps + [s];
    forall i | 0 <= i < |steps'| ensures Leads(worlds'[i], steps'[i], worlds'[i + 1]) {
      var a, b, c := worlds'[i], steps'[i], worlds'[i + 1];
      assert i < |steps| ==> a == worlds[i] && b == steps[i] && c == worlds[i + 1];
      assert i == |steps| ==> a == worlds[|steps|] && b == s && c == w;
      assert Leads(a, b, c);
    }
  }

  /** A host steps on its own. */
  lemma Steps(hosts: seq<Daemon>, net: set<Packet>, h: nat, step: Step, d: Daemon)
    requires Reachable(World(hosts, net)) && h < |hosts| && IsLocal(step) && !step.SendStep?
    requires Enabled(hosts[h], step) && Next(hosts[h], step) == d
    ensures Reachable(World(hosts[h := d], net))
  {
    Extend(World(hosts, net), Local(h, step, false));
  }

  /** A host sends the one message on its queue. */
  lemma Sends(hosts: seq<Daemon>, net: set<Packet>, h: nat, m: SendMsg)
    requires Reachable(World(hosts, net)) && h < |hosts| && hosts[h].pending == [m]
    ensures Reachable(World(hosts[h := hosts[h].(pending := [])], net + {Packet(h, m.to, m.parms, m.port)}))
  {
    assert [m][1..] == [];
    Extend(World(hosts, net), Local(h, SendStep, false));
  }

  /** A message that was sent arrives. */
  lemma Receives(hosts: seq<Daemon>, net: set<Packet>, p: Packet, rest: seq<Byte>, step: Step, d: Daemon)
    requires Reachable(World(hosts, net)) && p in net && p.to < |hosts| && |rest| == REQUEST_SIZE - MESSAGE_SIZE
    requires Encodable(p.parms) && Dispatches(p, p.parms, step)
    requires Enabled(hosts[p.to], step) && Next(hosts[p.to], step) == d
    ensures Reachable(World(hosts[p.to := d], net))
  {
    TransportRoundTrip(p.parms, rest, p.parms);
    Extend(World(hosts, net), Deliver(p, rest, p.parms, step));
  }

  lemma CanArrive(w: World, p: Packet, rest: seq<Byte>, step: Step)
    requires p in w.net && p.to < |w.hosts| && |rest| == REQUEST_SIZE - MESSAGE_SIZE
    requires Encodable(p.parms) && Dispatches(p, p.parms, step) && Enabled(w.hosts[p.to], step)
    ensures CanStep(w, Deliver(p, rest, p.parms, step))
  {
    TransportRoundTrip(p.parms, rest, p.parms);
  }

  /** The arrival of a message that leaves its host as it was. */
  lemma IdleArrival(w: World, ws: WorldStep)
    requires ws.Deliver? && CanStep(w, ws) && Next(w.hosts[ws.packet.to], ws.step) == w.hosts[ws.packet.to]
    ensures WorldNext(w, ws) == w
  {
    assert w.hosts[ws.packet.to := w.hosts[ws.packet.to]] == w.hosts;
  }

  lemma ServerIsUp(u: Setup)
    requires Ordinary(u)
    ensures Reachable(World([INIT, Listener(u)], {}))
  {
    Start([INIT, INIT]);
    ListenerAdds(u);
    Steps([INIT, INIT], {}, 1, AddStep(u.bound, u.listener, false, Some(u.serverPort), true, true), Listener(u));
  }

  lemma RequestIsOut(u: Setup)
    requires Ordinary(u)
    ensures Reachable(World([QuerySent(u), Listener(u)], {RequestPacket(u)}))
  {
    ServerIsUp(u);
    ClientAsks(u);
    Steps([INIT, Listener(u)], {}, 0, Ask(u), Asking(u));
    Sends([Asking(u), Listener(u)], {}, 0, SendMsg(1, Request(u), 0));
    assert {} + {RequestPacket(u)} == {RequestPacket(u)};
  }

  lemma ReplyIsOut(u: Setup)
    requires Ordinary(u)
    ensures Reachable(World([QuerySent(u), Answered(u)], {RequestPacket(u)} + {ReplyPacket(u)}))
  {
    RequestIsOut(u);
    ServerAnswers(u);
    var step := RequestStep(0, Request(u), true, u.handle, true, true);
    Receives([QuerySent(u), Listener(u)], {RequestPacket(u)}, RequestPacket(u), u.rest, step, Answering(u));
    Sends([QuerySent(u), Answering(u)], {RequestPacket(u)}, 1, SendMsg(0, Reply(u), 0));
  }

  lemma ReplyIsTaken(u: Setup)
    requires Ordinary(u)
    ensures Reachable(World([Told(u), Answered(u)], {RequestPacket(u)} + {ReplyPacket(u)}))
  {
    ReplyIsOut(u);
    ClientIsTold(u);
    var step := AcceptStep(1, Reply(u), 0, true, true, true);
    Receives([QuerySent(u), Answered(u)], {RequestPacket(u)} + {ReplyPacket(u)}, ReplyPacket(u), u.rest, step, Told(u));
  }

  lemma BothAreTold(u: Setup)
    requires Ordinary(u)
    ensures BothTold([Told(u), Answered(u)], 0, 1, Outcome(u), Info(u))
    ensures Undisturbed([Told(u), Answered(u)], 0, 1, Outcome(u), Info(u))
  {
    ClientIsTold(u);
    assert Told(u).table.ports[0].id == 0 && Answered(u).table.ports[0].id == 0;
    assert Outcome(u) == Told(u).reports[0];
    assert Info(u) == Answered(u).reports[0];
  }

  /** The active end learns where to connect: the server's address on the port its listener has mapped. */
  lemma ActiveLearns(u: Setup)
    requires Ordinary(u)
    ensures var a := Outcome(u);
            && a.client == u.client && a.nl == u.nl && a.local == u.local && a.remote == u.server
            && a.mappedLocal == u.local.(port := u.localPort)
            && SameSockAddr(a.mappedRemote, u.server.(port := u.serverPort))
  {
    QueryParmsGood(u.local, u.server, Connecting(u).mapped, u.handle, u.stack);
    MirrorAddresses(Request(u), Listening(u));
  }

  /** The passive end learns who will connect: the client's address, and the one it is mapped to. */
  lemma PassiveLearns(u: Setup)
    requires Ordinary(u)
    ensures var p := Info(u);
            && p.client == u.listener && p.local == u.bound && p.mappedLocal == u.bound.(port := u.serverPort)
            && SameSockAddr(p.remote, u.local)
            && SameSockAddr(p.mappedRemote, u.local.(port := u.localPort))
  {
    PackUnpack(u.server.family, u.local, u.stack.cpIp);
    PackUnpack(u.server.family, Connecting(u).mapped, u.stack.mappedIp);
  }

  /** For any two addresses of one family that are not wildcards, and a listener on the one asked
      for or on the wildcard, there is a run at whose end both clients have been told of the same
      query, with every entry still mapped. */
  lemma HandshakeCompletes(u: Setup) returns (worlds: seq<World>, steps: seq<WorldStep>)
    requires Ordinary(u)
    ensures IsWorldRun(worlds, steps)
    ensures BothTold(worlds[|steps|].hosts, 0, 1, Outcome(u), Info(u))
    ensures Undisturbed(worlds[|steps|].hosts, 0, 1, Outcome(u), Info(u))
  {
    ReplyIsTaken(u);
    BothAreTold(u);
    var w := World([Told(u), Answered(u)], {RequestPacket(u)} + {ReplyPacket(u)});
    worlds, steps :| IsWorldRun(worlds, steps) && worlds[|steps|] == w;
  }

  // ------------------------------------------------------------ how it ends

  function Closing(u: Setup): Parms
    requires Ordinary(u)
  {
    Reply(u).(mt := MT_ACK)
  }

  function AckPacket(u: Setup): Packet
    requires Ordinary(u)
  {
    Packet(0, 1, Closing(u), 0)
  }

  function Closed(u: Setup): Daemon
    requires Ordinary(u)
  {
    WireAck(Answered(u), Closing(u))
  }

  lemma ClientAcks(u: Setup)
    requires Ordinary(u)
    ensures Told(u).pending == [SendMsg(1, Closing(u), 0)]
    ensures |Told(u).reqs| == 2 && Told(u).reqs[0].kind == Ack && Told(u).reqs[1].complete
  {
  }

  /** The ack is found by the mapped address and ends the retransmission of the accept. */
  lemma AckCloses(u: Setup)
    requires Ordinary(u)
    ensures Encodable(Closing(u)) && Closing(u).mt == MT_ACK
    ensures Closed(u) == Answered(u).(reqs := Closed(u).reqs)
    ensures |Closed(u).reqs| == 1 && Closed(u).reqs[0].complete && Pass(Closed(u).reqs) == []
    ensures Resend(Closed(u).reqs, [], {}) == []
  {
  }

  lemma AckIsOut(u: Setup)
    requires Ordinary(u)
    ensures Reachable(World([Told(u).(pending := []), Answered(u)],
                            {RequestPacket(u)} + {ReplyPacket(u)} + {AckPacket(u)}))
  {
    ReplyIsTaken(u);
    ClientAcks(u);
    Sends([Told(u), Answered(u)], {RequestPacket(u)} + {ReplyPacket(u)}, 0, SendMsg(1, Closing(u), 0));
  }

  lemma AckIsTaken(u: Setup)
    requires Ordinary(u)
    ensures Reachable(World([Told(u).(pending := []), Closed(u)],
                            {RequestPacket(u)} + {ReplyPacket(u)} + {AckPacket(u)}))
  {
    AckIsOut(u);
    AckCloses(u);
    Receives([Told(u).(pending := []), Answered(u)], {RequestPacket(u)} + {ReplyPacket(u)} + {AckPacket(u)},
             AckPacket(u), u.rest, AckStep(0, Closing(u)), Closed(u));
  }

  /** The handshake can go on to its end: the ack reaches the accepting host, whose next timer
      pass forgets the accept and sends nothing. */
  lemma HandshakeEnds(u: Setup)
    requires Ordinary(u)
    ensures Reachable(World([Told(u).(pending := []), Closed(u).(reqs := [])],
                            {RequestPacket(u)} + {ReplyPacket(u)} + {AckPacket(u)}))
    ensures Closed(u).pending == [] && Closed(u).reports == [Info(u)]
  {
    AckIsTaken(u);
    AckCloses(u);
    Steps([Told(u).(pending := []), Closed(u)], {RequestPacket(u)} + {ReplyPacket(u)} + {AckPacket(u)}, 1,
          TimerStep({}), Closed(u).(reqs := []));
  }
}
