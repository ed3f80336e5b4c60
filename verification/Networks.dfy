/** Any number of daemons over a network that may lose, repeat and reorder messages, and
    the agreement of the two ends of a mapping. */
module Networks {
  import opened Options
  import opened SockAddrs
  import opened WireMsgs
  import opened PortTables
  import opened MapRequests
  import opened Daemons

  /** A message on the wire. `port` records the sender's table entry it was formed from. */
  datatype Packet = Packet(from: nat, to: nat, parms: Parms, port: nat)

  /** `net` holds every message ever sent: delivering none, one or several copies in any
      order is loss, duplication and reordering. */
  datatype World = World(hosts: seq<Daemon>, net: set<Packet>)

  /** A host acts on its own, or takes a message off the wire into a buffer that held
      `rest` and parameters that held `stale`. */
  datatype WorldStep =
    | Local(host: nat, step: Step, lost: bool)
    | Deliver(packet: Packet, rest: seq<Byte>, stale: Parms, step: Step)

  predicate IsLocal(s: Step) {
    s.AddStep? || s.QueryStep? || s.RemoveStep? || s.MapInfoStep? || s.TimerStep? || s.SendStep?
  }

  /** The dispatch of process_iwpm_msg: which handler runs, and on what. */
  predicate Dispatches(p: Packet, m: Parms, s: Step) {
    match s
    case RequestStep(from, m', _, _, _, _) => m.mt == MT_REQ && from == p.from && m' == m
    case AcceptStep(from, m', tag, _, _, _) => m.mt == MT_ACC && from == p.from && m' == m && tag == p.port
    case RejectStep(from, m', _) => m.mt == MT_REJ && from == p.from && m' == m
    case AckStep(from, m') => m.mt == MT_ACK && from == p.from && m' == m
    case _ => false
  }

  predicate CanStep(w: World, s: WorldStep) {
    match s
    case Local(h, step, _) => h < |w.hosts| && IsLocal(step) && Enabled(w.hosts[h], step)
    case Deliver(p, rest, stale, step) =>
      && p in w.net && p.to < |w.hosts| && |rest| == REQUEST_SIZE - MESSAGE_SIZE
      && var m := Receive(Sent(p.parms), rest, stale);
         m.Some? && Dispatches(p, m.value, step) && Enabled(w.hosts[p.to], step)
  }

  function WorldNext(w: World, s: WorldStep): World
    requires CanStep(w, s)
  {
    match s
    case Local(h, step, lost) =>
      var d := w.hosts[h];
      World(w.hosts[h := Next(d, step)],
            if step.SendStep? && !lost
            then w.net + {Packet(h, d.pending[0].to, d.pending[0].parms, d.pending[0].port)}
            else w.net)
    case Deliver(p, _, _, step) => w.(hosts := w.hosts[p.to := Next(w.hosts[p.to], step)])
  }

  ghost predicate IsWorldRun(worlds: seq<World>, steps: seq<WorldStep>) {
    && |worlds| == |steps| + 1
    && worlds[0].net == {}
    && (forall h :: 0 <= h < |worlds[0].hosts| ==> worlds[0].hosts[h] == INIT)
    && forall i :: 0 <= i < |steps| ==> CanStep(worlds[i], steps[i]) && worlds[i + 1] == WorldNext(worlds[i], steps[i])
  }

  /** Sending takes the message at the head of the queue, and that is what is on the wire. */
  lemma SendMoves(w: World, h: nat, lost: bool)
    requires CanStep(w, Local(h, SendStep, lost))
    ensures var q, w' := w.hosts[h].pending, WorldNext(w, Local(h, SendStep, lost));
            && [q[0]] + w'.hosts[h].pending == q
            && w'.net == w.net + if lost then {} else {Packet(h, q[0].to, q[0].parms, q[0].port)}
  {
  }

  // ------------------------------------------------------------ where things come from

  /** A query record, and the message it sent, agree with the entry it used. */
  ghost predicate GoodQuery(d: Daemon, handle: Handle) {
    && handle in d.issued
    && var q := d.issued[handle];
       && handle != NULL_HANDLE && q.parms.handle == handle
       && Encodable(q.parms) && q.parms.mt == MT_REQ
       && q.port < |d.table.born| && d.table.born[q.port].local == q.src
       && SameSockAddr(ApAddr(q.parms), q.remote)
       && var mapped := d.table.born[q.port].mapped;
          Family(q.parms.ipVer) == Some(mapped.family) ==> SameSockAddr(MappedAddr(q.parms), mapped)
  }

  /** Host `b`'s entry `port` answers the query `handle` of host `a`. */
  ghost predicate Answers(hosts: seq<Daemon>, a: nat, handle: Handle, b: nat, port: nat) {
    && a < |hosts| && b < |hosts|
    && GoodQuery(hosts[a], handle)
    && hosts[a].issued[handle].to == b
    && port < |hosts[b].table.born|
    && Hit(ApAddr(hosts[a].issued[handle].parms), hosts[b].table.born[port], true)
  }

  ghost predicate GoodMsg(hosts: seq<Daemon>, from: nat, to: nat, p: Parms, port: nat) {
    && Encodable(p)
    && (p.mt == MT_REQ ==>
          Asked(hosts, from, p.handle, to) && hosts[from].issued[p.handle].parms == p)
    && (p.mt == MT_ACC ==>
          Answers(hosts, to, p.handle, from, port)
          && p == AcceptParms(hosts[to].issued[p.handle].parms, hosts[from].table.born[port]))
    && (p.mt == MT_ACK ==> Asked(hosts, from, p.handle, to) && CpAddr(p) == CpAddr(hosts[from].issued[p.handle].parms))
    && (p.mt == MT_REJ ==>
          Asked(hosts, to, p.handle, from) && p == hosts[to].issued[p.handle].parms.(mt := MT_REJ))
  }

  /** Host `a` has started the query `handle` and sent it to host `b`. */
  ghost predicate Asked(hosts: seq<Daemon>, a: nat, handle: Handle, b: nat) {
    a < |hosts| && GoodQuery(hosts[a], handle) && hosts[a].issued[handle].to == b
  }

  /** A report speaks of entry `r.port`, to that entry's owner. */
  ghost predicate Names(hosts: seq<Daemon>, h: nat, r: Report) {
    && h < |hosts| && r.port < |hosts[h].table.born|
    && var e := hosts[h].table.born[r.port];
       r.local == e.local && r.mappedLocal == e.mapped && r.client == e.owner
  }

  ghost predicate GoodReport(hosts: seq<Daemon>, h: nat, r: Report) {
    && Names(hosts, h, r)
    && match r.kind
    case RemoteInfo =>
      && Answers(hosts, r.peer, r.handle, h, r.port)
      && var q := hosts[r.peer].issued[r.handle];
         && r.remote == CpAddr(q.parms) && r.mappedRemote == MappedAddr(q.parms)
    case Accepted =>
      && Answers(hosts, h, r.handle, r.peer, r.peerPort)
      && var q := hosts[h].issued[r.handle];
         && r.remote == q.remote
         && SameSockAddr(CpAddr(q.parms), r.local) && SameSockAddr(r.local, q.src)
         && r.mappedRemote == ApAddr(AcceptParms(q.parms, hosts[r.peer].table.born[r.peerPort]))
    case Rejected =>
      && Asked(hosts, h, r.handle, r.peer)
      && var q := hosts[h].issued[r.handle];
         r.remote == r.mappedRemote == q.remote && SameSockAddr(r.local, q.src)
  }

  ghost predicate GoodPending(hosts: seq<Daemon>, h: nat, pending: seq<SendMsg>) {
    forall i :: 0 <= i < |pending| ==> GoodMsg(hosts, h, pending[i].to, pending[i].parms, pending[i].port)
  }

  ghost predicate GoodReqs(hosts: seq<Daemon>, h: nat, reqs: seq<MapReq>) {
    forall i :: 0 <= i < |reqs| && reqs[i].msg.Some? ==>
      GoodMsg(hosts, h, reqs[i].msg.value.to, reqs[i].msg.value.parms, reqs[i].msg.value.port)
  }

  ghost predicate GoodReports(hosts: seq<Daemon>, h: nat, reports: seq<Report>) {
    forall i :: 0 <= i < |reports| ==> GoodReport(hosts, h, reports[i])
  }

  ghost predicate GoodQueries(d: Daemon) {
    forall handle :: handle in d.issued ==> GoodQuery(d, handle)
  }

  ghost predicate GoodHost(hosts: seq<Daemon>, h: nat, d: Daemon) {
    && DaemonInv(d) && GoodQueries(d)
    && GoodPending(hosts, h, d.pending) && GoodReqs(hosts, h, d.reqs) && GoodReports(hosts, h, d.reports)
  }

  ghost predicate WorldInv(w: World) {
    && (forall h :: 0 <= h < |w.hosts| ==> GoodHost(w.hosts, h, w.hosts[h]))
    && (forall p :: p in w.net ==> GoodMsg(w.hosts, p.from, p.to, p.parms, p.port))
  }

  // ------------------------------------------------------------ records only grow

  ghost predicate Grows(d: Daemon, d': Daemon) {
    && (forall k :: k in d.issued ==> k in d'.issued && d'.issued[k] == d.issued[k])
    && d.table.born <= d'.table.born
  }

  ghost predicate AllGrow(hosts: seq<Daemon>, hosts': seq<Daemon>) {
    |hosts| == |hosts'| && forall h :: 0 <= h < |hosts| ==> Grows(hosts[h], hosts'[h])
  }

  lemma NextGrows(d: Daemon, s: Step)
    requires Enabled(d, s)
    ensures Grows(d, Next(d, s))
  {
  }

  lemma GoodQueryGrows(d: Daemon, d': Daemon, handle: Handle)
    requires Grows(d, d') && GoodQuery(d, handle)
    ensures GoodQuery(d', handle)
  {
  }

  lemma AnswersGrows(hosts: seq<Daemon>, hosts': seq<Daemon>, a: nat, handle: Handle, b: nat, port: nat)
    requires AllGrow(hosts, hosts') && Answers(hosts, a, handle, b, port)
    ensures Answers(hosts', a, handle, b, port)
    ensures hosts'[a].issued[handle] == hosts[a].issued[handle]
    ensures hosts'[b].table.born[port] == hosts[b].table.born[port]
  {
  }

  lemma GoodMsgGrows(hosts: seq<Daemon>, hosts': seq<Daemon>, from: nat, to: nat, p: Parms, port: nat)
    requires AllGrow(hosts, hosts') && GoodMsg(hosts, from, to, p, port)
    ensures GoodMsg(hosts', from, to, p, port)
  {
  }

  lemma GoodReportGrows(hosts: seq<Daemon>, hosts': seq<Daemon>, h: nat, r: Report)
    requires AllGrow(hosts, hosts') && GoodReport(hosts, h, r) && h < |hosts|
    ensures GoodReport(hosts', h, r)
  {
  }

  lemma PartsGrow(hosts: seq<Daemon>, hosts': seq<Daemon>, h: nat, d: Daemon)
    requires AllGrow(hosts, hosts') && h < |hosts|
    requires GoodPending(hosts, h, d.pending) && GoodReqs(hosts, h, d.reqs) && GoodReports(hosts, h, d.reports)
    ensures GoodPending(hosts', h, d.pending) && GoodReqs(hosts', h, d.reqs) && GoodReports(hosts', h, d.reports)
  {
    forall i | 0 <= i < |d.pending|
      ensures GoodMsg(hosts', h, d.pending[i].to, d.pending[i].parms, d.pending[i].port)
    {
      GoodMsgGrows(hosts, hosts', h, d.pending[i].to, d.pending[i].parms, d.pending[i].port);
    }
    forall i | 0 <= i < |d.reqs| && d.reqs[i].msg.Some?
      ensures var m := d.reqs[i].msg.value; GoodMsg(hosts', h, m.to, m.parms, m.port)
    {
      var m := d.reqs[i].msg.value;
      GoodMsgGrows(hosts, hosts', h, m.to, m.parms, m.port);
    }
    forall i | 0 <= i < |d.reports| ensures GoodReport(hosts', h, d.reports[i]) {
      GoodReportGrows(hosts, hosts', h, d.reports[i]);
    }
  }

  // ------------------------------------------------------------ each step keeps them good

  lemma UpdateGrows(hosts: seq<Daemon>, h: nat, s: Step)
    requires h < |hosts| && Enabled(hosts[h], s)
    ensures AllGrow(hosts, hosts[h := Next(hosts[h], s)])
  {
    NextGrows(hosts[h], s);
  }

  lemma QueriesGrow(d: Daemon, d': Daemon)
    requires Grows(d, d') && GoodQueries(d)
    ensures forall k :: k in d.issued ==> GoodQuery(d', k)
  {
  }

  /** What a step of host `h` leaves good: its records, and whatever was good before. */
  lemma StepFrame(hosts: seq<Daemon>, h: nat, s: Step)
    requires h < |hosts| && GoodHost(hosts, h, hosts[h]) && Enabled(hosts[h], s)
    ensures var d, d' := hosts[h], Next(hosts[h], s);
            var hosts' := hosts[h := d'];
            && AllGrow(hosts, hosts') && Grows(d, d') && DaemonInv(d')
            && GoodPending(hosts', h, d.pending) && GoodReqs(hosts', h, d.reqs) && GoodReports(hosts', h, d.reports)
            && (forall k :: k in d.issued ==> GoodQuery(d', k))
  {
    var d' := Next(hosts[h], s);
    StepKeeps(hosts[h], s);
    UpdateGrows(hosts, h, s);
    PartsGrow(hosts, hosts[h := d'], h, hosts[h]);
    QueriesGrow(hosts[h], d');
  }

  lemma QueryParmsGood(local: SockAddr, remote: SockAddr, mapped: SockAddr, handle: Handle, stack: Parms)
    requires IsInet(remote.family)
    ensures var p := QueryParms(local, remote, mapped, handle, stack);
            && Encodable(p) && Family(p.ipVer) == Some(remote.family)
            && SameSockAddr(ApAddr(p), remote)
            && (mapped.family == remote.family ==> SameSockAddr(MappedAddr(p), mapped))
  {
    PackUnpack(remote.family, remote, stack.apIp);
    PackUnpack(remote.family, mapped, stack.mappedIp);
  }

  lemma StartedQueryIsGood(d: Daemon, s: Step)
    requires s.QueryStep? && Enabled(d, s) && DaemonInv(d) && s.handle in Next(d, s).issued
    ensures GoodQuery(Next(d, s), s.handle)
  {
    var e := QueryEntry(d, s.local, s.client, s.noMap, s.bind, s.alloc).value;
    QueryParmsGood(s.local, s.remote, e.mapped, s.handle, s.stack);
    var f := FindMapping(d.table.ports, s.local, true);
    if f.Some? { assert d.table.ports[f.value] == d.table.born[e.id].(refs := e.refs); }
  }

  /** A new message in the queue and in the list. */
  lemma PostedIsGood(hosts: seq<Daemon>, h: nat, m: SendMsg, queued: bool, req: MapReq, d: Daemon)
    requires GoodPending(hosts, h, d.pending) && GoodReqs(hosts, h, d.reqs)
    requires GoodMsg(hosts, h, m.to, m.parms, m.port) && (req.msg.None? || req.msg == Some(m))
    ensures GoodPending(hosts, h, Push(d.pending, queued, m)) && GoodReqs(hosts, h, [req] + d.reqs)
  {
  }

  lemma QueryStepGood(hosts: seq<Daemon>, h: nat, s: Step)
    requires h < |hosts| && GoodHost(hosts, h, hosts[h]) && s.QueryStep? && Enabled(hosts[h], s)
    ensures GoodHost(hosts[h := Next(hosts[h], s)], h, Next(hosts[h], s))
  {
    var d, d' := hosts[h], Next(hosts[h], s);
    var hosts' := hosts[h := d'];
    StepFrame(hosts, h, s);
    if s.handle in d'.issued {
      StartedQueryIsGood(d, s);
      var q := d'.issued[s.handle];
      var m := SendMsg(q.to, q.parms, q.port);
      PostedIsGood(hosts', h, m, s.queued, d'.reqs[0], d);
      assert d'.pending == Push(d.pending, s.queued, m) && d'.reqs == [d'.reqs[0]] + d.reqs;
    }
  }

  lemma TimerStepGood(hosts: seq<Daemon>, h: nat, s: Step)
    requires h < |hosts| && GoodHost(hosts, h, hosts[h]) && s.TimerStep?
    ensures GoodHost(hosts[h := Next(hosts[h], s)], h, Next(hosts[h], s))
  {
    var d, d' := hosts[h], Next(hosts[h], s);
    var hosts' := hosts[h := d'];
    StepFrame(hosts, h, s);
    forall i | 0 <= i < |d'.pending|
      ensures GoodMsg(hosts', h, d'.pending[i].to, d'.pending[i].parms, d'.pending[i].port)
    {
      ResendOrigin(d.reqs, d.pending, s.failed, d'.pending[i]);
    }
    forall i | 0 <= i < |d'.reqs| && d'.reqs[i].msg.Some?
      ensures var m := d'.reqs[i].msg.value; GoodMsg(hosts', h, m.to, m.parms, m.port)
    {
      var j := PassOrigin(d.reqs, i);
    }
  }

  lemma LocalStepGood(hosts: seq<Daemon>, h: nat, s: Step)
    requires h < |hosts| && GoodHost(hosts, h, hosts[h]) && IsLocal(s) && Enabled(hosts[h], s)
    ensures GoodHost(hosts[h := Next(hosts[h], s)], h, Next(hosts[h], s))
  {
    if s.QueryStep? {
      QueryStepGood(hosts, h, s);
    } else if s.TimerStep? {
      TimerStepGood(hosts, h, s);
    } else {
      StepFrame(hosts, h, s);
    }
  }

  /** A message as a handler sees it: the one that was sent, up to fields only a request has. */
  ghost predicate Seen(p: Parms, m: Parms) {
    m == if p.mt == MT_REQ then p else p.(mappedIp := m.mappedIp, mappedPort := m.mappedPort)
  }

  /** The entry found and the entry as first linked answer alike. */
  lemma EntryIsBorn(d: Daemon, i: nat, m: Parms)
    requires DaemonInv(d) && i < |d.table.ports| && Family(m.ipVer).Some?
    ensures var e := d.table.ports[i];
            && e.id < |d.table.born|
            && var b := d.table.born[e.id];
               && b.local == e.local && b.mapped == e.mapped && b.wcard == e.wcard
               && AcceptParms(m, b) == AcceptParms(m, e)
               && (Hit(ApAddr(m), b, true) <==> Hit(ApAddr(m), e, true))
  {
  }

  /** The answer to a request whose entry was found. */
  lemma AnswerPartsGood(hosts: seq<Daemon>, h: nat, d: Daemon, i: nat, s: Step)
    requires h < |hosts| && DaemonInv(d) && Grows(d, hosts[h]) && i < |d.table.ports|
    requires GoodPending(hosts, h, d.pending) && GoodReqs(hosts, h, d.reqs) && GoodReports(hosts, h, d.reports)
    requires s.RequestStep? && Asked(hosts, s.from, s.m.handle, h) && hosts[s.from].issued[s.m.handle].parms == s.m
    requires Hit(ApAddr(s.m), d.table.ports[i], true)
    ensures var d' := AnswerRequest(d, s.from, s.m, d.table.ports[i], s.alloc, s.own, s.queued, s.answered);
            GoodPending(hosts, h, d'.pending) && GoodReqs(hosts, h, d'.reqs) && GoodReports(hosts, h, d'.reports)
  {
    var e, m := d.table.ports[i], s.m;
    EntryIsBorn(d, i, m);
    assert Answers(hosts, s.from, m.handle, h, e.id);
    var acc := SendMsg(s.from, AcceptParms(m, e), e.id);
    assert GoodMsg(hosts, h, acc.to, acc.parms, acc.port);
    PostedIsGood(hosts, h, acc, s.queued, AcceptReq(m, acc, s.own), d);
    assert GoodReport(hosts, h, RemoteInfoReport(m, s.from, e));
  }

  lemma RequestStepGood(hosts: seq<Daemon>, h: nat, p: Packet, s: Step)
    requires h < |hosts| && GoodHost(hosts, h, hosts[h]) && s.RequestStep? && Enabled(hosts[h], s)
    requires GoodMsg(hosts, p.from, p.to, p.parms, p.port) && p.to == h && p.parms.mt == MT_REQ
    requires s.from == p.from && s.m == p.parms
    ensures GoodHost(hosts[h := Next(hosts[h], s)], h, Next(hosts[h], s))
  {
    var d, d', m := hosts[h], Next(hosts[h], s), s.m;
    var hosts' := hosts[h := d'];
    StepFrame(hosts, h, s);
    GoodQueryGrows(hosts[p.from], hosts'[p.from], m.handle);
    var f := FindMapping(d.table.ports, ApAddr(m), true);
    if f.Some? {
      AnswerPartsGood(hosts', h, d, f.value, s);
    } else {
      assert GoodMsg(hosts', h, p.from, m.(mt := MT_REJ), 0);
    }
  }

  /** The accept a host sees carries back the request's connecting address and names the
      answering entry's mapped address. */
  lemma AcceptCarries(q: Parms, e: PortEntry, m: Parms)
    requires Encodable(q) && Seen(AcceptParms(q, e), m)
    ensures Encodable(m) && m.handle == q.handle && m.ipVer == q.ipVer
    ensures CpAddr(m) == CpAddr(q) && ApAddr(m) == ApAddr(AcceptParms(q, e))
    ensures Encodable(m.(mt := MT_ACK))
  {
    var acc := AcceptParms(q, e);
    assert acc.mt == MT_ACC && acc.ipVer == q.ipVer && acc.ver == q.ver && acc.handle == q.handle;
    assert m.ipVer == acc.ipVer && m.apIp == acc.apIp && m.apPort == acc.apPort;
  }

  /** The report an accept leads to. */
  lemma AcceptedIsGood(hosts: seq<Daemon>, h: nat, d: Daemon, from: nat, tag: nat, m: Parms, i: nat, k: nat)
    requires h < |hosts| && DaemonInv(d) && Grows(d, hosts[h])
    requires m.handle in d.issued && Answers(hosts, h, m.handle, from, tag)
    requires Seen(AcceptParms(hosts[h].issued[m.handle].parms, hosts[from].table.born[tag]), m)
    requires i < |d.table.ports| && k < |d.reqs| && Encodable(m)
    requires SameSockAddr(CpAddr(m), d.table.ports[i].local)
    requires Matches(d.reqs[k], m.handle, {Query, Ack}, d.table.ports[i].local)
    ensures GoodReport(hosts, h, AcceptedReport(m, from, tag, d.table.ports[i], d.reqs[k]))
  {
    AcceptCarries(hosts[h].issued[m.handle].parms, hosts[from].table.born[tag], m);
    EntryIsBorn(d, i, m);
    assert ReqInv(d.reqs[k], d.issued);
  }

  lemma AckIsGood(hosts: seq<Daemon>, h: nat, from: nat, tag: nat, m: Parms)
    requires h < |hosts| && Answers(hosts, h, m.handle, from, tag) && Encodable(m)
    requires Seen(AcceptParms(hosts[h].issued[m.handle].parms, hosts[from].table.born[tag]), m)
    ensures GoodMsg(hosts, h, from, m.(mt := MT_ACK), 0)
  {
    AcceptCarries(hosts[h].issued[m.handle].parms, hosts[from].table.born[tag], m);
  }

  lemma AcceptPartsGood(hosts: seq<Daemon>, h: nat, d: Daemon, from: nat, tag: nat, m: Parms,
                        answered: bool, alloc: bool, queued: bool)
    requires h < |hosts| && DaemonInv(d) && Grows(d, hosts[h])
    requires GoodPending(hosts, h, d.pending) && GoodReqs(hosts, h, d.reqs) && GoodReports(hosts, h, d.reports)
    requires m.handle in d.issued && Answers(hosts, h, m.handle, from, tag) && Encodable(m)
    requires Seen(AcceptParms(hosts[h].issued[m.handle].parms, hosts[from].table.born[tag]), m)
    ensures var d' := WireAccept(d, from, m, tag, answered, alloc, queued);
            GoodPending(hosts, h, d'.pending) && GoodReqs(hosts, h, d'.reqs) && GoodReports(hosts, h, d'.reports)
  {
    var ack := SendMsg(from, m.(mt := MT_ACK), 0);
    AckIsGood(hosts, h, from, tag, m);
    var f := FindSame(d.table.ports, CpAddr(m));
    if f.Some? {
      var e := d.table.ports[f.value];
      var k := FindReq(d.reqs, m.handle, {Query, Ack}, e.local);
      if k.Some? {
        var d1 := d.(reqs := Service(d.reqs, m.handle, {Query, Ack}, e.local));
        ServedIsGood(hosts, h, d, m, e.local);
        PostedIsGood(hosts, h, ack, queued, AckReq(d.reqs[k.value]), d1);
        AcceptedIsGood(hosts, h, d, from, tag, m, f.value, k.value);
      }
    }
  }

  lemma AcceptStepGood(hosts: seq<Daemon>, h: nat, p: Packet, s: Step)
    requires h < |hosts| && GoodHost(hosts, h, hosts[h]) && s.AcceptStep? && Enabled(hosts[h], s)
    requires GoodMsg(hosts, p.from, p.to, p.parms, p.port) && p.to == h && p.parms.mt == MT_ACC
    requires s.from == p.from && s.tag == p.port && Seen(p.parms, s.m)
    ensures GoodHost(hosts[h := Next(hosts[h], s)], h, Next(hosts[h], s))
  {
    var d, d' := hosts[h], Next(hosts[h], s);
    StepFrame(hosts, h, s);
    AcceptKeepsIssued(d, s);
    AcceptInWorld(hosts, hosts[h := d'], h, p, s);
  }

  lemma AcceptKeepsIssued(d: Daemon, s: Step)
    requires s.AcceptStep? && Enabled(d, s)
    ensures Next(d, s).issued == d.issued
  {
  }

  /** An accept at host `h`, judged in the world after it. */
  lemma AcceptInWorld(hosts: seq<Daemon>, hosts': seq<Daemon>, h: nat, p: Packet, s: Step)
    requires h < |hosts| && DaemonInv(hosts[h]) && AllGrow(hosts, hosts')
    requires GoodPending(hosts', h, hosts[h].pending) && GoodReqs(hosts', h, hosts[h].reqs)
    requires GoodReports(hosts', h, hosts[h].reports) && s.AcceptStep? && Enabled(hosts[h], s)
    requires GoodMsg(hosts, p.from, p.to, p.parms, p.port) && p.to == h && p.parms.mt == MT_ACC
    requires s.from == p.from && s.tag == p.port && Seen(p.parms, s.m)
    ensures var d' := Next(hosts[h], s);
            GoodPending(hosts', h, d'.pending) && GoodReqs(hosts', h, d'.reqs) && GoodReports(hosts', h, d'.reports)
  {
    AnswersGrows(hosts, hosts', h, p.parms.handle, p.from, p.port);
    AcceptCarries(hosts[h].issued[p.parms.handle].parms, hosts[p.from].table.born[p.port], s.m);
    AcceptPartsGood(hosts', h, hosts[h], p.from, p.port, s.m, s.answered, s.alloc, s.queued);
  }

  lemma ServedIsGood(hosts: seq<Daemon>, h: nat, d: Daemon, m: Parms, src: SockAddr)
    requires GoodReqs(hosts, h, d.reqs)
    ensures GoodReqs(hosts, h, Service(d.reqs, m.handle, {Query, Ack}, src))
  {
  }

  /** The report a reject leads to. */
  lemma RejectedIsGood(hosts: seq<Daemon>, h: nat, d: Daemon, from: nat, m: Parms, i: nat, k: nat)
    requires h < |hosts| && DaemonInv(d) && Grows(d, hosts[h])
    requires m.handle in d.issued && Asked(hosts, h, m.handle, from)
    requires i < |d.table.ports| && k < |d.reqs| && Family(m.ipVer).Some?
    requires Matches(d.reqs[k], m.handle, {Query}, d.table.ports[i].local)
    ensures GoodReport(hosts, h, RejectedReport(from, d.table.ports[i], d.reqs[k]))
  {
  }

  /** A reject or an ack keeps every message and, but for a rejection, every report. */
  lemma OtherParts(d: Daemon, s: Step)
    requires (s.RejectStep? || s.AckStep?) && Enabled(d, s)
    ensures var d' := Next(d, s);
            && d'.pending == d.pending && d'.issued == d.issued && d'.table == d.table
            && |d'.reqs| == |d.reqs| && (forall i :: 0 <= i < |d.reqs| ==> d'.reqs[i].msg == d.reqs[i].msg)
            && (s.AckStep? ==> d'.reports == d.reports)
  {
  }

  lemma RejectReports(hosts: seq<Daemon>, h: nat, d: Daemon, s: Step)
    requires h < |hosts| && DaemonInv(d) && Grows(d, hosts[h]) && s.RejectStep? && Enabled(d, s)
    requires s.m.handle in d.issued && Asked(hosts, h, s.m.handle, s.from) && GoodReports(hosts, h, d.reports)
    ensures GoodReports(hosts, h, Next(d, s).reports)
  {
    var f := FindSame(d.table.ports, CpAddr(s.m));
    if f.Some? {
      var k := FindReq(d.reqs, s.m.handle, {Query}, d.table.ports[f.value].local);
      if k.Some? { RejectedIsGood(hosts, h, d, s.from, s.m, f.value, k.value); }
    }
  }

  lemma OtherStepGood(hosts: seq<Daemon>, h: nat, p: Packet, s: Step)
    requires h < |hosts| && GoodHost(hosts, h, hosts[h]) && (s.RejectStep? || s.AckStep?) && Enabled(hosts[h], s)
    requires GoodMsg(hosts, p.from, p.to, p.parms, p.port) && p.to == h && Seen(p.parms, s.m) && s.from == p.from
    requires s.RejectStep? ==> p.parms.mt == MT_REJ
    ensures GoodHost(hosts[h := Next(hosts[h], s)], h, Next(hosts[h], s))
  {
    var d, d' := hosts[h], Next(hosts[h], s);
    var hosts' := hosts[h := d'];
    StepFrame(hosts, h, s);
    OtherParts(d, s);
    if s.RejectStep? {
      GoodQueryGrows(d, d', p.parms.handle);
      RejectReports(hosts', h, d, s);
    }
  }

  /** What a handler is given is what was sent. */
  lemma WhatArrives(p: Packet, rest: seq<Byte>, stale: Parms, step: Step)
    requires Encodable(p.parms) && |rest| == REQUEST_SIZE - MESSAGE_SIZE
    requires Receive(Sent(p.parms), rest, stale).Some?
    requires Dispatches(p, Receive(Sent(p.parms), rest, stale).value, step)
    ensures step.RequestStep? || step.AcceptStep? || step.RejectStep? || step.AckStep?
    ensures step.from == p.from && Seen(p.parms, step.m) && step.m.mt == p.parms.mt
    ensures step.AcceptStep? ==> step.tag == p.port && p.parms.mt == MT_ACC
    ensures step.RequestStep? ==> p.parms.mt == MT_REQ
    ensures step.RejectStep? ==> p.parms.mt == MT_REJ
  {
    TransportRoundTrip(p.parms, rest, stale);
  }

  lemma DeliverGood(w: World, s: WorldStep)
    requires WorldInv(w) && CanStep(w, s) && s.Deliver?
    ensures GoodHost(w.hosts[s.packet.to := Next(w.hosts[s.packet.to], s.step)], s.packet.to,
                     Next(w.hosts[s.packet.to], s.step))
  {
    var p := s.packet;
    WhatArrives(p, s.rest, s.stale, s.step);
    ArrivalGood(w.hosts, p.to, p, s.step);
  }

  lemma ArrivalGood(hosts: seq<Daemon>, h: nat, p: Packet, step: Step)
    requires h < |hosts| && GoodHost(hosts, h, hosts[h]) && Enabled(hosts[h], step)
    requires GoodMsg(hosts, p.from, p.to, p.parms, p.port) && p.to == h
    requires step.RequestStep? || step.AcceptStep? || step.RejectStep? || step.AckStep?
    requires step.from == p.from && Seen(p.parms, step.m)
    requires step.AcceptStep? ==> step.tag == p.port && p.parms.mt == MT_ACC
    requires step.RequestStep? ==> p.parms.mt == MT_REQ
    requires step.RejectStep? ==> p.parms.mt == MT_REJ
    ensures GoodHost(hosts[h := Next(hosts[h], step)], h, Next(hosts[h], step))
  {
    if step.RequestStep? {
      RequestStepGood(hosts, h, p, step);
    } else if step.AcceptStep? {
      AcceptStepGood(hosts, h, p, step);
    } else {
      OtherStepGood(hosts, h, p, step);
    }
  }

  lemma WorldStepKeeps(w: World, s: WorldStep)
    requires WorldInv(w) && CanStep(w, s)
    ensures WorldInv(WorldNext(w, s))
  {
    var w' := WorldNext(w, s);
    var h := if s.Local? then s.host else s.packet.to;
    if s.Local? { LocalStepGood(w.hosts, h, s.step); } else { DeliverGood(w, s); }
    UpdateGrows(w.hosts, h, s.step);
    forall g | 0 <= g < |w'.hosts| && g != h ensures GoodHost(w'.hosts, g, w'.hosts[g]) {
      PartsGrow(w.hosts, w'.hosts, g, w.hosts[g]);
    }
    forall p | p in w'.net ensures GoodMsg(w'.hosts, p.from, p.to, p.parms, p.port) {
      if p in w.net {
        GoodMsgGrows(w.hosts, w'.hosts, p.from, p.to, p.parms, p.port);
      } else {
        var m := w.hosts[h].pending[0];
        GoodMsgGrows(w.hosts, w'.hosts, h, m.to, m.parms, m.port);
      }
    }
  }

  lemma StartIsGood(w: World)
    requires w.net == {} && forall h :: 0 <= h < |w.hosts| ==> w.hosts[h] == INIT
    ensures WorldInv(w)
  {
  }

  lemma {:induction false} WorldRunKeeps(worlds: seq<World>, steps: seq<WorldStep>, n: nat)
    requires IsWorldRun(worlds, steps) && n <= |steps|
    ensures WorldInv(worlds[n])
  {
    if n == 0 {
      StartIsGood(worlds[0]);
    } else {
      WorldRunKeeps(worlds, steps, n - 1);
      WorldStepKeeps(worlds[n - 1], steps[n - 1]);
    }
  }

  // ------------------------------------------------------------ agreement

  /** The entry is still in the table. */
  ghost predicate StillMapped(d: Daemon, port: nat) { Linked(d.table.ports, port) }

  /** Host `a` has told its client that a query was accepted, host `b` its own of that query. */
  ghost predicate BothTold(hosts: seq<Daemon>, a: nat, b: nat, active: Report, passive: Report) {
    && a < |hosts| && b < |hosts| && active in hosts[a].reports && passive in hosts[b].reports
    && active.kind == Accepted && passive.kind == RemoteInfo
    && active.handle == passive.handle && passive.peer == a
  }

  /** No entry that had a part in it has been removed since. */
  ghost predicate Undisturbed(hosts: seq<Daemon>, a: nat, b: nat, active: Report, passive: Report)
    requires a < |hosts| && b < |hosts|
  {
    && StillMapped(hosts[a], active.port)
    && (active.handle in hosts[a].issued ==> StillMapped(hosts[a], hosts[a].issued[active.handle].port))
    && StillMapped(hosts[b], active.peerPort) && StillMapped(hosts[b], passive.port)
  }

  /** In every run, whenever the active host `a` has told its client that the query was
      accepted and the passive host `b` has told its client of the same query, and none of
      the entries they speak of has been removed since: local and remote, and mapped local
      and mapped remote, are the same addresses seen from the two ends. A passive wildcard
      entry names no address of its own: the active end connects to the address it asked for, on
      the port the passive end has mapped. */
  lemma Agreement(worlds: seq<World>, steps: seq<WorldStep>, n: nat, a: nat, b: nat, active: Report, passive: Report)
    requires IsWorldRun(worlds, steps) && n <= |steps|
    requires BothTold(worlds[n].hosts, a, b, active, passive)
    requires Undisturbed(worlds[n].hosts, a, b, active, passive)
    requires !IsWildcard(active.remote) || IsWildcard(passive.local)
    ensures active.peer == b
    ensures SameSockAddr(active.local, passive.remote)
    ensures SameSockAddr(active.mappedLocal, passive.mappedRemote)
    ensures GetPort(active.mappedRemote) == GetPort(passive.mappedLocal)
    ensures GetPort(active.remote) == GetPort(passive.local)
    ensures !IsWildcard(passive.local) ==>
              && SameSockAddr(active.remote, passive.local)
              && SameSockAddr(active.mappedRemote, passive.mappedLocal)
    ensures IsWildcard(passive.local) ==>
              SameSockAddr(active.mappedRemote, active.remote.(port := GetPort(passive.mappedLocal)))
  {
    WorldRunKeeps(worlds, steps, n);
    var hosts := worlds[n].hosts;
    assert GoodReport(hosts, a, active) && GoodReport(hosts, b, passive);
    var q := hosts[a].issued[active.handle];
    var ap := ApAddr(q.parms);
    SameLocalIsSameEntry(hosts[a].table, active.port, q.port);
    assert BornInv(hosts[a].table.born[q.port]) && BornInv(hosts[b].table.born[passive.port]);
    SameHitIsSameEntry(hosts[b].table, ap, active.peerPort, passive.port);
    MirrorAddresses(q.parms, hosts[b].table.born[passive.port]);
  }

  /** In every run a rejection tells the owner of a mapping about a query of this host: it comes
      from the host that was asked, names the address that was asked for, and carries the header
      of the client message. */
  lemma RejectionAnswersQuery(worlds: seq<World>, steps: seq<WorldStep>, n: nat, h: nat, r: Report)
    requires IsWorldRun(worlds, steps) && n <= |steps| && h < |worlds[n].hosts|
    requires r in worlds[n].hosts[h].reports && r.kind == Rejected
    ensures r.handle in worlds[n].hosts[h].issued && Names(worlds[n].hosts, h, r)
    ensures var q := worlds[n].hosts[h].issued[r.handle];
            && r.peer == q.to && r.nl == q.nl && r.remote == r.mappedRemote == q.remote
            && Family(q.parms.ipVer).Some? && SameSockAddr(ApAddr(q.parms), r.remote)
            && SameSockAddr(r.local, q.src)
  {
    WorldRunKeeps(worlds, steps, n);
    assert GoodReport(worlds[n].hosts, h, r);
  }

  /** The accept built from an entry names the entry's mapped address; built from a wildcard entry,
      it names the address that was asked for, on the entry's mapped port. */
  lemma MirrorAddresses(q: Parms, e: PortEntry)
    requires Encodable(q) && BornInv(e) && Hit(ApAddr(q), e, true)
    requires IsInet(e.local.family) || e.wcard
    ensures GetPort(ApAddr(AcceptParms(q, e))) == GetPort(e.mapped)
    ensures !e.wcard && !IsWildcard(ApAddr(q)) ==> SameSockAddr(ApAddr(AcceptParms(q, e)), e.mapped)
    ensures e.wcard ==> SameSockAddr(ApAddr(AcceptParms(q, e)), ApAddr(q).(port := GetPort(e.mapped)))
  {
    PackUnpack(Family(q.ipVer).value, e.mapped, q.apIp);
  }
}
