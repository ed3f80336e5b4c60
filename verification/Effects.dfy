/** What a client or a peer gets from each message: which request is then tracked, which message
    is queued and what it says, and which client is told what. */
module Effects {
  import opened Options
  import opened SockAddrs
  import opened WireMsgs
  import opened PortTables
  import opened MapRequests
  import opened Daemons
  import opened Networks
  import opened RefCounts

  /** One request more at the head of the list, open and with its whole wait before it. */
  ghost predicate Tracked(was: seq<MapReq>, now: seq<MapReq>, kind: Kind, handle: Handle) {
    && now != [] && now[1..] == was
    && now[0].kind == kind && now[0].handle == handle && now[0].timeout == 10 && !now[0].complete
  }

  /** One message more at the head of the queue, if there was memory for it. */
  ghost predicate Queued(was: seq<SendMsg>, now: seq<SendMsg>, memory: bool, m: SendMsg) {
    if memory then now != [] && now[0] == m && now[1..] == was else now == was
  }

  /** A message of type `mt` that carries on with query `handle`. */
  ghost predicate Says(m: SendMsg, to: nat, mt: Byte, handle: Handle) {
    m.to == to && m.parms.mt == mt && m.parms.handle == handle && Family(m.parms.ipVer).Some?
  }

  // ------------------------------------------------------------ a client's query

  /** The query's message asks its host for the remote address and names the local address and the
      one entry `e` maps it to, as far as they are of the remote one's family. */
  ghost predicate AsksFor(m: SendMsg, s: Step, e: PortEntry)
    requires s.QueryStep?
  {
    && Says(m, s.to, 0, s.handle) && Family(m.parms.ipVer) == Some(s.remote.family)
    && m.parms.ver == 0 && m.parms.pmtime == 0
    && SameSockAddr(ApAddr(m.parms), s.remote)
    && (SameSockAddr(CpAddr(m.parms), s.local) <==> s.local.family == s.remote.family)
    && (SameSockAddr(MappedAddr(m.parms), e.mapped) <==> e.mapped.family == s.remote.family)
  }

  /** The query is tracked with its client's header, and its message goes out to its host, from an
      entry for its local address. */
  ghost predicate Started(d: Daemon, s: Step, d': Daemon)
    requires s.QueryStep?
  {
    && Tracked(d.reqs, d'.reqs, Query, s.handle) && d'.reports == d.reports
    && d'.reqs[0].nl == s.nl && d'.reqs[0].remote == s.remote && d'.reqs[0].msg.Some?
    && var m := d'.reqs[0].msg.value;
       && Linked(d'.table.ports, m.port) && m.port < |d'.table.born|
       && var e := d'.table.born[m.port];
          && (e.local == s.local || Hit(s.local, e, true)) && d'.reqs[0].src == e.local
          && AsksFor(m, s, e) && Queued(d.pending, d'.pending, s.queued, m)
  }

  lemma QueryAsks(e: PortEntry, s: Step, m: SendMsg)
    requires s.QueryStep? && IsInet(s.remote.family) && m.to == s.to
    requires m.parms == QueryParms(s.local, s.remote, e.mapped, s.handle, s.stack)
    ensures AsksFor(m, s, e)
  {
    PackUnpack(s.remote.family, s.remote, s.stack.apIp);
    PackUnpack(s.remote.family, s.local, s.stack.cpIp);
    PackUnpack(s.remote.family, e.mapped, s.stack.mappedIp);
  }

  /** The entry a started query uses is for its local address. */
  lemma QueryLinks(d: Daemon, s: Step)
    requires s.QueryStep? && Enabled(d, s) && DaemonInv(d) && CanStart(d, s)
    ensures var e := QueryEntry(d, s.local, s.client, s.noMap, s.bind, s.alloc).value;
            var (t, id) := QueryTable(d, s.local, e);
            && Linked(t.ports, id) && id < |t.born| && (t.born[id].local == s.local || Hit(s.local, t.born[id], true))
            && t.born[id].local == e.local && t.born[id].mapped == e.mapped
  {
    var e := QueryEntry(d, s.local, s.client, s.noMap, s.bind, s.alloc).value;
    var f := FindMapping(d.table.ports, s.local, true);
    var t := QueryTable(d, s.local, e).0;
    assert t.ports[if f.Some? then f.value else 0].id == QueryTable(d, s.local, e).1;
  }

  lemma QueryIdles(d: Daemon, s: Step)
    requires s.QueryStep? && Enabled(d, s) && DaemonInv(d) && !CanStart(d, s)
    ensures Next(d, s) == d
  {
  }

  /** What a started query leaves behind, by its parts. */
  lemma QueryPosts(d: Daemon, s: Step)
    requires s.QueryStep? && Enabled(d, s) && DaemonInv(d) && CanStart(d, s)
    ensures var e := QueryEntry(d, s.local, s.client, s.noMap, s.bind, s.alloc).value;
            var (t, id) := QueryTable(d, s.local, e);
            var d' := Next(d, s);
            && d'.table == t && d'.reports == d.reports
            && Tracked(d.reqs, d'.reqs, Query, s.handle) && d'.reqs[0].src == e.local
            && d'.reqs[0].nl == s.nl && d'.reqs[0].remote == s.remote
            && var m := SendMsg(s.to, QueryParms(s.local, s.remote, e.mapped, s.handle, s.stack), id);
               d'.reqs[0].msg == Some(m) && Queued(d.pending, d'.pending, s.queued, m)
  {
  }

  /** A query is started if and only if it can be; otherwise nothing changes. */
  lemma QueryEffect(d: Daemon, s: Step)
    requires s.QueryStep? && Enabled(d, s) && DaemonInv(d)
    ensures if CanStart(d, s) then Started(d, s, Next(d, s)) else Next(d, s) == d
  {
    if CanStart(d, s) {
      QueryLinks(d, s);
      QueryPosts(d, s);
      var m := Next(d, s).reqs[0].msg.value;
      QueryAsks(Next(d, s).table.born[m.port], s, m);
    } else {
      QueryIdles(d, s);
    }
  }

  // ------------------------------------------------------------ a peer's request

  /** What every answer copies from the message `m` it answers. */
  ghost predicate Copies(m: Parms, x: Parms)
    requires Family(m.ipVer).Some?
  {
    x.ipVer == m.ipVer && x.ver == m.ver && x.pmtime == m.pmtime && CpAddr(x) == CpAddr(m)
  }

  /** The message goes back to where `m` came from, with its addresses. */
  ghost predicate SendsBack(m: Parms, x: SendMsg, from: nat, mt: Byte)
    requires Family(m.ipVer).Some?
  {
    Says(x, from, mt, m.handle) && Copies(m, x.parms) && ApAddr(x.parms) == ApAddr(m)
  }

  /** A request for an address that is not mapped is answered by a reject, and changes nothing else. */
  lemma UnmappedIsRefused(d: Daemon, s: Step)
    requires s.RequestStep? && Enabled(d, s) && FindMapping(d.table.ports, ApAddr(s.m), true).None?
    ensures var d' := Next(d, s);
            && d' == d.(pending := d'.pending) && (!s.queued ==> d' == d)
            && (s.queued ==>
                  d'.pending != [] && Queued(d.pending, d'.pending, true, d'.pending[0])
                  && SendsBack(s.m, d'.pending[0], s.from, 3))
  {
  }

  /** Where a peer that asked for `asked` and found entry `e` is told to connect: for a wildcard
      entry there, on the mapped port; otherwise the mapped address, in the family of `asked`. */
  function MappedAs(asked: SockAddr, e: PortEntry): SockAddr
    requires IsInet(asked.family)
  {
    if e.wcard then asked.(port := GetPort(e.mapped))
    else Unpack(asked.family, PackIp(asked.family, e.mapped, ZERO_IP), e.mapped.port)
  }

  /** Client `e.owner` is told who will connect to it. */
  ghost predicate TellsOfPeer(r: Report, s: Step, e: PortEntry)
    requires s.RequestStep? && Family(s.m.ipVer).Some?
  {
    && r.kind == RemoteInfo && r.client == e.owner && r.handle == s.m.handle && r.peer == s.from
    && r.local == e.local && r.mappedLocal == e.mapped
    && r.remote == CpAddr(s.m) && r.mappedRemote == MappedAddr(s.m)
  }

  /** One report more, which tells of the peer, if its accept was queued and the client can be told. */
  ghost predicate Tells(d: Daemon, s: Step, e: PortEntry, d': Daemon)
    requires s.RequestStep? && Family(s.m.ipVer).Some?
  {
    if s.queued && s.answered then
      |d'.reports| == |d.reports| + 1 && d'.reports[..|d.reports|] == d.reports
      && TellsOfPeer(d'.reports[|d.reports|], s, e)
    else d'.reports == d.reports
  }

  /** The accept for a request is tracked under the mapped address and queued, and the entry's
      owner is told. */
  ghost predicate Accepts(d: Daemon, s: Step, e: PortEntry, d': Daemon)
    requires s.RequestStep? && Family(s.m.ipVer).Some?
  {
    && d'.table == d.table && d'.issued == d.issued && Tells(d, s, e, d')
    && Tracked(d.reqs, d'.reqs, Accept, if s.m.handle == NULL_HANDLE then s.own else s.m.handle)
    && d'.reqs[0].msg.Some? && d'.reqs[0].src == MappedAs(ApAddr(s.m), e) && d'.reqs[0].remote == CpAddr(s.m)
    && var acc := d'.reqs[0].msg.value;
       && Says(acc, s.from, 1, s.m.handle) && Copies(s.m, acc.parms)
       && ApAddr(acc.parms) == MappedAs(ApAddr(s.m), e) && Queued(d.pending, d'.pending, s.queued, acc)
  }

  /** Request `r` tracks an accept with the handle of `m` and the address `e` is mapped to for it. */
  ghost predicate Repeats(r: MapReq, m: Parms, e: PortEntry)
    requires Family(m.ipVer).Some?
  {
    r.kind == Accept && r.handle == m.handle && SameSockAddr(MappedAs(ApAddr(m), e), r.src)
  }

  /** The address an accept names. */
  lemma AcceptNames(m: Parms, e: PortEntry)
    requires Family(m.ipVer).Some?
    ensures ApAddr(AcceptParms(m, e)) == MappedAs(ApAddr(m), e)
  {
  }

  lemma AnswerAccepts(d: Daemon, s: Step, e: PortEntry)
    requires s.RequestStep? && Enabled(d, s) && s.alloc
    requires FindReq(d.reqs, s.m.handle, {Accept}, ApAddr(AcceptParms(s.m, e))).None?
    ensures Accepts(d, s, e, AnswerRequest(d, s.from, s.m, e, s.alloc, s.own, s.queued, s.answered))
  {
    AcceptNames(s.m, e);
  }

  /** A request for a mapped address is accepted if there is memory and no accept with its handle
      and mapped address is tracked yet; otherwise it changes nothing. */
  lemma MappedIsAccepted(d: Daemon, s: Step, i: nat)
    requires s.RequestStep? && Enabled(d, s) && FindMapping(d.table.ports, ApAddr(s.m), true) == Some(i)
    ensures if s.alloc && forall k :: 0 <= k < |d.reqs| ==> !Repeats(d.reqs[k], s.m, d.table.ports[i])
            then Accepts(d, s, d.table.ports[i], Next(d, s))
            else Next(d, s) == d
  {
    var e := d.table.ports[i];
    AcceptNames(s.m, e);
    var f := FindReq(d.reqs, s.m.handle, {Accept}, ApAddr(AcceptParms(s.m, e)));
    if f.Some? {
      assert Repeats(d.reqs[f.value], s.m, e);
    } else if s.alloc {
      AnswerAccepts(d, s, e);
    }
  }

  // ------------------------------------------------------------ a peer's reply

  /** The query at position `k` is the one a reply is for: it has the reply's handle and the reply
      names the address it was started from, which is mapped at `i`. */
  ghost predicate ReplyTo(d: Daemon, m: Parms, i: nat, k: nat)
    requires Family(m.ipVer).Some?
  {
    && i < |d.table.ports| && SameSockAddr(CpAddr(m), d.table.ports[i].local)
    && k < |d.reqs| && d.reqs[k].handle == m.handle && SameSockAddr(d.table.ports[i].local, d.reqs[k].src)
  }

  /** The list with the query at `k` closed, so that the next timer pass drops it. */
  ghost predicate Closes(was: seq<MapReq>, now: seq<MapReq>, k: nat) {
    && |now| == |was| && k < |was| && now[k] == was[k].(complete := true, timeout := 0)
    && forall j :: 0 <= j < |was| && j != k ==> now[j] == was[j]
  }

  /** One report more: the verdict on query `q`, to the owner of entry `e`. */
  ghost predicate Concludes(was: seq<Report>, now: seq<Report>, kind: ReportKind, e: PortEntry, q: MapReq) {
    && |now| == |was| + 1 && now[..|was|] == was
    && var r := now[|was|];
       && r.kind == kind && r.handle == q.handle && r.nl == q.nl && r.client == e.owner
       && r.local == e.local && r.mappedLocal == e.mapped && r.remote == q.remote
  }

  /** The first request of `kinds` that a reply matches. */
  lemma ReplyFinds(d: Daemon, m: Parms, kinds: set<Kind>, i: nat, k: nat)
    requires Family(m.ipVer).Some? && DaemonInv(d) && ReplyTo(d, m, i, k) && d.reqs[k].kind in kinds
    requires forall j :: 0 <= j < |d.reqs| && j != k && d.reqs[j].kind in kinds ==> d.reqs[j].handle != m.handle
    ensures FindSame(d.table.ports, CpAddr(m)) == Some(i)
    ensures FindReq(d.reqs, m.handle, kinds, d.table.ports[i].local) == Some(k)
  {
    OnlyOneSame(d.table, CpAddr(m), i);
  }

  /** A reject for an open query closes it and, if the client can be told, adds its one verdict:
      that the query was rejected. */
  lemma RejectIsReported(d: Daemon, s: Step, i: nat, k: nat)
    requires s.RejectStep? && Enabled(d, s) && DaemonInv(d) && ReplyTo(d, s.m, i, k)
    requires d.reqs[k].kind == Query && !d.reqs[k].complete
    ensures var d' := Next(d, s);
            && d'.table == d.table && d'.pending == d.pending && d'.issued == d.issued
            && Closes(d.reqs, d'.reqs, k)
            && (if s.answered then
                  Concludes(d.reports, d'.reports, Rejected, d.table.ports[i], d.reqs[k])
                  && d'.reports[|d.reports|].mappedRemote == d.reqs[k].remote
                else d'.reports == d.reports)
  {
    ReplyFinds(d, s.m, {Query}, i, k);
  }

  /** One ack more on the queue, back to where the accept came from, if there was memory for it. */
  ghost predicate AckGoesOut(d: Daemon, s: Step, d': Daemon)
    requires s.AcceptStep? && Family(s.m.ipVer).Some?
  {
    if s.queued then
      && d'.pending != [] && Queued(d.pending, d'.pending, true, d'.pending[0])
      && SendsBack(s.m, d'.pending[0], s.from, 2)
    else d'.pending == d.pending
  }

  /** An accept for an open query closes it and, if the client can be told, adds its one verdict:
      where to connect. With memory for it the accept is acknowledged and that is tracked. */
  lemma AcceptIsReported(d: Daemon, s: Step, i: nat, k: nat)
    requires s.AcceptStep? && Enabled(d, s) && DaemonInv(d) && ReplyTo(d, s.m, i, k)
    requires d.reqs[k].kind == Query && !d.reqs[k].complete
    requires forall j :: 0 <= j < |d.reqs| && d.reqs[j].kind == Ack ==> d.reqs[j].handle != s.m.handle
    ensures var d' := Next(d, s);
            && d'.table == d.table && d'.issued == d.issued
            && (if s.answered then
                  Concludes(d.reports, d'.reports, Accepted, d.table.ports[i], d.reqs[k])
                  && d'.reports[|d.reports|].mappedRemote == ApAddr(s.m)
                else d'.reports == d.reports)
            && (if s.answered && s.alloc then
                  && Tracked(d'.reqs[1..], d'.reqs, Ack, s.m.handle) && Closes(d.reqs, d'.reqs[1..], k)
                  && d'.reqs[0].src == d.reqs[k].src && d'.reqs[0].msg.None?
                else Closes(d.reqs, d'.reqs, k))
  {
    ReplyFinds(d, s.m, {Query, Ack}, i, k);
  }

  lemma AcceptIsAcked(d: Daemon, s: Step, i: nat, k: nat)
    requires s.AcceptStep? && Enabled(d, s) && DaemonInv(d) && ReplyTo(d, s.m, i, k)
    requires d.reqs[k].kind == Query && !d.reqs[k].complete
    requires forall j :: 0 <= j < |d.reqs| && d.reqs[j].kind == Ack ==> d.reqs[j].handle != s.m.handle
    ensures if s.answered && s.alloc then AckGoesOut(d, s, Next(d, s)) else Next(d, s).pending == d.pending
  {
    ReplyFinds(d, s.m, {Query, Ack}, i, k);
  }

  /** An accept that comes again while its ack is tracked is acknowledged once more, and the ack is
      tracked for its whole wait again; nothing else changes. */
  lemma RepeatedAcceptIsAcked(d: Daemon, s: Step, i: nat, k: nat)
    requires s.AcceptStep? && Enabled(d, s) && DaemonInv(d) && ReplyTo(d, s.m, i, k) && d.reqs[k].kind == Ack
    requires forall j :: 0 <= j < k && d.reqs[j].kind in {Query, Ack} ==> d.reqs[j].handle != s.m.handle
    ensures var d' := Next(d, s);
            && d' == d.(reqs := d.reqs[k := d.reqs[k].(timeout := 10)], pending := d'.pending)
            && AckGoesOut(d, s, d')
  {
    OnlyOneSame(d.table, CpAddr(s.m), i);
    assert FindReq(d.reqs, s.m.handle, {Query, Ack}, d.table.ports[i].local) == Some(k);
    assert ReqInv(d.reqs[k], d.issued);
  }

  /** A reply with no open query and no tracked ack of its handle to meet changes nothing. */
  lemma ClosedIsIgnored(d: Daemon, s: Step)
    requires (s.AcceptStep? || s.RejectStep?) && Enabled(d, s)
    requires forall k :: 0 <= k < |d.reqs| && d.reqs[k].handle == s.m.handle ==>
               d.reqs[k].complete || d.reqs[k].kind == Accept || (d.reqs[k].kind == Ack && s.RejectStep?)
    ensures Next(d, s) == d
  {
    var f := FindSame(d.table.ports, CpAddr(s.m));
    if f.Some? {
      var kinds := if s.AcceptStep? then {Query, Ack} else {Query};
      var g := FindReq(d.reqs, s.m.handle, kinds, d.table.ports[f.value].local);
      if g.Some? { assert d.reqs[g.value := d.reqs[g.value]] == d.reqs; }
    }
  }
}
