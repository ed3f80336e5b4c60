/** One port mapper daemon: its state, what each message and each thread step does to it,
    and what holds in every state it can reach. */
module Daemons {
  import opened Options
  import opened SockAddrs
  import opened WireMsgs
  import opened PortTables
  import opened MapRequests

  datatype ReportKind = RemoteInfo | Accepted | Rejected

  /** A connection-info message to a client. `handle`, `peer`, `port` and `peerPort` record
      which request, which peer and which table entries it speaks of. */
  datatype Report = Report(
    kind: ReportKind, handle: Handle, peer: nat, port: nat, peerPort: nat, client: nat, nl: NlHeader,
    local: SockAddr, remote: SockAddr, mappedLocal: SockAddr, mappedRemote: SockAddr)

  /** A client query as it was started, kept to state what its answer must be. */
  datatype QueryRec = QueryRec(port: nat, to: nat, parms: Parms, src: SockAddr, remote: SockAddr, nl: NlHeader)

  datatype Daemon = Daemon(
    table: Table, reqs: seq<MapReq>, pending: seq<SendMsg>, reports: seq<Report>, issued: map<Handle, QueryRec>)

  const INIT := Daemon(EMPTY_TABLE, [], [], [], map[])

  const NO_NL := NlHeader(0, 0, 0)

  function Push(pending: seq<SendMsg>, queued: bool, m: SendMsg): seq<SendMsg> {
    if queued then [m] + pending else pending
  }

  // ------------------------------------------------------------ starting a query

  datatype QueryOutcome = QueryStarted | QueryNotCreated | QueryWildcard | QueryBadFamily | QueryNoMemory

  function IpVerOf(family: nat): Byte { if family == AF_INET then 4 else 6 }

  /** The request message: accepting peer is the remote address, connecting peer the local
      one, all three addresses copied in the remote address's family. */
  function QueryParms(local: SockAddr, remote: SockAddr, mapped: SockAddr, handle: Handle, stack: Parms): Parms
    requires IsInet(remote.family)
  {
    var f := remote.family;
    Parms(IpVerOf(f), 0, MT_REQ, 0, handle,
          PackIp(f, remote, stack.apIp), remote.port,
          PackIp(f, local, stack.cpIp), local.port,
          PackIp(f, mapped, stack.mappedIp), mapped.port)
  }

  /** The entry a query uses: the one found, or a new one. */
  function QueryEntry(d: Daemon, local: SockAddr, client: nat, noMap: bool, bind: Option<Half>, alloc: bool)
    : Option<PortEntry>
  {
    match FindMapping(d.table.ports, local, true)
    case Some(i) => Some(d.table.ports[i])
    case None => Create(local, client, noMap, bind, alloc)
  }

  function QueryTable(d: Daemon, local: SockAddr, e: PortEntry): (Table, nat) {
    match FindMapping(d.table.ports, local, true)
    case Some(i) => (Reuse(d.table, i), d.table.ports[i].id)
    case None => (Link(d.table, e), |d.table.born|)
  }

  /** process_iwpm_query_mapping. `stack` is whatever the message buffer held before;
      `queued` tells whether the first transmission found memory. */
  function QueryMapping(d: Daemon, local: SockAddr, remote: SockAddr, client: nat, nl: NlHeader, noMap: bool,
                        bind: Option<Half>, alloc: bool, allocReq: bool, to: nat, handle: Handle, stack: Parms,
                        queued: bool): (Daemon, QueryOutcome)
  {
    var entry := QueryEntry(d, local, client, noMap, bind, alloc);
    if entry.None? then (d, QueryNotCreated)
    else if entry.value.wcard then (d, QueryWildcard)
    else if !IsInet(remote.family) then (d, QueryBadFamily)
    else if !allocReq then (d, QueryNoMemory)
    else
      var e := entry.value;
      var (table, id) := QueryTable(d, local, e);
      var parms := QueryParms(local, remote, e.mapped, handle, stack);
      var msg := SendMsg(to, parms, id);
      var req := MapReq(Query, handle, e.local, remote, nl, Some(msg), MAP_REQ_TIMEOUT, false);
      (Daemon(table, [req] + d.reqs, Push(d.pending, queued, msg), d.reports,
              d.issued[handle := QueryRec(id, to, parms, e.local, remote, nl)]), QueryStarted)
  }

  // ------------------------------------------------------------ wire messages

  function ApAddr(m: Parms): SockAddr
    requires Family(m.ipVer).Some?
  {
    Unpack(Family(m.ipVer).value, m.apIp, m.apPort)
  }

  function CpAddr(m: Parms): SockAddr
    requires Family(m.ipVer).Some?
  {
    Unpack(Family(m.ipVer).value, m.cpIp, m.cpPort)
  }

  function MappedAddr(m: Parms): SockAddr
    requires Family(m.ipVer).Some?
  {
    Unpack(Family(m.ipVer).value, m.mappedIp, m.mappedPort)
  }

  /** The accept for request `m`: the accepting peer becomes the mapped address, of which a
      wildcard entry only supplies the port. */
  function AcceptParms(m: Parms, e: PortEntry): Parms
    requires Family(m.ipVer).Some?
  {
    if e.wcard then m.(apPort := GetPort(e.mapped), mt := MT_ACC)
    else m.(apIp := PackIp(Family(m.ipVer).value, e.mapped, m.apIp), apPort := e.mapped.port, mt := MT_ACC)
  }

  function AcceptReq(m: Parms, acc: SendMsg, own: Handle): MapReq
    requires Family(m.ipVer).Some? && acc.parms.ipVer == m.ipVer
  {
    MapReq(Accept, if m.handle == NULL_HANDLE then own else m.handle, ApAddr(acc.parms), CpAddr(m), NO_NL,
           Some(acc), MAP_REQ_TIMEOUT, false)
  }

  function RemoteInfoReport(m: Parms, from: nat, e: PortEntry): Report
    requires Family(m.ipVer).Some?
  {
    Report(RemoteInfo, m.handle, from, e.id, 0, e.owner, NO_NL, e.local, CpAddr(m), e.mapped, MappedAddr(m))
  }

  /** The answer to a request that found entry `e`: none while an accept is already tracked. */
  function AnswerRequest(d: Daemon, from: nat, m: Parms, e: PortEntry, alloc: bool, own: Handle, queued: bool,
                         answered: bool): Daemon
    requires Family(m.ipVer).Some?
  {
    var acc := SendMsg(from, AcceptParms(m, e), e.id);
    if FindReq(d.reqs, m.handle, {Accept}, ApAddr(acc.parms)).Some? || !alloc then d
    else
      d.(reqs := [AcceptReq(m, acc, own)] + d.reqs,
         pending := Push(d.pending, queued, acc),
         reports := if queued && answered then d.reports + [RemoteInfoReport(m, from, e)] else d.reports)
  }

  /** process_iwpm_wire_request. */
  function WireRequest(d: Daemon, from: nat, m: Parms, alloc: bool, own: Handle, queued: bool, answered: bool): Daemon
    requires Family(m.ipVer).Some?
  {
    match FindMapping(d.table.ports, ApAddr(m), true)
    case None => d.(pending := Push(d.pending, queued, SendMsg(from, m.(mt := MT_REJ), 0)))
    case Some(i) => AnswerRequest(d, from, m, d.table.ports[i], alloc, own, queued, answered)
  }

  function AckReq(r: MapReq): MapReq {
    MapReq(Ack, r.handle, r.src, r.remote, NO_NL, None, MAP_REQ_TIMEOUT, false)
  }

  function AcceptedReport(m: Parms, from: nat, tag: nat, e: PortEntry, r: MapReq): Report
    requires Family(m.ipVer).Some?
  {
    Report(Accepted, r.handle, from, e.id, tag, e.owner, r.nl, e.local, r.remote, e.mapped, ApAddr(m))
  }

  /** process_iwpm_wire_accept. `tag` is the peer's entry the accept was formed from. */
  function WireAccept(d: Daemon, from: nat, m: Parms, tag: nat, answered: bool, alloc: bool, queued: bool): Daemon
    requires Family(m.ipVer).Some?
  {
    match FindSame(d.table.ports, CpAddr(m))
    case None => d
    case Some(i) =>
      var e := d.table.ports[i];
      match FindReq(d.reqs, m.handle, {Query, Ack}, e.local)
      case None => d
      case Some(k) =>
        var r := d.reqs[k];
        var d1 := d.(reqs := Service(d.reqs, m.handle, {Query, Ack}, e.local));
        var ack := SendMsg(from, m.(mt := MT_ACK), 0);
        if r.complete then d1
        else if r.kind == Ack then d1.(pending := Push(d.pending, queued, ack))
        else if !answered then d1
        else
          var d2 := d1.(reports := d.reports + [AcceptedReport(m, from, tag, e, r)]);
          if !alloc then d2
          else d2.(reqs := [AckReq(r)] + d1.reqs, pending := Push(d.pending, queued, ack))
  }

  function RejectedReport(from: nat, e: PortEntry, r: MapReq): Report {
    Report(Rejected, r.handle, from, e.id, 0, e.owner, r.nl, e.local, r.remote, e.mapped, r.remote)
  }

  /** process_iwpm_wire_reject. */
  function WireReject(d: Daemon, from: nat, m: Parms, answered: bool): Daemon
    requires Family(m.ipVer).Some?
  {
    match FindSame(d.table.ports, CpAddr(m))
    case None => d
    case Some(i) =>
      var e := d.table.ports[i];
      match FindReq(d.reqs, m.handle, {Query}, e.local)
      case None => d
      case Some(k) =>
        var r := d.reqs[k];
        var d1 := d.(reqs := Service(d.reqs, m.handle, {Query}, e.local));
        if r.complete || !answered then d1
        else d1.(reports := d.reports + [RejectedReport(from, e, r)])
  }

  /** process_iwpm_wire_ack. */
  function WireAck(d: Daemon, m: Parms): Daemon
    requires Family(m.ipVer).Some?
  {
    if FindMapping(d.table.ports, ApAddr(m), false).None? then d
    else d.(reqs := Service(d.reqs, m.handle, {Accept}, ApAddr(m)))
  }

  // ------------------------------------------------------------ runs

  /** One step of a daemon, with the outcome of everything it asks of the host. */
  datatype Step =
    | AddStep(local: SockAddr, client: nat, noMap: bool, bind: Option<Half>, alloc: bool, answered: bool)
    | QueryStep(local: SockAddr, remote: SockAddr, client: nat, nl: NlHeader, noMap: bool, bind: Option<Half>,
                alloc: bool, allocReq: bool, to: nat, handle: Handle, stack: Parms, queued: bool)
    | RemoveStep(local: SockAddr, client: nat)
    | MapInfoStep(local: SockAddr, mapped: SockAddr, client: nat, noMap: bool, bind: Option<Half>, alloc: bool)
    | RequestStep(from: nat, m: Parms, alloc: bool, own: Handle, queued: bool, answered: bool)
    | AcceptStep(from: nat, m: Parms, tag: nat, answered: bool, alloc: bool, queued: bool)
    | RejectStep(from: nat, m: Parms, answered: bool)
    | AckStep(from: nat, m: Parms)
    | TimerStep(failed: set<nat>)
    | SendStep

  /** What a step needs. A message that reached its handler has a valid IP version. The
      handle of a query is the address of its tracking object: not null, and by assumption
      not one an earlier query of this run was given. */
  predicate Enabled(d: Daemon, s: Step) {
    match s
    case QueryStep(_, _, _, _, _, _, _, _, _, handle, _, _) => handle != NULL_HANDLE && handle !in d.issued
    case RequestStep(_, m, _, own, _, _) => Family(m.ipVer).Some?
    case AcceptStep(_, m, _, _, _, _) => Family(m.ipVer).Some?
    case RejectStep(_, m, _) => Family(m.ipVer).Some?
    case AckStep(_, m) => Family(m.ipVer).Some?
    case SendStep => d.pending != []
    case _ => true
  }

  function Next(d: Daemon, s: Step): Daemon
    requires Enabled(d, s)
  {
    match s
    case AddStep(local, client, noMap, bind, alloc, answered) =>
      d.(table := AddMapping(d.table, local, client, noMap, bind, alloc, answered).0)
    case QueryStep(local, remote, client, nl, noMap, bind, alloc, allocReq, to, handle, stack, queued) =>
      QueryMapping(d, local, remote, client, nl, noMap, bind, alloc, allocReq, to, handle, stack, queued).0
    case RemoveStep(local, client) => d.(table := RemoveMapping(d.table, local, client))
    case MapInfoStep(local, mapped, client, noMap, bind, alloc) =>
      d.(table := MapInfo(d.table, local, mapped, client, noMap, bind, alloc).0)
    case RequestStep(from, m, alloc, own, queued, answered) => WireRequest(d, from, m, alloc, own, queued, answered)
    case AcceptStep(from, m, tag, answered, alloc, queued) => WireAccept(d, from, m, tag, answered, alloc, queued)
    case RejectStep(from, m, answered) => WireReject(d, from, m, answered)
    case AckStep(_, m) => WireAck(d, m)
    case TimerStep(failed) => d.(reqs := Pass(d.reqs), pending := Resend(d.reqs, d.pending, failed))
    case SendStep => d.(pending := d.pending[1..])
  }

  /** The states a daemon passes through: each enabled step after the other. */
  ghost predicate IsRun(states: seq<Daemon>, steps: seq<Step>) {
    && |states| == |steps| + 1
    && states[0] == INIT
    && forall i :: 0 <= i < |steps| ==> Enabled(states[i], steps[i]) && states[i + 1] == Next(states[i], steps[i])
  }

  // ------------------------------------------------------------ what every step keeps

  ghost predicate IsVerdict(r: Report) { r.kind != RemoteInfo }

  ghost predicate ReqInv(r: MapReq, issued: map<Handle, QueryRec>) {
    && (r.kind == Ack <==> r.msg.None?)
    && r.timeout <= MAP_REQ_TIMEOUT
    && (r.complete ==> r.kind != Ack && r.timeout == 0)
    && (r.kind != Accept ==> r.handle in issued && r.src == issued[r.handle].src && r.remote == issued[r.handle].remote)
    && (r.kind == Query ==> r.nl == issued[r.handle].nl)
  }

  /** Queries on the list have handles of their own. */
  ghost predicate QueriesApart(reqs: seq<MapReq>) {
    forall i, j :: 0 <= i < |reqs| && 0 <= j < |reqs| && i != j && reqs[i].kind == reqs[j].kind == Query ==>
      reqs[i].handle != reqs[j].handle
  }

  ghost predicate ReqsInv(reqs: seq<MapReq>, issued: map<Handle, QueryRec>) {
    (forall i :: 0 <= i < |reqs| ==> ReqInv(reqs[i], issued)) && QueriesApart(reqs)
  }

  ghost predicate ClosedBy(r: MapReq, rep: Report) {
    IsVerdict(rep) && r.kind == Query && r.handle == rep.handle ==> r.complete
  }

  /** No two verdicts answer one query, each is addressed to the client that asked, and none
      is given while the query could still be answered. */
  ghost predicate VerdictsInv(reports: seq<Report>, reqs: seq<MapReq>, issued: map<Handle, QueryRec>) {
    && (forall i :: 0 <= i < |reports| && IsVerdict(reports[i]) ==>
          && reports[i].handle in issued
          && reports[i].nl == issued[reports[i].handle].nl
          && reports[i].remote == issued[reports[i].handle].remote)
    && (forall i, j ::
          0 <= i < |reports| && 0 <= j < |reports| && i != j && IsVerdict(reports[i]) && IsVerdict(reports[j]) ==>
            reports[i].handle != reports[j].handle)
    && (forall i, k :: 0 <= i < |reports| && 0 <= k < |reqs| ==> ClosedBy(reqs[k], reports[i]))
  }

  ghost predicate DaemonInv(d: Daemon) {
    && TableInv(d.table)
    && ReqsInv(d.reqs, d.issued)
    && VerdictsInv(d.reports, d.reqs, d.issued)
  }

  lemma QueryTableKeeps(d: Daemon, local: SockAddr, client: nat, noMap: bool, bind: Option<Half>, alloc: bool)
    requires TableInv(d.table)
    requires QueryEntry(d, local, client, noMap, bind, alloc).Some?
    ensures TableInv(QueryTable(d, local, QueryEntry(d, local, client, noMap, bind, alloc).value).0)
  {
    match FindMapping(d.table.ports, local, true)
    case Some(i) => ReuseKeeps(d.table, i);
    case None => LinkKeeps(d.table, Create(local, client, noMap, bind, alloc).value);
  }

  /** Issuing a handle no query had before. */
  lemma PostQueryKeeps(d: Daemon, req: MapReq, q: QueryRec)
    requires ReqsInv(d.reqs, d.issued) && VerdictsInv(d.reports, d.reqs, d.issued)
    requires req.handle !in d.issued && req.kind == Query
    requires ReqInv(req, d.issued[req.handle := q])
    ensures ReqsInv([req] + d.reqs, d.issued[req.handle := q])
    ensures VerdictsInv(d.reports, [req] + d.reqs, d.issued[req.handle := q])
  {
  }

  lemma PostOtherKeeps(d: Daemon, req: MapReq)
    requires ReqsInv(d.reqs, d.issued) && VerdictsInv(d.reports, d.reqs, d.issued)
    requires req.kind != Query && ReqInv(req, d.issued)
    ensures ReqsInv([req] + d.reqs, d.issued)
    ensures VerdictsInv(d.reports, [req] + d.reqs, d.issued)
  {
  }

  lemma ServiceKeeps(d: Daemon, handle: Handle, kinds: set<Kind>, src: SockAddr)
    requires ReqsInv(d.reqs, d.issued) && VerdictsInv(d.reports, d.reqs, d.issued)
    ensures ReqsInv(Service(d.reqs, handle, kinds, src), d.issued)
    ensures VerdictsInv(d.reports, Service(d.reqs, handle, kinds, src), d.issued)
  {
  }

  lemma PassKeeps(d: Daemon)
    requires ReqsInv(d.reqs, d.issued) && VerdictsInv(d.reports, d.reqs, d.issued)
    ensures ReqsInv(Pass(d.reqs), d.issued)
    ensures VerdictsInv(d.reports, Pass(d.reqs), d.issued)
  {
    PassReqsInv(d.reqs, d.issued);
    forall i, k | 0 <= i < |d.reports| && 0 <= k < |Pass(d.reqs)|
      ensures ClosedBy(Pass(d.reqs)[k], d.reports[i])
    {
      var j := PassOrigin(d.reqs, k);
      assert ClosedBy(d.reqs[j], d.reports[i]);
    }
  }

  lemma {:induction false} PassQueriesApart(reqs: seq<MapReq>)
    requires QueriesApart(reqs)
    ensures QueriesApart(Pass(reqs))
  {
    if reqs != [] {
      var last := |reqs| - 1;
      var p := Pass(reqs[..last]);
      PassQueriesApart(reqs[..last]);
      forall k | 0 <= k < |p| && p[k].kind == reqs[last].kind == Query ensures p[k].handle != reqs[last].handle {
        var j := PassOrigin(reqs[..last], k);
        assert reqs[..last][j] == reqs[j];
      }
    }
  }

  lemma PassReqsInv(reqs: seq<MapReq>, issued: map<Handle, QueryRec>)
    requires ReqsInv(reqs, issued)
    ensures ReqsInv(Pass(reqs), issued)
  {
    PassQueriesApart(reqs);
    forall k | 0 <= k < |Pass(reqs)| ensures ReqInv(Pass(reqs)[k], issued) {
      var j := PassOrigin(reqs, k);
      assert ReqInv(reqs[j], issued);
    }
  }

  /** A verdict goes out only for a query that is still open, and closes it. */
  lemma VerdictKeeps(d: Daemon, k: nat, kinds: set<Kind>, src: SockAddr, rep: Report)
    requires ReqsInv(d.reqs, d.issued) && VerdictsInv(d.reports, d.reqs, d.issued)
    requires k < |d.reqs| && d.reqs[k].kind == Query && !d.reqs[k].complete
    requires FindReq(d.reqs, d.reqs[k].handle, kinds, src) == Some(k)
    requires IsVerdict(rep) && rep.handle == d.reqs[k].handle
    requires rep.nl == d.reqs[k].nl && rep.remote == d.reqs[k].remote
    ensures VerdictsInv(d.reports + [rep], Service(d.reqs, rep.handle, kinds, src), d.issued)
  {
  }

  lemma WireAcceptKeeps(d: Daemon, from: nat, m: Parms, tag: nat, answered: bool, alloc: bool, queued: bool)
    requires Family(m.ipVer).Some? && DaemonInv(d)
    ensures DaemonInv(WireAccept(d, from, m, tag, answered, alloc, queued))
  {
    var s := FindSame(d.table.ports, CpAddr(m));
    if s.Some? {
      var e := d.table.ports[s.value];
      var f := FindReq(d.reqs, m.handle, {Query, Ack}, e.local);
      if f.Some? {
        var r := d.reqs[f.value];
        assert ReqInv(r, d.issued);
        ServiceKeeps(d, m.handle, {Query, Ack}, e.local);
        if !r.complete && r.kind == Query && answered {
          var rep := AcceptedReport(m, from, tag, e, r);
          VerdictKeeps(d, f.value, {Query, Ack}, e.local, rep);
          var d2 := d.(reqs := Service(d.reqs, m.handle, {Query, Ack}, e.local), reports := d.reports + [rep]);
          PostOtherKeeps(d2, AckReq(r));
        }
      }
    }
  }

  lemma WireRejectKeeps(d: Daemon, from: nat, m: Parms, answered: bool)
    requires Family(m.ipVer).Some? && DaemonInv(d)
    ensures DaemonInv(WireReject(d, from, m, answered))
  {
    var s := FindSame(d.table.ports, CpAddr(m));
    if s.Some? {
      var e := d.table.ports[s.value];
      var f := FindReq(d.reqs, m.handle, {Query}, e.local);
      if f.Some? {
        ServiceKeeps(d, m.handle, {Query}, e.local);
        if !d.reqs[f.value].complete && answered {
          VerdictKeeps(d, f.value, {Query}, e.local, RejectedReport(from, e, d.reqs[f.value]));
        }
      }
    }
  }

  /** A report that is no verdict changes nothing about verdicts. */
  lemma InfoKeeps(reports: seq<Report>, reqs: seq<MapReq>, issued: map<Handle, QueryRec>, rep: Report)
    requires VerdictsInv(reports, reqs, issued) && !IsVerdict(rep)
    ensures VerdictsInv(reports + [rep], reqs, issued)
  {
  }

  lemma WireRequestKeeps(d: Daemon, from: nat, m: Parms, alloc: bool, own: Handle, queued: bool, answered: bool)
    requires Family(m.ipVer).Some? && DaemonInv(d)
    ensures DaemonInv(WireRequest(d, from, m, alloc, own, queued, answered))
  {
    var s := FindMapping(d.table.ports, ApAddr(m), true);
    if s.Some? {
      var e := d.table.ports[s.value];
      var req := AcceptReq(m, SendMsg(from, AcceptParms(m, e), e.id), own);
      PostOtherKeeps(d, req);
      InfoKeeps(d.reports, [req] + d.reqs, d.issued, RemoteInfoReport(m, from, e));
    }
  }

  lemma QueryMappingKeeps(d: Daemon, s: Step)
    requires s.QueryStep? && Enabled(d, s) && DaemonInv(d)
    ensures DaemonInv(Next(d, s))
  {
    var entry := QueryEntry(d, s.local, s.client, s.noMap, s.bind, s.alloc);
    if entry.Some? {
      QueryTableKeeps(d, s.local, s.client, s.noMap, s.bind, s.alloc);
      if !entry.value.wcard && IsInet(s.remote.family) && s.allocReq {
        var d' := Next(d, s);
        var q := d'.issued[s.handle];
        assert d'.issued == d.issued[s.handle := q];
        assert d'.reqs == [d'.reqs[0]] + d.reqs;
        PostQueryKeeps(d, d'.reqs[0], q);
      }
    }
  }

  lemma StepKeeps(d: Daemon, s: Step)
    requires Enabled(d, s) && DaemonInv(d)
    ensures DaemonInv(Next(d, s))
  {
    match s
    case AddStep(local, client, noMap, bind, alloc, answered) =>
      AddMappingKeeps(d.table, local, client, noMap, bind, alloc, answered);
    case QueryStep(_, _, _, _, _, _, _, _, _, _, _, _) => QueryMappingKeeps(d, s);
    case RemoveStep(local, client) => RemoveMappingKeeps(d.table, local, client);
    case MapInfoStep(local, mapped, client, noMap, bind, alloc) =>
      MapInfoKeeps(d.table, local, mapped, client, noMap, bind, alloc);
    case RequestStep(from, m, alloc, own, queued, answered) =>
      WireRequestKeeps(d, from, m, alloc, own, queued, answered);
    case AcceptStep(from, m, tag, answered, alloc, queued) =>
      WireAcceptKeeps(d, from, m, tag, answered, alloc, queued);
    case RejectStep(from, m, answered) => WireRejectKeeps(d, from, m, answered);
    case AckStep(_, m) => ServiceKeeps(d, m.handle, {Accept}, ApAddr(m));
    case TimerStep(_) => PassKeeps(d);
    case SendStep =>
  }

  lemma {:induction false} RunKeeps(states: seq<Daemon>, steps: seq<Step>, n: nat)
    requires IsRun(states, steps) && n <= |steps|
    ensures DaemonInv(states[n])
  {
    if n > 0 {
      RunKeeps(states, steps, n - 1);
      StepKeeps(states[n - 1], steps[n - 1]);
    }
  }

  // ------------------------------------------------------------ what holds in every run

  /** However accepts, rejects and timer passes arrive, repeat and interleave, no query is
      answered twice, and its answer carries the header of the client message that asked. */
  lemma AtMostOneVerdict(states: seq<Daemon>, steps: seq<Step>, n: nat, i: nat, j: nat)
    requires IsRun(states, steps) && n <= |steps|
    requires i < |states[n].reports| && j < |states[n].reports|
    requires IsVerdict(states[n].reports[i]) && IsVerdict(states[n].reports[j])
    requires states[n].reports[i].handle == states[n].reports[j].handle
    ensures i == j
    ensures var r := states[n].reports[i];
            r.handle in states[n].issued && r.nl == states[n].issued[r.handle].nl
  {
    RunKeeps(states, steps, n);
  }

  /** Once a query has its verdict, an accept for it is ignored or answered with one more
      ack: no report, no change of the port table. */
  lemma LaterAcceptsOnlyAck(states: seq<Daemon>, steps: seq<Step>, n: nat, i: nat, s: Step)
    requires IsRun(states, steps) && n <= |steps|
    requires i < |states[n].reports| && IsVerdict(states[n].reports[i])
    requires s.AcceptStep? && Enabled(states[n], s) && s.m.handle == states[n].reports[i].handle
    ensures var d, d' := states[n], Next(states[n], s);
            && d'.reports == d.reports && d'.table == d.table && |d'.reqs| == |d.reqs|
            && (d'.pending == d.pending || d'.pending == [SendMsg(s.from, s.m.(mt := MT_ACK), 0)] + d.pending)
  {
    RunKeeps(states, steps, n);
    var d := states[n];
    forall k | 0 <= k < |d.reqs| ensures ClosedBy(d.reqs[k], d.reports[i]) {}
  }

  /** The reference count of every linked entry: at least one, equal to one plus reuses minus
      accepted removals, and the entry neither linked twice nor freed. */
  lemma RefcountDiscipline(states: seq<Daemon>, steps: seq<Step>, n: nat, i: nat)
    requires IsRun(states, steps) && n <= |steps| && i < |states[n].table.ports|
    ensures var t := states[n].table;
            var e := t.ports[i];
            && e.refs >= 1
            && e.refs == 1 + (t.history[Reused(e.id)] as int) - (t.history[Released(e.id)] as int)
            && t.history[Freed(e.id)] == 0
            && forall j :: 0 <= j < |t.ports| && j != i ==> t.ports[j].id != e.id
  {
    RunKeeps(states, steps, n);
    assert RefsInv(states[n].table.ports[i], states[n].table.history);
  }

  /** Every entry ever linked is freed once, and only when it is off the list. */
  lemma FreedOnce(states: seq<Daemon>, steps: seq<Step>, n: nat, k: nat)
    requires IsRun(states, steps) && n <= |steps| && k < |states[n].table.born|
    ensures states[n].table.history[Freed(k)] == if Linked(states[n].table.ports, k) then 0 else 1
  {
    RunKeeps(states, steps, n);
    assert FreedInv(states[n].table, k);
  }

  /** In every reachable state two entries on one port have different addresses and neither is
      a wildcard, so a search for a non-wildcard address has at most one answer. */
  lemma PortsStayApart(states: seq<Daemon>, steps: seq<Step>, n: nat, i: nat, j: nat, s: SockAddr)
    requires IsRun(states, steps) && n <= |steps|
    requires i < |states[n].table.ports| && j < |states[n].table.ports| && i != j
    ensures Apart(states[n].table.ports[i], states[n].table.ports[j])
    ensures !IsWildcard(s) ==> !(Hit(s, states[n].table.ports[i], true) && Hit(s, states[n].table.ports[j], true))
  {
    RunKeeps(states, steps, n);
    if !IsWildcard(s) && Hit(s, states[n].table.ports[i], true) && Hit(s, states[n].table.ports[j], true) {
      HitIsUnique(states[n].table, s, i, j);
    }
  }
}
