/** Tracing a unicast route: from a port, follow the switches' forwarding entries for a
    destination LID until the destination port is met, or say why not. */
module Routes {
  import opened Options

  const MAXHOPS := 63
  const PATH_SIZE := 64
  const ACTIVE := 4

  datatype NodeKind = CA | SwitchNode | Router | OtherNode

  datatype NodeInfo = NodeInfo(kind: NodeKind, numPorts: nat)

  datatype PortInfo = PortInfo(guid: nat, state: nat)

  /** `fdb` is the linear forwarding table; a LID outside it does not answer. */
  datatype SwitchInfo = SwitchInfo(linearCap: nat, fdbTop: nat, enhSp0: bool, fdb: map<nat, nat>)

  /** A static fabric. A node or port outside the maps does not answer. `links` joins ports. */
  datatype Fabric = Fabric(
    info: map<nat, NodeInfo>, ports: map<(nat, nat), PortInfo>, switches: map<nat, SwitchInfo>,
    links: map<(nat, nat), (nat, nat)>)

  /** Cables have two ends. */
  ghost predicate Symmetric(f: Fabric) {
    forall a :: a in f.links ==> f.links[a] in f.links && f.links[f.links[a]] == a
  }

  /** Where a packet leaving `node` through `port` arrives: port 0 is the node's own agent. */
  function Hop(f: Fabric, node: nat, port: nat): Option<(nat, nat)> {
    if port == 0 then Some((node, 0))
    else if (node, port) in f.links then Some(f.links[(node, port)]) else None
  }

  /** Where the direct path `p[1..cnt]` leads, and through which port it enters. */
  function Walk(f: Fabric, start: (nat, nat), p: seq<nat>, cnt: nat): Option<(nat, nat)>
    requires cnt < |p|
  {
    if cnt == 0 then Some(start) else
    match Walk(f, start, p, cnt - 1)
    case None => None
    case Some(at) => Hop(f, at.0, p[cnt])
  }

  /** The path up to `cnt` does not depend on what lies beyond. */
  lemma {:induction false} WalkPrefix(f: Fabric, start: (nat, nat), p: seq<nat>, q: seq<nat>, cnt: nat)
    requires cnt < |p| && cnt < |q| && forall i :: 0 <= i <= cnt ==> p[i] == q[i]
    ensures Walk(f, start, p, cnt) == Walk(f, start, q, cnt)
  {
    if cnt > 0 { WalkPrefix(f, start, p, q, cnt - 1); }
  }

  /** A port the trace has come to: its node, the port the query entered through, the port number
      the trace goes by, and the direct path `p[1..cnt]` that leads there. */
  datatype Visit = Visit(node: nat, entry: nat, portNum: nat, p: seq<nat>, cnt: nat)

  predicate Answers(f: Fabric, at: Option<(nat, nat)>) {
    at.Some? && at.value.0 in f.info && at.value in f.ports
  }

  /** get_node. */
  function GetNode(f: Fabric, start: (nat, nat), p: seq<nat>, cnt: nat): Option<Visit>
    requires cnt < |p|
  {
    var at := Walk(f, start, p, cnt);
    if Answers(f, at) then Some(Visit(at.value.0, at.value.1, at.value.1, p, cnt)) else None
  }

  predicate Known(f: Fabric, v: Visit) {
    v.node in f.info && (v.node, v.entry) in f.ports
  }

  function PortOf(f: Fabric, v: Visit): PortInfo
    requires Known(f, v)
  {
    f.ports[(v.node, v.entry)]
  }

  /** is_port_inactive: the state of a switch port only matters on an enhanced port 0. */
  predicate IsPortInactive(kind: NodeKind, port: PortInfo, enhSp0: bool) {
    port.state != ACTIVE && (kind != SwitchNode || enhSp0)
  }

  predicate Passes(f: Fabric, v: Visit) {
    && Known(f, v)
    && (f.info[v.node].kind == SwitchNode ==> v.node in f.switches)
    && !IsPortInactive(f.info[v.node].kind, PortOf(f, v),
                       f.info[v.node].kind == SwitchNode && f.switches[v.node].enhSp0)
  }

  /** switch_lookup. */
  function SwitchLookup(f: Fabric, node: nat, lid: nat): Option<nat> {
    if node !in f.switches then None else
    var sw := f.switches[node];
    if lid >= sw.linearCap && lid > sw.fdbTop then None
    else if lid in sw.fdb then Some(sw.fdb[lid]) else None
  }

  predicate IsSwitch(f: Fabric, v: Visit) { v.node in f.info && f.info[v.node].kind == SwitchNode }

  predicate IsEndNode(f: Fabric, v: Visit) {
    v.node in f.info && (f.info[v.node].kind == CA || f.info[v.node].kind == Router)
  }

  /** The forwarding entry the trace will use at a switch. */
  function ForwardPort(f: Fabric, node: nat, lid: nat): Option<nat>
    requires node in f.info
  {
    var e := SwitchLookup(f, node, lid);
    if e.Some? && e.value <= f.info[node].numPorts then e else None
  }

  /** `w` is the port that a query entering at `at` finds, by the path `p[1..cnt]`. */
  ghost predicate Finds(w: Visit, at: Option<(nat, nat)>, p: seq<nat>, cnt: nat) {
    at.Some? && w == Visit(at.value.0, at.value.1, at.value.1, p, cnt)
  }

  /** The one move the trace can make from `v`: out of a switch by its forwarding entry, while the
      path has room; out of a channel adapter or router back to where the path came from, or if the
      path starts here through the port itself, unless that is the agent's port 0. */
  ghost predicate Leaves(f: Fabric, start: (nat, nat), lid: nat, v: Visit, w: Visit) {
    && v.node in f.info && |v.p| == PATH_SIZE && v.cnt < PATH_SIZE
    && match f.info[v.node].kind
       case SwitchNode =>
         && v.cnt + 2 < PATH_SIZE
         && var e := ForwardPort(f, v.node, lid);
            e.Some? && Finds(w, Hop(f, v.node, e.value), v.p[v.cnt + 1 := e.value], v.cnt + 1)
       case OtherNode => w == v
       case _ =>
         if v.cnt > 0 then
           var back := Walk(f, start, v.p, v.cnt - 1);
           back.Some? && w == Visit(back.value.0, back.value.1, v.p[v.cnt], v.p, v.cnt - 1)
         else if v.portNum == 0 then w == v.(portNum := v.entry)
         else Finds(w, Hop(f, v.node, v.portNum), v.p[1 := v.portNum], 1)
  }

  ghost predicate IsTrail(f: Fabric, start: (nat, nat), lid: nat, trail: seq<Visit>) {
    |trail| > 0 && forall i :: 0 <= i < |trail| - 1 ==> Leaves(f, start, lid, trail[i], trail[i + 1])
  }

  /** There is only one trail from a port: the route the forwarding tables describe. */
  lemma {:induction false} TrailsAgree(f: Fabric, start: (nat, nat), lid: nat, a: seq<Visit>, b: seq<Visit>, i: nat)
    requires IsTrail(f, start, lid, a) && IsTrail(f, start, lid, b) && a[0] == b[0] && i < |a| && i < |b|
    ensures a[i] == b[i]
  {
    if i > 0 {
      TrailsAgree(f, start, lid, a, b, i - 1);
      assert Leaves(f, start, lid, a[i - 1], a[i - 1 + 1]) && Leaves(f, start, lid, b[i - 1], b[i - 1 + 1]);
    }
  }

  /** Each move makes the path at most one hop longer. */
  lemma {:induction false} TrailCount(f: Fabric, start: (nat, nat), lid: nat, trail: seq<Visit>, i: nat)
    requires IsTrail(f, start, lid, trail) && i < |trail|
    ensures trail[i].cnt <= trail[0].cnt + i
  {
    if i > 0 {
      TrailCount(f, start, lid, trail, i - 1);
      assert Leaves(f, start, lid, trail[i - 1], trail[i - 1 + 1]);
    }
  }

  /** extend_dpath: fails when the path array is nearly full. */
  function ExtendPath(p: seq<nat>, cnt: nat, port: nat): Option<seq<nat>>
    requires cnt < |p| == PATH_SIZE
  {
    if cnt + 2 >= PATH_SIZE then None else Some(p[cnt + 1 := port])
  }

  lemma ExtendWalks(f: Fabric, start: (nat, nat), p: seq<nat>, cnt: nat, port: nat)
    requires cnt + 1 < |p|
    ensures Walk(f, start, p[cnt + 1 := port], cnt) == Walk(f, start, p, cnt)
    ensures Walk(f, start, p, cnt).Some? ==>
              Walk(f, start, p[cnt + 1 := port], cnt + 1) == Hop(f, Walk(f, start, p, cnt).value.0, port)
  {
    WalkPrefix(f, start, p, p[cnt + 1 := port], cnt);
  }

  /** The trace stands at `v`: its path leads there. */
  ghost predicate Standing(f: Fabric, start: (nat, nat), v: Visit) {
    && |v.p| == PATH_SIZE && v.cnt < PATH_SIZE && Known(f, v)
    && Walk(f, start, v.p, v.cnt) == Some((v.node, v.entry))
  }

  /** Where cables have two ends, leaving an adapter or router by the path that led there crosses
      the link it was entered by, backwards; if it was entered at its agent, it stays. */
  lemma BackCrossesLink(f: Fabric, start: (nat, nat), lid: nat, v: Visit, w: Visit)
    requires Symmetric(f) && Standing(f, start, v) && IsEndNode(f, v) && v.cnt > 0 && Leaves(f, start, lid, v, w)
    ensures if w.portNum == 0 then v.entry == 0 && w.node == v.node
            else (v.node, v.entry) in f.links && f.links[(v.node, v.entry)] == (w.node, w.portNum)
  {
    assert Hop(f, w.node, w.portNum) == Some((v.node, v.entry));
  }

  // ------------------------------------------------------------ one pass

  /** How a trace ends. */
  datatype Outcome = Found | FoundAtAgent | NoAnswer | BadTable | BadPort | BadPath | DeadEnd | UnknownKind | TooFar

  predicate Succeeds(o: Outcome) { o == Found || o == FoundAtAgent }

  /** Where one pass ends: it stays and fails, goes to a port that fails a test, meets a
      switch's own agent, or goes on. */
  datatype Move = Stop(why: Outcome) | Halt(next: Visit, why: Outcome) | AtAgent(next: Visit) | Go(next: Visit)

  /** Where the trace looks next: at a switch where its entry points; at an end node back along
      the path, or out of the local port. */
  function LooksAt(f: Fabric, start: (nat, nat), lid: nat, v: Visit): Option<(nat, nat)>
    requires v.cnt < |v.p| && v.node in f.info
  {
    if f.info[v.node].kind == SwitchNode then
      var e := ForwardPort(f, v.node, lid);
      if e.Some? then Hop(f, v.node, e.value) else None
    else if v.cnt > 0 then Walk(f, start, v.p, v.cnt - 1)
    else if v.portNum == 0 then Some(start)
    else Hop(f, v.node, v.portNum)
  }

  /** The port passes the activity test and is not the target. */
  ghost predicate GoesOn(f: Fabric, v: Visit, target: PortInfo) {
    Passes(f, v) && PortOf(f, v).guid != target.guid
  }

  /** The switch has a usable entry. */
  ghost predicate Routed(f: Fabric, lid: nat, v: Visit) {
    IsSwitch(f, v) ==> ForwardPort(f, v.node, lid).Some?
  }

  /** The switch forwards to its own agent. */
  ghost predicate ToAgent(f: Fabric, lid: nat, v: Visit) {
    IsSwitch(f, v) && ForwardPort(f, v.node, lid) == Some(0)
  }

  /** Why a trace gives up at `v`, where its path has led it. */
  ghost predicate GivesUp(f: Fabric, start: (nat, nat), lid: nat, v: Visit, from: Visit, target: PortInfo,
                          why: Outcome)
  {
    && Standing(f, start, v) && Known(f, from)
    && match why
       case BadPort => !Passes(f, v)
       case BadTable =>
         || !Routed(f, lid, v)
         || (GoesOn(f, v, target) && ToAgent(f, lid, v) && (v.node, 0) in f.ports
             && f.ports[(v.node, 0)].guid != target.guid)
       case NoAnswer => GoesOn(f, v, target) && Routed(f, lid, v) && !Answers(f, LooksAt(f, start, lid, v))
       case BadPath => GoesOn(f, v, target) && IsSwitch(f, v) && v.cnt + 2 >= PATH_SIZE
       case DeadEnd => GoesOn(f, v, target) && IsEndNode(f, v) && PortOf(f, v).guid != PortOf(f, from).guid
       case UnknownKind => GoesOn(f, v, target) && f.info[v.node].kind == OtherNode
       case _ => false
  }

  /** Out of a switch. */
  method LeaveSwitch(f: Fabric, start: (nat, nat), lid: nat, v: Visit, from: Visit, target: PortInfo)
    returns (m: Move)
    requires Standing(f, start, v) && Known(f, from) && GoesOn(f, v, target)
    requires IsSwitch(f, v) && ForwardPort(f, v.node, lid).Some?
    ensures m.Stop? ==> GivesUp(f, start, lid, v, from, target, m.why)
    ensures !m.Stop? ==> Leaves(f, start, lid, v, m.next) && Standing(f, start, m.next)
    ensures m.AtAgent? ==> ToAgent(f, lid, v) && PortOf(f, m.next).guid == target.guid
    ensures m.Go? ==> !ToAgent(f, lid, v)
    ensures !m.Halt?
  {
    var outport := ForwardPort(f, v.node, lid).value;
    var longer := ExtendPath(v.p, v.cnt, outport);
    if longer.None? { return Stop(BadPath); }
    ExtendWalks(f, start, v.p, v.cnt, outport);
    var next := GetNode(f, start, longer.value, v.cnt + 1);
    if next.None? { return Stop(NoAnswer); }
    if outport == 0 {
      return if PortOf(f, next.value).guid == target.guid then AtAgent(next.value) else Stop(BadTable);
    }
    return Go(next.value);
  }

  /** Out of a channel adapter or router, which must be the one the trace began at: back along
      the path that led there, or out of the local port. */
  method LeaveEndNode(f: Fabric, start: (nat, nat), lid: nat, v: Visit, from: Visit, target: PortInfo)
    returns (m: Move)
    requires Known(f, from) && Standing(f, start, v) && GoesOn(f, v, target) && IsEndNode(f, v)
    ensures m.Stop? ==> GivesUp(f, start, lid, v, from, target, m.why)
    ensures m.Stop? || m.Go?
    ensures m.Go? ==> Leaves(f, start, lid, v, m.next) && Standing(f, start, m.next)
    ensures m.Go? ==> PortOf(f, v).guid == PortOf(f, from).guid
  {
    if PortOf(f, v).guid != PortOf(f, from).guid { return Stop(DeadEnd); }
    if v.cnt > 0 {
      var next := GetNode(f, start, v.p, v.cnt - 1);
      return if next.Some? then Go(next.value.(portNum := v.p[v.cnt])) else Stop(NoAnswer);
    }
    if v.portNum == 0 {
      var next := GetNode(f, start, v.p, v.cnt);
      return if next.Some? then Go(next.value) else Stop(NoAnswer);
    }
    var longer := ExtendPath(v.p, v.cnt, v.portNum);
    ExtendWalks(f, start, v.p, v.cnt, v.portNum);
    var next := GetNode(f, start, longer.value, v.cnt + 1);
    return if next.Some? then Go(next.value) else Stop(NoAnswer);
  }

  /** One pass of the loop, after its tests: the move, and the tests on the port it leads to. A
      node of unknown kind is not left: the pass looks again at the last port it came to. */
  method MoveOn(f: Fabric, start: (nat, nat), lid: nat, v: Visit, from: Visit, target: PortInfo, first: bool)
    returns (m: Move)
    requires Known(f, from) && Standing(f, start, v) && GoesOn(f, v, target) && Routed(f, lid, v)
    ensures m.Stop? ==> GivesUp(f, start, lid, v, from, target, m.why)
    ensures !m.Stop? ==> Leaves(f, start, lid, v, m.next) && Standing(f, start, m.next)
    ensures !m.Stop? && IsEndNode(f, v) ==> PortOf(f, v).guid == PortOf(f, from).guid
    ensures m.AtAgent? ==> ToAgent(f, lid, v) && PortOf(f, m.next).guid == target.guid
    ensures m.Halt? || m.Go? ==> !ToAgent(f, lid, v)
    ensures m.Halt? ==> (m.why == BadTable || m.why == BadPort) &&
                        GivesUp(f, start, lid, m.next, from, target, m.why)
    ensures m.Go? ==> Passes(f, m.next) && Routed(f, lid, m.next)
  {
    match f.info[v.node].kind {
      case SwitchNode => m := LeaveSwitch(f, start, lid, v, from, target);
      case OtherNode => m := if first then Stop(UnknownKind) else Go(v);
      case _ => m := LeaveEndNode(f, start, lid, v, from, target);
    }
    if m.Go? {
      var k := f.info[m.next.node].kind;
      if k == SwitchNode && ForwardPort(f, m.next.node, lid).None? { return Halt(m.next, BadTable); }
      if IsPortInactive(k, PortOf(f, m.next), k == SwitchNode && f.switches[m.next.node].enhSp0) {
        return Halt(m.next, BadPort);
      }
    }
  }

  // ------------------------------------------------------------ the trace

  /** A port the trace left: it passes the test, is not the target, has a usable entry if it is a
      switch, which is not its own agent's, and is the first port's if it is an end node. */
  ghost predicate Left(f: Fabric, lid: nat, v: Visit, first: Visit, target: PortInfo) {
    && GoesOn(f, v, target) && Routed(f, lid, v)
    && (IsEndNode(f, v) ==> Known(f, first) && PortOf(f, v).guid == PortOf(f, first).guid)
  }

  /** A trail from `first` whose ports but the last were left, none by way of its agent but
      perhaps the one before the last. */
  ghost predicate GoodTrail(f: Fabric, start: (nat, nat), lid: nat, trail: seq<Visit>, first: Visit,
                            target: PortInfo)
  {
    && IsTrail(f, start, lid, trail) && trail[0] == first
    && (forall i :: 0 <= i < |trail| - 1 ==> Left(f, lid, trail[i], first, target))
    && (forall i :: 0 <= i < |trail| - 2 ==> !ToAgent(f, lid, trail[i]))
  }

  lemma TrailNext(f: Fabric, start: (nat, nat), lid: nat, trail: seq<Visit>, w: Visit, first: Visit,
                  target: PortInfo)
    requires GoodTrail(f, start, lid, trail, first, target)
    requires Left(f, lid, trail[|trail| - 1], first, target) && Leaves(f, start, lid, trail[|trail| - 1], w)
    requires |trail| > 1 ==> !ToAgent(f, lid, trail[|trail| - 2])
    ensures GoodTrail(f, start, lid, trail + [w], first, target)
  {
    var longer := trail + [w];
    forall i | 0 <= i < |longer| - 1
      ensures Leaves(f, start, lid, longer[i], longer[i + 1]) && Left(f, lid, longer[i], first, target)
    {
      assert longer[i] == trail[i];
      assert i < |trail| - 1 ==> longer[i + 1] == trail[i + 1];
    }
  }

  /** The trace is at the last port of its trail, and not because of an agent's entry. */
  ghost predicate UnderWay(f: Fabric, start: (nat, nat), lid: nat, trail: seq<Visit>, first: Visit,
                           target: PortInfo)
  {
    && GoodTrail(f, start, lid, trail, first, target)
    && Standing(f, start, trail[|trail| - 1]) && Routed(f, lid, trail[|trail| - 1])
    && (|trail| > 1 ==> !ToAgent(f, lid, trail[|trail| - 2]))
  }

  /** What a move that does not stop adds to the trail. */
  lemma MoveExtends(f: Fabric, start: (nat, nat), lid: nat, trail: seq<Visit>, w: Visit, first: Visit,
                    target: PortInfo)
    requires UnderWay(f, start, lid, trail, first, target) && Known(f, first)
    requires var v := trail[|trail| - 1];
             && GoesOn(f, v, target) && Leaves(f, start, lid, v, w) && Standing(f, start, w)
             && (IsEndNode(f, v) ==> PortOf(f, v).guid == PortOf(f, first).guid)
    ensures GoodTrail(f, start, lid, trail + [w], first, target)
    ensures !ToAgent(f, lid, trail[|trail| - 1]) && Routed(f, lid, w) ==>
              UnderWay(f, start, lid, trail + [w], first, target)
  {
    TrailNext(f, start, lid, trail, w, first, target);
  }

  /** The tables lead from `first` to the target along the trail `t`, soon enough to be found: at
      its last port the trace finds the target itself, or the agent of the switch before. */
  ghost predicate Reaches(f: Fabric, start: (nat, nat), lid: nat, t: seq<Visit>, first: Visit, target: PortInfo) {
    && GoodTrail(f, start, lid, t, first, target)
    && (forall i :: 0 <= i < |t| - 1 ==> f.info[t[i].node].kind != OtherNode)
    && var last := t[|t| - 1];
       && Standing(f, start, last) && PortOf(f, last).guid == target.guid
       && if |t| > 1 && ToAgent(f, lid, t[|t| - 2]) then |t| <= MAXHOPS
          else |t| < MAXHOPS && Passes(f, last) && Routed(f, lid, last)
  }

  /** What the outcome says about the last port of the trail. */
  ghost predicate Explains(f: Fabric, start: (nat, nat), lid: nat, trail: seq<Visit>, target: PortInfo, passes: nat,
                           outcome: Outcome)
    requires |trail| > 0
  {
    var last := trail[|trail| - 1];
    match outcome
    case Found =>
      && passes < MAXHOPS && |trail| == passes && Standing(f, start, last) && Passes(f, last) && Routed(f, lid, last)
      && PortOf(f, last).guid == target.guid && (|trail| > 1 ==> !ToAgent(f, lid, trail[|trail| - 2]))
    case FoundAtAgent =>
      && passes < MAXHOPS && |trail| == passes + 1 >= 2 && Standing(f, start, last)
      && PortOf(f, last).guid == target.guid && ToAgent(f, lid, trail[passes - 1])
    case TooFar =>
      && passes == MAXHOPS && |trail| >= MAXHOPS
      && (|trail| == MAXHOPS ==> !ToAgent(f, lid, trail[|trail| - 2]))
    case _ =>
      && GivesUp(f, start, lid, last, trail[0], target, outcome)
      && (|trail| > 1 ==> !ToAgent(f, lid, trail[|trail| - 2]))
  }

  /** Pass number `passes` of the loop: the outcome, if the trace ends with it, and the trail. */
  method OnePass(f: Fabric, start: (nat, nat), lid: nat, trail: seq<Visit>, first: Visit, target: PortInfo,
                 passes: nat)
    returns (outcome: Option<Outcome>, longer: seq<Visit>)
    requires UnderWay(f, start, lid, trail, first, target) && Known(f, first)
    requires |trail| == passes <= MAXHOPS
    ensures GoodTrail(f, start, lid, longer, first, target)
    ensures outcome.None? ==> |longer| == passes + 1 && UnderWay(f, start, lid, longer, first, target)
    ensures outcome.Some? ==> Explains(f, start, lid, longer, target, passes, outcome.value)
  {
    longer := trail;
    var v, maxhops := trail[|trail| - 1], MAXHOPS - passes;
    var kind := f.info[v.node].kind;
    if IsPortInactive(kind, PortOf(f, v), kind == SwitchNode && f.switches[v.node].enhSp0) {
      return Some(BadPort), longer;
    }
    if PortOf(f, v).guid == target.guid {
      return Some(if maxhops <= 0 then TooFar else Found), longer;
    }
    var m := MoveOn(f, start, lid, v, first, target, passes == 1);
    if m.Stop? { return Some(m.why), longer; }
    MoveExtends(f, start, lid, trail, m.next, first, target);
    longer := trail + [m.next];
    if m.Halt? { return Some(m.why), longer; }
    if m.AtAgent? { return Some(if maxhops <= 0 then TooFar else FoundAtAgent), longer; }
    return None, longer;
  }

  /** find_route without its force option, once its ends have answered. */
  method Trace(f: Fabric, start: (nat, nat), lid: nat, first: Visit, target: PortInfo)
    returns (outcome: Outcome, passes: nat, trail: seq<Visit>)
    requires Standing(f, start, first)
    ensures passes <= MAXHOPS && GoodTrail(f, start, lid, trail, first, target)
    ensures Explains(f, start, lid, trail, target, passes, outcome)
  {
    passes, trail := 0, [first];
    if f.info[first.node].kind == SwitchNode && ForwardPort(f, first.node, lid).None? {
      outcome := BadTable;
      return;
    }
    var maxhops := MAXHOPS;
    while maxhops > 0
      invariant 0 <= maxhops <= MAXHOPS && passes == MAXHOPS - maxhops
      invariant |trail| == passes + 1 && UnderWay(f, start, lid, trail, first, target)
    {
      maxhops, passes := maxhops - 1, passes + 1;
      var end, longer := OnePass(f, start, lid, trail, first, target, passes);
      trail := longer;
      if end.Some? { outcome := end.value; return; }
    }
    outcome := TooFar;
  }

  // ------------------------------------------------------------ found exactly when the tables lead there

  lemma {:induction false} StaysAtUnknown(f: Fabric, start: (nat, nat), lid: nat, t: seq<Visit>, i: nat, j: nat)
    requires IsTrail(f, start, lid, t) && i <= j < |t|
    requires t[i].node in f.info && f.info[t[i].node].kind == OtherNode
    ensures t[j] == t[i]
  {
    if j > i {
      StaysAtUnknown(f, start, lid, t, i, j - 1);
      assert Leaves(f, start, lid, t[j - 1], t[j - 1 + 1]);
    }
  }

  /** A trace that succeeds has followed the tables to the target. */
  lemma SuccessReaches(f: Fabric, start: (nat, nat), lid: nat, trail: seq<Visit>, first: Visit, target: PortInfo,
                       passes: nat, outcome: Outcome)
    requires GoodTrail(f, start, lid, trail, first, target) && Succeeds(outcome)
    requires Explains(f, start, lid, trail, target, passes, outcome)
    ensures Reaches(f, start, lid, trail, first, target)
  {
    forall i | 0 <= i < |trail| - 1 ensures f.info[trail[i].node].kind != OtherNode {
      assert Left(f, lid, trail[i], first, target);
      if f.info[trail[i].node].kind == OtherNode {
        StaysAtUnknown(f, start, lid, trail, i, |trail| - 1);
      }
    }
  }

  /** Two good trails, one of which ends at the target: the other is no longer. */
  lemma NotPastTarget(f: Fabric, start: (nat, nat), lid: nat, trail: seq<Visit>, t: seq<Visit>, first: Visit,
                      target: PortInfo)
    requires GoodTrail(f, start, lid, trail, first, target) && Reaches(f, start, lid, t, first, target)
    ensures |trail| <= |t|
    ensures forall i :: 0 <= i < |trail| ==> trail[i] == t[i]
  {
    forall i | 0 <= i < |trail| && i < |t| ensures trail[i] == t[i] { TrailsAgree(f, start, lid, trail, t, i); }
  }

  /** A trace gives up at no port of a route, for the next one is there to go to. */
  lemma NoReasonOnRoute(f: Fabric, start: (nat, nat), lid: nat, t: seq<Visit>, k: nat, first: Visit,
                        target: PortInfo, why: Outcome)
    requires Reaches(f, start, lid, t, first, target) && k < |t|
    requires k + 1 < |t| || !(k > 0 && ToAgent(f, lid, t[k - 1]))
    ensures !GivesUp(f, start, lid, t[k], first, target, why)
  {
    if k + 1 < |t| {
      assert Left(f, lid, t[k], first, target) && Leaves(f, start, lid, t[k], t[k + 1]);
      assert k + 1 < |t| - 1 ==> Left(f, lid, t[k + 1], first, target);
      assert k < |t| - 2 ==> !ToAgent(f, lid, t[k]);
    }
  }

  /** A trace finds the target if the tables lead there, and then by that very route. */
  lemma RouteIsFound(f: Fabric, start: (nat, nat), lid: nat, trail: seq<Visit>, t: seq<Visit>, first: Visit,
                     target: PortInfo, passes: nat, outcome: Outcome)
    requires GoodTrail(f, start, lid, trail, first, target) && Reaches(f, start, lid, t, first, target)
    requires Explains(f, start, lid, trail, target, passes, outcome)
    ensures Succeeds(outcome) && trail == t
  {
    var k := |trail| - 1;
    NotPastTarget(f, start, lid, trail, t, first, target);
    if !Succeeds(outcome) && outcome != TooFar {
      NoReasonOnRoute(f, start, lid, t, k, first, target, outcome);
    }
    assert k < |t| - 1 ==> Left(f, lid, t[k], first, target);
  }

  // ------------------------------------------------------------ on ports and cables

  /** The activity test, on the port: any port but a switch's must be in state 4, a switch's only
      if the switch has an enhanced port 0. */
  lemma PassesIff(f: Fabric, v: Visit)
    requires Known(f, v)
    ensures f.info[v.node].kind != SwitchNode ==> (Passes(f, v) <==> f.ports[(v.node, v.entry)].state == 4)
    ensures f.info[v.node].kind == SwitchNode ==>
              (Passes(f, v) <==>
                v.node in f.switches && (f.switches[v.node].enhSp0 ==> f.ports[(v.node, v.entry)].state == 4))
  {
  }

  /** A switch has no usable entry exactly if the LID is beyond both limits or outside the table, or
      the entry is no port of the switch. */
  lemma ForwardsIff(f: Fabric, node: nat, lid: nat)
    requires node in f.info && node in f.switches
    ensures var sw := f.switches[node];
            ForwardPort(f, node, lid).None? <==>
              || (sw.linearCap <= lid && sw.fdbTop < lid) || lid !in sw.fdb || sw.fdb[lid] > f.info[node].numPorts
    ensures ForwardPort(f, node, lid).Some? ==> ForwardPort(f, node, lid).value == f.switches[node].fdb[lid]
  {
  }

  /** Every port on the way that is not a switch's is in state 4, and so is a switch's if the switch
      has an enhanced port 0. */
  ghost predicate Active(f: Fabric, t: seq<Visit>) {
    forall i :: 0 <= i < |t| ==>
      && Known(f, t[i])
      && (f.info[t[i].node].kind != SwitchNode ==> f.ports[(t[i].node, t[i].entry)].state == 4)
      && (f.info[t[i].node].kind == SwitchNode && i < |t| - 1 ==>
            t[i].node in f.switches && (f.switches[t[i].node].enhSp0 ==> f.ports[(t[i].node, t[i].entry)].state == 4))
  }

  /** The way from switch port `v` to `w`: the switch's own entry for the LID, which is in the table
      and within one of its limits, and the cable in that port, or none to the switch's agent. */
  ghost predicate Forwards(f: Fabric, lid: nat, v: Visit, w: Visit) {
    && v.node in f.info && v.node in f.switches
    && var sw := f.switches[v.node];
       && lid in sw.fdb && (lid < sw.linearCap || lid <= sw.fdbTop) && sw.fdb[lid] <= f.info[v.node].numPorts
       && if sw.fdb[lid] == 0 then (w.node, w.entry) == (v.node, 0)
          else (v.node, sw.fdb[lid]) in f.links && f.links[(v.node, sw.fdb[lid])] == (w.node, w.entry)
  }

  ghost predicate ByTheTables(f: Fabric, lid: nat, t: seq<Visit>) {
    forall i :: 0 <= i < |t| - 1 && IsSwitch(f, t[i]) ==> Forwards(f, lid, t[i], t[i + 1])
  }

  /** A route that reaches the target does so over active ports and by the switches' tables. */
  lemma RouteOnFabric(f: Fabric, start: (nat, nat), lid: nat, t: seq<Visit>, first: Visit, target: PortInfo)
    requires Reaches(f, start, lid, t, first, target)
    ensures Active(f, t) && ByTheTables(f, lid, t)
    ensures f.ports[(t[|t| - 1].node, t[|t| - 1].entry)].guid == target.guid
  {
    forall i | 0 <= i < |t| - 1 && IsSwitch(f, t[i]) ensures Forwards(f, lid, t[i], t[i + 1]) {
      assert Left(f, lid, t[i], first, target) && Leaves(f, start, lid, t[i], t[i + 1]);
    }
    var last := |t| - 1;
    assert last > 0 ==> Leaves(f, start, lid, t[last - 1], t[last - 1 + 1]);
    assert forall i :: 0 <= i < last ==> Left(f, lid, t[i], first, target);
  }

  /** An adapter's port `a`, cabled to port `b` of a switch, whose entry for the LID is port `c`,
      cabled to another adapter's port `d`: all active, and only `d` the target. */
  predicate OneSwitch(f: Fabric, lid: nat, a: (nat, nat), b: (nat, nat), c: nat, d: (nat, nat), target: PortInfo) {
    && a.0 in f.info && f.info[a.0].kind == CA && a.1 != 0 && a in f.ports && f.ports[a].state == 4
    && a in f.links && f.links[a] == b
    && b.0 in f.info && f.info[b.0].kind == SwitchNode && b in f.ports && f.ports[b].state == 4
    && b.0 in f.switches && lid < f.switches[b.0].linearCap && lid in f.switches[b.0].fdb
    && f.switches[b.0].fdb[lid] == c && 0 < c <= f.info[b.0].numPorts
    && (b.0, c) in f.links && f.links[(b.0, c)] == d
    && d.0 in f.info && f.info[d.0].kind == CA && d in f.ports && f.ports[d].state == 4
    && f.ports[d].guid == target.guid && f.ports[a].guid != target.guid && f.ports[b].guid != target.guid
  }

  /** There the tables lead to the target, so the trace finds it. */
  lemma OneSwitchRoute(f: Fabric, lid: nat, a: (nat, nat), b: (nat, nat), c: nat, d: (nat, nat), path: seq<nat>,
                       target: PortInfo)
    returns (t: seq<Visit>)
    requires OneSwitch(f, lid, a, b, c, d, target) && |path| == PATH_SIZE
    ensures GetNode(f, a, path, 0).Some? && Reaches(f, a, lid, t, GetNode(f, a, path, 0).value, target)
  {
    var p1 := path[1 := a.1];
    var p2 := p1[2 := c];
    t := [Visit(a.0, a.1, a.1, path, 0), Visit(b.0, b.1, b.1, p1, 1), Visit(d.0, d.1, d.1, p2, 2)];
    ExtendWalks(f, a, path, 0, a.1);
    ExtendWalks(f, a, p1, 1, c);
  }

  /** find_route without its force option. It stops within 63 passes. Its trail leaves every switch
      by that switch's own forwarding entry for the destination, and all ports before the last pass
      the activity test and are not the target. It succeeds if and only if the tables lead to the
      target along some trail of at most 62 ports, or 63 if the last is a switch's own agent, and
      then it has followed that trail, over active ports and by the switches' tables. Otherwise the
      ends do not answer, the passes are used up, or it gives up for the reason it gives, at the port
      where its path has led it. */
  method FindRoute(f: Fabric, start: (nat, nat), path: seq<nat>, count: nat, target: Option<PortInfo>, lid: nat)
    returns (outcome: Outcome, passes: nat, trail: seq<Visit>)
    requires |path| == PATH_SIZE && count < PATH_SIZE
    ensures passes <= 63 && (outcome == TooFar ==> passes == 63)
    ensures var from := GetNode(f, start, path, count);
            if from.None? || target.None? then outcome == NoAnswer && trail == []
            else
              && GoodTrail(f, start, lid, trail, from.value, target.value)
              && Explains(f, start, lid, trail, target.value, passes, outcome)
              && (Succeeds(outcome) ==>
                    && Reaches(f, start, lid, trail, from.value, target.value)
                    && Active(f, trail) && ByTheTables(f, lid, trail))
              && (forall t :: Reaches(f, start, lid, t, from.value, target.value) ==> Succeeds(outcome) && trail == t)
              && (outcome == BadPath ==> count + |trail| >= 63)
  {
    var from := GetNode(f, start, path, count);
    if from.None? || target.None? { return NoAnswer, 0, []; }
    outcome, passes, trail := Trace(f, start, lid, from.value, target.value);
    if Succeeds(outcome) {
      SuccessReaches(f, start, lid, trail, from.value, target.value, passes, outcome);
      RouteOnFabric(f, start, lid, trail, from.value, target.value);
    }
    forall t | Reaches(f, start, lid, t, from.value, target.value) ensures Succeeds(outcome) && trail == t {
      RouteIsFound(f, start, lid, trail, t, from.value, target.value, passes, outcome);
    }
    TrailCount(f, start, lid, trail, |trail| - 1);
  }
}
