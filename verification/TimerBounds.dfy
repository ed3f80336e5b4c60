/** What the timeouts of tracked requests mean for a running daemon: how long a request stays on
    the list and how often its message goes back on the queue. */
module TimerBounds {
  import opened Options
  import opened Seqs
  import opened SockAddrs
  import opened WireMsgs
  import opened PortTables
  import opened MapRequests
  import opened Daemons

  /** A new request, if the step posted one. */
  function Posts(d: Daemon, s: Step): seq<ListStep>
    requires Enabled(d, s)
  {
    if |Next(d, s).reqs| > |d.reqs| then [Post(Next(d, s).reqs[0])] else []
  }

  /** What a step of the daemon does to its list of requests. */
  function ListSteps(d: Daemon, s: Step): seq<ListStep>
    requires Enabled(d, s)
  {
    match s
    case QueryStep(_, _, _, _, _, _, _, _, _, _, _, _) => Posts(d, s)
    case RequestStep(_, _, _, _, _, _) => Posts(d, s)
    case AcceptStep(_, m, _, _, _, _) =>
      var at := FindSame(d.table.ports, CpAddr(m));
      if at.None? then [] else [Reply(m.handle, {Query, Ack}, d.table.ports[at.value].local)] + Posts(d, s)
    case RejectStep(_, m, _) =>
      var at := FindSame(d.table.ports, CpAddr(m));
      if at.None? then [] else [Reply(m.handle, {Query}, d.table.ports[at.value].local)]
    case AckStep(_, m) =>
      if FindMapping(d.table.ports, ApAddr(m), false).None? then [] else [Reply(m.handle, {Accept}, ApAddr(m))]
    case TimerStep(failed) => [TimerPass(failed)]
    case _ => []
  }

  lemma RunOne(reqs: seq<MapReq>, l: ListStep)
    ensures Run(reqs, [l]) == Apply(reqs, l) && Passes([l]) == if l.TimerPass? then 1 else 0
  {
    assert [l][..0] == [];
  }

  /** A request at the head of a list that is otherwise the same was posted. */
  lemma PostsIsRun(d: Daemon, s: Step, reqs: seq<MapReq>)
    requires Enabled(d, s) && |reqs| == |d.reqs|
    requires Next(d, s).reqs == reqs || (Next(d, s).reqs != [] && Next(d, s).reqs == [Next(d, s).reqs[0]] + reqs)
    ensures Run(reqs, Posts(d, s)) == Next(d, s).reqs && Passes(Posts(d, s)) == 0
  {
    if Posts(d, s) != [] { RunOne(reqs, Posts(d, s)[0]); }
  }

  lemma AcceptOnList(d: Daemon, s: Step)
    requires s.AcceptStep? && Enabled(d, s)
    ensures Run(d.reqs, ListSteps(d, s)) == Next(d, s).reqs && Passes(ListSteps(d, s)) == 0
  {
    var at := FindSame(d.table.ports, CpAddr(s.m));
    if at.Some? {
      var l := Reply(s.m.handle, {Query, Ack}, d.table.ports[at.value].local);
      var reqs := Apply(d.reqs, l);
      PostsIsRun(d, s, reqs);
      RunOne(d.reqs, l);
      RunAppend(d.reqs, [l], Posts(d, s));
    }
  }

  lemma OneStepOnList(d: Daemon, s: Step)
    requires (s.RejectStep? || s.AckStep? || s.TimerStep?) && Enabled(d, s)
    ensures Run(d.reqs, ListSteps(d, s)) == Next(d, s).reqs
    ensures Passes(ListSteps(d, s)) == if s.TimerStep? then 1 else 0
  {
    if ListSteps(d, s) != [] { RunOne(d.reqs, ListSteps(d, s)[0]); }
  }

  /** Every step of a daemon acts on the list by posts, replies and passes; a pass is what a
      timer step makes. */
  lemma StepOnList(d: Daemon, s: Step)
    requires Enabled(d, s)
    ensures Run(d.reqs, ListSteps(d, s)) == Next(d, s).reqs
    ensures Passes(ListSteps(d, s)) == if s.TimerStep? then 1 else 0
  {
    match s
    case AcceptStep(_, _, _, _, _, _) => AcceptOnList(d, s);
    case QueryStep(_, _, _, _, _, _, _, _, _, _, _, _) => PostsIsRun(d, s, d.reqs);
    case RequestStep(_, _, _, _, _, _) => PostsIsRun(d, s, d.reqs);
    case RejectStep(_, _, _) => OneStepOnList(d, s);
    case AckStep(_, _) => OneStepOnList(d, s);
    case TimerStep(_) => OneStepOnList(d, s);
    case _ =>
  }

  // ------------------------------------------------------------ runs

  /** What each step of a run did to the list. */
  ghost function Acts(states: seq<Daemon>, steps: seq<Step>): (acts: seq<seq<ListStep>>)
    requires IsRun(states, steps)
    ensures |acts| == |steps|
    ensures forall k :: 0 <= k < |steps| ==> acts[k] == ListSteps(states[k], steps[k])
  {
    seq(|steps|, k requires 0 <= k < |steps| => ListSteps(states[k], steps[k]))
  }

  function Concat(acts: seq<seq<ListStep>>, a: nat, n: nat): seq<ListStep>
    requires a <= n <= |acts|
  {
    if n == a then [] else Concat(acts, a, n - 1) + acts[n - 1]
  }

  /** The lists of a run, each made from the one before by what was done to it. */
  ghost predicate Acting(lists: seq<seq<MapReq>>, acts: seq<seq<ListStep>>) {
    |lists| == |acts| + 1 && forall k :: 0 <= k < |acts| ==> Run(lists[k], acts[k]) == lists[k + 1]
  }

  lemma {:induction false} ActingIsRun(lists: seq<seq<MapReq>>, acts: seq<seq<ListStep>>, a: nat, n: nat)
    requires Acting(lists, acts) && a <= n <= |acts|
    ensures Run(lists[a], Concat(acts, a, n)) == lists[n]
  {
    if n > a {
      ActingIsRun(lists, acts, a, n - 1);
      RunAppend(lists[a], Concat(acts, a, n - 1), acts[n - 1]);
    }
  }

  /** The passes among the steps from `a` to `n`. */
  lemma {:induction false} ActingPasses(acts: seq<seq<ListStep>>, steps: seq<Step>, a: nat, n: nat)
    requires a <= n <= |acts| == |steps|
    requires forall k :: 0 <= k < |acts| ==> Passes(acts[k]) == if steps[k].TimerStep? then 1 else 0
    ensures Passes(Concat(acts, a, n)) == TimerSteps(steps, a, n)
  {
    if n > a {
      ActingPasses(acts, steps, a, n - 1);
      RunAppend([], Concat(acts, a, n - 1), acts[n - 1]);
    }
  }

  /** The timer passes among the steps from `a` to `n`. */
  function TimerSteps(steps: seq<Step>, a: nat, n: nat): nat
    requires a <= n <= |steps|
  {
    if n == a then 0 else TimerSteps(steps, a, n - 1) + if steps[n - 1].TimerStep? then 1 else 0
  }

  ghost function Lists(states: seq<Daemon>): seq<seq<MapReq>> {
    seq(|states|, k requires 0 <= k < |states| => states[k].reqs)
  }

  /** What the steps from `a` to `n` of a run did to the list. */
  ghost function History(states: seq<Daemon>, steps: seq<Step>, a: nat, n: nat): seq<ListStep>
    requires IsRun(states, steps) && a <= n <= |steps|
  {
    Concat(Acts(states, steps), a, n)
  }

  lemma RunsAct(states: seq<Daemon>, steps: seq<Step>)
    requires IsRun(states, steps)
    ensures Acting(Lists(states), Acts(states, steps))
    ensures forall k :: 0 <= k < |steps| ==> Passes(Acts(states, steps)[k]) == if steps[k].TimerStep? then 1 else 0
  {
    forall k | 0 <= k < |steps|
      ensures Run(Lists(states)[k], Acts(states, steps)[k]) == Lists(states)[k + 1]
      ensures Passes(Acts(states, steps)[k]) == if steps[k].TimerStep? then 1 else 0
    {
      StepOnList(states[k], steps[k]);
    }
  }

  lemma HistoryIsRun(states: seq<Daemon>, steps: seq<Step>, a: nat, n: nat)
    requires IsRun(states, steps) && a <= n <= |steps|
    ensures Run(states[a].reqs, History(states, steps, a, n)) == states[n].reqs
    ensures Passes(History(states, steps, a, n)) == TimerSteps(steps, a, n)
  {
    RunsAct(states, steps);
    ActingIsRun(Lists(states), Acts(states, steps), a, n);
    ActingPasses(Acts(states, steps), steps, a, n);
  }

  /** The request at position `i` of the list, to be followed. */
  function Watch(d: Daemon, i: nat): Followed
    requires i < |d.reqs|
  {
    Followed(d.reqs[..i], Some(d.reqs[i]), d.reqs[i + 1..], [], 0, false)
  }

  /** That request, followed from state `a` to state `n` of a run. */
  ghost function Watched(states: seq<Daemon>, steps: seq<Step>, a: nat, n: nat, i: nat): Followed
    requires IsRun(states, steps) && a <= n <= |steps| && i < |states[a].reqs|
  {
    Follow(Watch(states[a], i), History(states, steps, a, n))
  }

  lemma WatchedList(states: seq<Daemon>, steps: seq<Step>, a: nat, n: nat, i: nat)
    requires IsRun(states, steps) && a <= n <= |steps| && i < |states[a].reqs|
    ensures List(Watched(states, steps, a, n, i)) == states[n].reqs
  {
    var f := Watch(states[a], i);
    assert List(f) == states[a].reqs;
    FollowIsRun(f, History(states, steps, a, n));
    HistoryIsRun(states, steps, a, n);
  }

  /** In every run of a daemon, a request that no reply matches from when it is first tracked: it is
      on the list up to its tenth timer pass and gone with the eleventh. If it is a query or accept
      its message was put on the queue on passes 2 to 10, nine times in all, less the passes that
      found no memory; for an ack nothing was. */
  lemma TimerBound(states: seq<Daemon>, steps: seq<Step>, a: nat, n: nat, i: nat)
    requires IsRun(states, steps) && a <= n <= |steps| && i < |states[a].reqs|
    requires states[a].reqs[i].timeout == MAP_REQ_TIMEOUT
    requires !Watched(states, steps, a, n, i).hit
    ensures var g, passes, r := Watched(states, steps, a, n, i), TimerSteps(steps, a, n), states[a].reqs[i];
            && List(g) == states[n].reqs
            && (g.self.Some? <==> passes <= 10)
            && (g.self.Some? ==> g.self.value == r.(timeout := MAP_REQ_TIMEOUT - passes))
            && |g.put| + g.denied == Retries(r.kind, passes)
            && forall x :: x in g.put ==> r.msg == Some(x)
  {
    WatchedList(states, steps, a, n, i);
    HistoryIsRun(states, steps, a, n);
    RunKeeps(states, steps, a);
    assert ReqInv(states[a].reqs[i], states[a].issued);
    UnansweredLife(Watch(states[a], i), History(states, steps, a, n), states[a].reqs[i]);
  }

  lemma {:induction false} FollowAppend(f: Followed, a: seq<ListStep>, b: seq<ListStep>)
    ensures Follow(f, a + b) == Follow(Follow(f, a), b)
  {
    if b == [] {
      NoneAdded(a);
    } else {
      var last := |b| - 1;
      FollowAppend(f, a, b[..last]);
      assert (a + b)[..|a + b| - 1] == a + b[..last];
    }
  }

  lemma FollowOne(f: Followed, l: ListStep)
    ensures Follow(f, [l]) == FollowStep(f, l)
  {
    assert [l][..0] == [];
  }

  lemma WatchedNext(states: seq<Daemon>, steps: seq<Step>, a: nat, n: nat, i: nat)
    requires IsRun(states, steps) && a <= n < |steps| && i < |states[a].reqs| && steps[n].TimerStep?
    ensures Watched(states, steps, a, n + 1, i).put ==
              Puts(Watched(states, steps, a, n, i), steps[n].failed) + Watched(states, steps, a, n, i).put
  {
    var l := TimerPass(steps[n].failed);
    assert Acts(states, steps)[n] == [l];
    FollowAppend(Watch(states[a], i), History(states, steps, a, n), [l]);
    FollowOne(Watched(states, steps, a, n, i), l);
  }

  /** What a followed request is recorded to have put on the queue, the daemon's queue got: each
      timer pass adds it, between what later and earlier requests put there, in front of what
      the queue held. */
  lemma PassFillsQueue(states: seq<Daemon>, steps: seq<Step>, a: nat, n: nat, i: nat)
    requires IsRun(states, steps) && a <= n < |steps| && i < |states[a].reqs| && steps[n].TimerStep?
    ensures QueueGets(Watched(states, steps, a, n, i), steps[n].failed, states[n].pending, states[n + 1].pending)
    ensures Watched(states, steps, a, n + 1, i).put ==
              Puts(Watched(states, steps, a, n, i), steps[n].failed) + Watched(states, steps, a, n, i).put
  {
    WatchedQueue(Watched(states, steps, a, n, i), states, steps, a, n, i);
    WatchedNext(states, steps, a, n, i);
  }

  lemma WatchedQueue(g: Followed, states: seq<Daemon>, steps: seq<Step>, a: nat, n: nat, i: nat)
    requires IsRun(states, steps) && a <= n < |steps| && i < |states[a].reqs| && steps[n].TimerStep?
    requires g == Watched(states, steps, a, n, i)
    ensures QueueGets(g, steps[n].failed, states[n].pending, states[n + 1].pending)
  {
    WatchedList(states, steps, a, n, i);
    PassQueue(g, states[n], steps[n], states[n + 1]);
  }

  lemma PassQueue(g: Followed, d: Daemon, s: Step, d': Daemon)
    requires s.TimerStep? && d' == Next(d, s) && List(g) == d.reqs
    ensures QueueGets(g, s.failed, d.pending, d'.pending)
  {
    FollowedQueue(g, d.pending, s.failed);
  }

  /** In every run, a request that a reply has completed is gone after the next timer pass, which
      puts nothing on the queue but what other requests do. */
  lemma CompletedInRun(states: seq<Daemon>, steps: seq<Step>, n: nat, i: nat)
    requires IsRun(states, steps) && n < |steps| && steps[n].TimerStep?
    requires i < |states[n].reqs| && states[n].reqs[i].complete
    ensures var before, after := states[n].reqs[..i], states[n].reqs[i + 1..];
            && states[n + 1].reqs == Pass(before) + Pass(after)
            && states[n + 1].pending ==
                 Requeued(after, i + 1, steps[n].failed) + Requeued(before, 0, steps[n].failed) + states[n].pending
  {
    RunKeeps(states, steps, n);
    var reqs, r := states[n].reqs, states[n].reqs[i];
    assert ReqInv(r, states[n].issued);
    assert reqs == reqs[..i] + [r] + reqs[i + 1..];
    assert Serviced(r.(complete := false)) == r;
    CompletedIsRemoved(reqs[..i], r.(complete := false), reqs[i + 1..], states[n].pending, steps[n].failed);
  }
}
