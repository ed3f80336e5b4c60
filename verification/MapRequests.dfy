/** The list of tracked mapping requests, the matching of replies to it, and the timer
    thread's pass over it. */
module MapRequests {
  import opened Options
  import opened Seqs
  import opened SockAddrs
  import opened WireMsgs

  const MAP_REQ_TIMEOUT: nat := 10

  datatype Kind = Query | Accept | Ack

  /** The client message a request answers to. */
  datatype NlHeader = NlHeader(msgType: nat, seqNo: nat, pid: nat)

  /** A wire message with its destination host. `port` records which entry of the sender's
      port table it was formed from. */
  datatype SendMsg = SendMsg(to: nat, parms: Parms, port: nat)

  datatype MapReq = MapReq(
    kind: Kind, handle: Handle, src: SockAddr, remote: SockAddr, nl: NlHeader,
    msg: Option<SendMsg>, timeout: nat, complete: bool)

  // ------------------------------------------------------------ matching

  predicate Matches(r: MapReq, handle: Handle, kinds: set<Kind>, src: SockAddr) {
    handle == r.handle && r.kind in kinds && SameSockAddr(src, r.src)
  }

  /** The position of the first request a reply matches. */
  function FindReq(reqs: seq<MapReq>, handle: Handle, kinds: set<Kind>, src: SockAddr): (r: Option<nat>)
    ensures r.Some? ==> r.value < |reqs| && Matches(reqs[r.value], handle, kinds, src)
    ensures r.Some? ==> forall j :: 0 <= j < r.value ==> !Matches(reqs[j], handle, kinds, src)
    ensures r.None? ==> forall j :: 0 <= j < |reqs| ==> !Matches(reqs[j], handle, kinds, src)
  {
    if reqs == [] then None else
    var last := |reqs| - 1;
    var r := FindReq(reqs[..last], handle, kinds, src);
    if r.Some? then r else if Matches(reqs[last], handle, kinds, src) then Some(last) else None
  }

  /** What a reply does to the request it matches: an ack tracker starts its wait again,
      anything else is complete and may be freed. */
  function Serviced(r: MapReq): MapReq {
    if r.complete then r
    else if r.kind == Ack then r.(timeout := MAP_REQ_TIMEOUT)
    else r.(timeout := 0, complete := true)
  }

  /** update_iwpm_map_request with its update flag set. */
  function Service(reqs: seq<MapReq>, handle: Handle, kinds: set<Kind>, src: SockAddr): (r: seq<MapReq>)
    ensures |r| == |reqs|
  {
    match FindReq(reqs, handle, kinds, src)
    case None => reqs
    case Some(i) => reqs[i := Serviced(reqs[i])]
  }

  /** A reply reaches the first request with its handle, one of its kinds and its address: an open
      query or accept is then complete and has no time left, a tracked ack has its ten seconds again.
      No other request changes. */
  lemma ServiceReaches(reqs: seq<MapReq>, handle: Handle, kinds: set<Kind>, src: SockAddr, i: nat)
    requires i < |reqs|
    ensures var r, r' := reqs[i], Service(reqs, handle, kinds, src)[i];
            var reached := && r.handle == handle && r.kind in kinds && SameSockAddr(src, r.src)
                           && forall j :: 0 <= j < i && reqs[j].handle == handle && reqs[j].kind in kinds ==>
                                !SameSockAddr(src, reqs[j].src);
            r' == if !reached || r.complete then r
                  else if r.kind == Ack then r.(timeout := 10) else r.(timeout := 0, complete := true)
  {
    assert forall j :: 0 <= j < |reqs| ==>
      (Matches(reqs[j], handle, kinds, src) <==>
        reqs[j].handle == handle && reqs[j].kind in kinds && SameSockAddr(src, reqs[j].src));
  }

  // ------------------------------------------------------------ the timer pass

  /** A pass re-queues an unanswered query or accept, except in its first second. */
  predicate Retransmits(r: MapReq) {
    0 < r.timeout < MAP_REQ_TIMEOUT && r.kind != Ack
  }

  /** One pass over one request. */
  function Tick(r: MapReq): Option<MapReq> {
    if r.timeout > 0 then Some(r.(timeout := r.timeout - 1)) else None
  }

  function ToSeq(r: Option<MapReq>): seq<MapReq> {
    match r case Some(x) => [x] case None => []
  }

  /** One pass over the list: what remains of it. */
  function Pass(reqs: seq<MapReq>): seq<MapReq> {
    if reqs == [] then [] else
    Pass(reqs[..|reqs| - 1]) + ToSeq(Tick(reqs[|reqs| - 1]))
  }

  /** One pass over the list: the pending queue afterwards. Retransmissions go to its head;
      `failed` are the positions for which no memory was left. */
  function Resend(reqs: seq<MapReq>, pending: seq<SendMsg>, failed: set<nat>): seq<SendMsg> {
    if reqs == [] then pending else
    var last := |reqs| - 1;
    var q := Resend(reqs[..last], pending, failed);
    if Retransmits(reqs[last]) && reqs[last].msg.Some? && last !in failed then [reqs[last].msg.value] + q else q
  }

  /** What one request at position `at` puts on the queue. */
  function Requeues(r: MapReq, at: nat, failed: set<nat>): seq<SendMsg> {
    if Retransmits(r) && r.msg.Some? && at !in failed then [r.msg.value] else []
  }

  /** What the requests from position `base` of a list on put on the queue, the last one first. */
  function Requeued(reqs: seq<MapReq>, base: nat, failed: set<nat>): seq<SendMsg> {
    if reqs == [] then [] else
    var last := |reqs| - 1;
    Requeues(reqs[last], base + last, failed) + Requeued(reqs[..last], base, failed)
  }

  lemma RequeuedNext(reqs: seq<MapReq>, r: MapReq, base: nat, failed: set<nat>)
    ensures Requeued(reqs + [r], base, failed) == Requeues(r, base + |reqs|, failed) + Requeued(reqs, base, failed)
  {
    assert (reqs + [r])[..|reqs|] == reqs;
  }

  /** A pass only adds to the queue. */
  lemma {:induction false} ResendAdds(reqs: seq<MapReq>, pending: seq<SendMsg>, failed: set<nat>)
    ensures Resend(reqs, pending, failed) == Requeued(reqs, 0, failed) + pending
  {
    if reqs == [] {
      NoneAdded(pending);
    } else {
      var last := |reqs| - 1;
      ResendAdds(reqs[..last], pending, failed);
      NoneAdded(Requeued(reqs[..last], 0, failed) + pending);
      Assoc(Requeues(reqs[last], last, failed), Requeued(reqs[..last], 0, failed), pending);
    }
  }

  /** One request more at the end of two lists. */
  lemma RequeuedWhole(a: seq<MapReq>, b: seq<MapReq>, r: MapReq, base: nat, failed: set<nat>)
    ensures Requeued(a + (b + [r]), base, failed) ==
              Requeues(r, base + |a| + |b|, failed) + Requeued(a + b, base, failed)
  {
    Assoc(a, b, [r]);
    RequeuedNext(a + b, r, base, failed);
  }

  lemma RequeuedAppendNext(a: seq<MapReq>, b: seq<MapReq>, r: MapReq, base: nat, failed: set<nat>)
    requires Requeued(a + b, base, failed) == Requeued(b, base + |a|, failed) + Requeued(a, base, failed)
    ensures Requeued(a + (b + [r]), base, failed) ==
              Requeued(b + [r], base + |a|, failed) + Requeued(a, base, failed)
  {
    RequeuedWhole(a, b, r, base, failed);
    RequeuedNext(b, r, base + |a|, failed);
    Assoc(Requeues(r, base + |a| + |b|, failed), Requeued(b, base + |a|, failed), Requeued(a, base, failed));
  }

  lemma {:induction false} RequeuedAppend(a: seq<MapReq>, b: seq<MapReq>, base: nat, failed: set<nat>)
    ensures Requeued(a + b, base, failed) == Requeued(b, base + |a|, failed) + Requeued(a, base, failed)
  {
    if b == [] {
      RequeuedNothing(a, base, failed);
    } else {
      var front, r := b[..|b| - 1], b[|b| - 1];
      assert b == front + [r];
      RequeuedAppend(a, front, base, failed);
      RequeuedAppendNext(a, front, r, base, failed);
    }
  }

  lemma RequeuedNothing(a: seq<MapReq>, base: nat, failed: set<nat>)
    ensures Requeued(a + [], base, failed) == Requeued([], base + |a|, failed) + Requeued(a, base, failed)
  {
    NoneAdded(a);
    NoneAdded(Requeued(a, base, failed));
  }

  /** The queue after a pass, by where its messages come from: requests behind the one at
      |before|, that one, requests before it, and what was on the queue. */
  lemma QueueAfterPass(before: seq<MapReq>, r: MapReq, after: seq<MapReq>, pending: seq<SendMsg>, failed: set<nat>)
    ensures Resend(before + [r] + after, pending, failed) ==
              Requeued(after, |before| + 1, failed) + Requeues(r, |before|, failed)
              + Requeued(before, 0, failed) + pending
  {
    ResendAdds(before + [r] + after, pending, failed);
    RequeuedAppend(before + [r], after, 0, failed);
    RequeuedNext(before, r, 0, failed);
    Assoc(Requeued(after, |before| + 1, failed), Requeues(r, |before|, failed), Requeued(before, 0, failed));
  }

  lemma PassSnoc(reqs: seq<MapReq>, r: MapReq)
    ensures Pass(reqs + [r]) == Pass(reqs) + ToSeq(Tick(r))
  {
    assert (reqs + [r])[..|reqs|] == reqs;
  }

  lemma PassAppendNext(a: seq<MapReq>, b: seq<MapReq>, r: MapReq)
    requires Pass(a + b) == Pass(a) + Pass(b)
    ensures Pass(a + (b + [r])) == Pass(a) + Pass(b + [r])
  {
    Assoc(a, b, [r]);
    PassSnoc(a + b, r);
    PassSnoc(b, r);
    Assoc(Pass(a), Pass(b), ToSeq(Tick(r)));
  }

  lemma {:induction false} PassAppend(a: seq<MapReq>, b: seq<MapReq>)
    ensures Pass(a + b) == Pass(a) + Pass(b)
  {
    if b == [] {
      NoneAdded(a);
      NoneAdded(Pass(a));
    } else {
      var front, r := b[..|b| - 1], b[|b| - 1];
      assert b == front + [r];
      PassAppend(a, front);
      PassAppendNext(a, front, r);
    }
  }

  lemma PassSplit(before: seq<MapReq>, self: Option<MapReq>, after: seq<MapReq>)
    ensures Pass(before + ToSeq(self) + after) ==
              Pass(before) + ToSeq(match self case None => None case Some(x) => Tick(x)) + Pass(after)
  {
    PassAppend(before + ToSeq(self), after);
    PassAppend(before, ToSeq(self));
  }

  /** Every survivor comes from a request of the list. */
  lemma {:induction false} PassOrigin(reqs: seq<MapReq>, k: nat) returns (j: nat)
    requires k < |Pass(reqs)|
    ensures j < |reqs| && Tick(reqs[j]) == Some(Pass(reqs)[k])
  {
    var last := |reqs| - 1;
    if k < |Pass(reqs[..last])| {
      j := PassOrigin(reqs[..last], k);
    } else {
      j := last;
    }
  }

  /** Every message in the queue was there before or is kept by a request of the list. */
  lemma {:induction false} ResendOrigin(reqs: seq<MapReq>, pending: seq<SendMsg>, failed: set<nat>, m: SendMsg)
    requires m in Resend(reqs, pending, failed)
    ensures m in pending || exists j :: 0 <= j < |reqs| && reqs[j].msg == Some(m)
  {
    if reqs != [] {
      var last := |reqs| - 1;
      var q := Resend(reqs[..last], pending, failed);
      if m in q {
        ResendOrigin(reqs[..last], pending, failed, m);
        if m !in pending {
          var j :| 0 <= j < last && reqs[..last][j].msg == Some(m);
          assert reqs[j].msg == Some(m);
        }
      } else {
        assert reqs[last].msg == Some(m);
      }
    }
  }

  // ------------------------------------------------------------ the timeout measure

  /** The seconds the list can still live on without new posts or refreshes. */
  function Budget(reqs: seq<MapReq>): nat {
    if reqs == [] then 0 else Budget(reqs[..|reqs| - 1]) + reqs[|reqs| - 1].timeout + 1
  }

  /** Each pass spends exactly one unit per request, so a busy list shrinks its budget. */
  lemma {:induction false} PassSpendsBudget(reqs: seq<MapReq>)
    ensures Budget(Pass(reqs)) + |reqs| == Budget(reqs)
  {
    if reqs != [] {
      var last := |reqs| - 1;
      PassSpendsBudget(reqs[..last]);
      var p := Pass(reqs[..last]);
      if Tick(reqs[last]).Some? {
        assert (p + [Tick(reqs[last]).value])[..|p|] == p;
      } else {
        assert p + [] == p;
      }
    }
  }

  // ------------------------------------------------------------ a request's life

  /** What can happen to the list: a new request is posted at its head, a reply updates the
      request it matches, the timer thread makes a pass. */
  datatype ListStep =
    | Post(req: MapReq)
    | Reply(handle: Handle, kinds: set<Kind>, src: SockAddr)
    | TimerPass(failed: set<nat>)

  function Apply(reqs: seq<MapReq>, s: ListStep): seq<MapReq> {
    match s
    case Post(r) => [r] + reqs
    case Reply(h, kinds, src) => Service(reqs, h, kinds, src)
    case TimerPass(_) => Pass(reqs)
  }

  function Passes(steps: seq<ListStep>): nat {
    if steps == [] then 0 else Passes(steps[..|steps| - 1]) + if steps[|steps| - 1].TimerPass? then 1 else 0
  }

  function Run(reqs: seq<MapReq>, steps: seq<ListStep>): seq<MapReq> {
    if steps == [] then reqs else Apply(Run(reqs, steps[..|steps| - 1]), steps[|steps| - 1])
  }

  lemma {:induction false} RunAppend(reqs: seq<MapReq>, a: seq<ListStep>, b: seq<ListStep>)
    ensures Run(reqs, a + b) == Run(Run(reqs, a), b)
    ensures Passes(a + b) == Passes(a) + Passes(b)
  {
    if b == [] {
      assert a + b == a;
    } else {
      var last := |b| - 1;
      RunAppend(reqs, a, b[..last]);
      assert (a + b)[..|a + b| - 1] == a + b[..last];
    }
  }

  /** A request followed through a run: `before` and `after` are the rest of the list around it,
      `put` the messages that passes put on the queue for it, `denied` the passes that found no
      memory to, `hit` whether some reply matched it. */
  datatype Followed = Followed(
    before: seq<MapReq>, self: Option<MapReq>, after: seq<MapReq>, put: seq<SendMsg>, denied: nat, hit: bool)

  function List(f: Followed): seq<MapReq> { f.before + ToSeq(f.self) + f.after }

  /** What a pass puts on the queue for the request followed. */
  function Puts(f: Followed, failed: set<nat>): seq<SendMsg> {
    if f.self.Some? then Requeues(f.self.value, |f.before|, failed) else []
  }

  function FollowStep(f: Followed, s: ListStep): Followed {
    match s
    case Post(r) => f.(before := [r] + f.before)
    case TimerPass(failed) =>
      Followed(Pass(f.before), match f.self case None => None case Some(x) => Tick(x), Pass(f.after),
               Puts(f, failed) + f.put,
               f.denied + if f.self.Some? && Retransmits(f.self.value) && |f.before| in failed then 1 else 0, f.hit)
    case Reply(h, kinds, src) =>
      var n, m := |f.before|, |ToSeq(f.self)|;
      var l := Service(List(f), h, kinds, src);
      f.(before := l[..n], self := if f.self.Some? then Some(l[n]) else None, after := l[n + m..],
         hit := f.hit || (f.self.Some? && FindReq(List(f), h, kinds, src) == Some(n)))
  }

  function Follow(f: Followed, steps: seq<ListStep>): Followed {
    if steps == [] then f else FollowStep(Follow(f, steps[..|steps| - 1]), steps[|steps| - 1])
  }

  lemma FollowStepIsApply(f: Followed, s: ListStep)
    ensures List(FollowStep(f, s)) == Apply(List(f), s)
  {
    match s
    case Post(r) =>
      Assoc([r], f.before, ToSeq(f.self));
      Assoc([r], f.before + ToSeq(f.self), f.after);
    case TimerPass(_) => PassSplit(f.before, f.self, f.after);
    case Reply(h, kinds, src) => ThreeParts(Service(List(f), h, kinds, src), |f.before|, f.self.Some?);
  }

  lemma ThreeParts(l: seq<MapReq>, n: nat, some: bool)
    requires n + (if some then 1 else 0) <= |l|
    ensures l == l[..n] + ToSeq(if some then Some(l[n]) else None) + l[n + (if some then 1 else 0)..]
  {
  }

  /** Following a request does not change the run. */
  lemma {:induction false} FollowIsRun(f: Followed, steps: seq<ListStep>)
    ensures List(Follow(f, steps)) == Run(List(f), steps)
  {
    if steps != [] {
      FollowIsRun(f, steps[..|steps| - 1]);
      FollowStepIsApply(Follow(f, steps[..|steps| - 1]), steps[|steps| - 1]);
    }
  }

  lemma QueueOfTwo(before: seq<MapReq>, after: seq<MapReq>, pending: seq<SendMsg>, failed: set<nat>)
    ensures Resend(before + after, pending, failed) ==
              Requeued(after, |before|, failed) + Requeued(before, 0, failed) + pending
  {
    ResendAdds(before + after, pending, failed);
    RequeuedAppend(before, after, 0, failed);
  }

  lemma QueueWithout(before: seq<MapReq>, after: seq<MapReq>, pending: seq<SendMsg>, failed: set<nat>)
    ensures Resend(before + [] + after, pending, failed) ==
              Requeued(after, |before|, failed) + [] + Requeued(before, 0, failed) + pending
  {
    NoneAdded(before);
    NoneAdded(Requeued(after, |before|, failed));
    QueueOfTwo(before, after, pending, failed);
  }

  /** A pass turned the queue `was` into `now`: what requests behind the one followed put there,
      what that one did, what the ones before it did, and what was there already. */
  ghost predicate QueueGets(f: Followed, failed: set<nat>, was: seq<SendMsg>, now: seq<SendMsg>) {
    now == Requeued(f.after, |f.before| + |ToSeq(f.self)|, failed) + Puts(f, failed)
           + Requeued(f.before, 0, failed) + was
  }

  lemma FollowedQueue(f: Followed, pending: seq<SendMsg>, failed: set<nat>)
    ensures QueueGets(f, failed, pending, Resend(List(f), pending, failed))
  {
    match f.self
    case Some(r) => QueueAfterPass(f.before, r, f.after, pending, failed);
    case None => QueueWithout(f.before, f.after, pending, failed);
  }

  /** How many of `n` passes re-queue a request that no reply matches: all but the first, up to
      the tenth, or none if it only waits for a repeated accept. */
  function Retries(kind: Kind, n: nat): nat {
    if kind == Ack || n <= 1 then 0 else if n <= 10 then n - 1 else 9
  }

  /** Where a request stands after `n` passes that no reply interrupted. */
  ghost predicate Waiting(f: Followed, r: MapReq, n: nat) {
    && f.self == (if n <= MAP_REQ_TIMEOUT then Some(r.(timeout := MAP_REQ_TIMEOUT - n)) else None)
    && |f.put| + f.denied == Retries(r.kind, n) && forall x :: x in f.put ==> r.msg == Some(x)
  }

  /** A request that is sent has its message. */
  predicate HasMsg(r: MapReq) { r.kind != Ack ==> r.msg.Some? }

  lemma PassWaits(f: Followed, failed: set<nat>, r: MapReq, n: nat)
    requires Waiting(f, r, n) && HasMsg(r)
    ensures Waiting(FollowStep(f, TimerPass(failed)), r, n + 1)
  {
  }

  lemma ReplyWaits(f: Followed, s: ListStep, r: MapReq, n: nat)
    requires Waiting(f, r, n) && s.Reply? && !FollowStep(f, s).hit
    ensures Waiting(FollowStep(f, s), r, n)
  {
    if f.self.Some? { assert List(f)[|f.before|] == f.self.value; }
  }

  lemma StepWaits(f: Followed, s: ListStep, r: MapReq, n: nat)
    requires Waiting(f, r, n) && HasMsg(r) && !FollowStep(f, s).hit
    ensures Waiting(FollowStep(f, s), r, if s.TimerPass? then n + 1 else n)
  {
    match s
    case TimerPass(failed) => PassWaits(f, failed, r, n);
    case Reply(_, _, _) => ReplyWaits(f, s, r, n);
    case Post(_) =>
  }

  lemma {:induction false} RunWaits(f: Followed, steps: seq<ListStep>, r: MapReq)
    requires Waiting(f, r, 0) && HasMsg(r) && !Follow(f, steps).hit
    ensures Waiting(Follow(f, steps), r, Passes(steps))
  {
    if steps != [] {
      var front, s := steps[..|steps| - 1], steps[|steps| - 1];
      RunWaits(f, front, r);
      StepWaits(Follow(f, front), s, r, Passes(front));
    }
  }

  /** A request that no reply matches, in any run: each pass takes one second off it and it is gone
      on the 11th. The message of a query or accept has been put on the queue on passes 2 to 10,
      that is nine times, less the passes that found no memory; for an ack nothing is. */
  lemma UnansweredLife(f: Followed, steps: seq<ListStep>, r: MapReq)
    requires f.self == Some(r) && f.put == [] && f.denied == 0
    requires r.timeout == MAP_REQ_TIMEOUT && HasMsg(r)
    requires !Follow(f, steps).hit
    ensures var g, n := Follow(f, steps), Passes(steps);
            && g.self == (if n <= 10 then Some(r.(timeout := 10 - n)) else None)
            && |g.put| + g.denied == Retries(r.kind, n) && forall x :: x in g.put ==> r.msg == Some(x)
  {
    RunWaits(f, steps, r);
  }

  /** A request a reply has completed is gone after the next pass, and that pass puts nothing on
      the queue but what other requests do. */
  lemma CompletedIsRemoved(before: seq<MapReq>, r: MapReq, after: seq<MapReq>, pending: seq<SendMsg>,
                           failed: set<nat>)
    requires r.kind != Ack && !r.complete
    ensures Pass(before + [Serviced(r)] + after) == Pass(before) + Pass(after)
    ensures Resend(before + [Serviced(r)] + after, pending, failed) ==
              Requeued(after, |before| + 1, failed) + Requeued(before, 0, failed) + pending
  {
    PassSplit(before, Some(Serviced(r)), after);
    QueueAfterPass(before, Serviced(r), after, pending, failed);
    NoneAdded(Pass(before));
    NoneAdded(Requeued(after, |before| + 1, failed));
  }

  function PassTimes(reqs: seq<MapReq>, n: nat): seq<MapReq> {
    if n == 0 then reqs else Pass(PassTimes(reqs, n - 1))
  }

  ghost predicate AllWithin(reqs: seq<MapReq>, t: int) {
    forall j :: 0 <= j < |reqs| ==> reqs[j].timeout <= t
  }

  lemma PassAges(reqs: seq<MapReq>, t: int)
    requires AllWithin(reqs, t)
    ensures AllWithin(Pass(reqs), t - 1)
  {
    forall k | 0 <= k < |Pass(reqs)| ensures Pass(reqs)[k].timeout <= t - 1 {
      var j := PassOrigin(reqs, k);
    }
  }

  lemma {:induction false} PassesAge(reqs: seq<MapReq>, n: nat)
    requires AllWithin(reqs, MAP_REQ_TIMEOUT)
    ensures AllWithin(PassTimes(reqs, n), MAP_REQ_TIMEOUT - n)
  {
    if n > 0 {
      PassesAge(reqs, n - 1);
      PassAges(PassTimes(reqs, n - 1), MAP_REQ_TIMEOUT - n + 1);
    }
  }

  /** Without posts or refreshes the list is empty after eleven passes. */
  lemma ListDrains(reqs: seq<MapReq>)
    requires AllWithin(reqs, MAP_REQ_TIMEOUT)
    ensures PassTimes(reqs, MAP_REQ_TIMEOUT + 1) == []
  {
    PassesAge(reqs, MAP_REQ_TIMEOUT + 1);
    var left := PassTimes(reqs, MAP_REQ_TIMEOUT + 1);
    assert |left| > 0 ==> left[0].timeout <= -1;
  }
}
