/** The thread that sends queued messages, interleaved step by step with the threads that
    queue them. A poster signals after it has released the mutex; a signal is lost unless
    the sender is waiting. */
module SenderThread {
  import opened MapRequests

  const SEND_RETRIES: nat := 3

  /** What the sender does next. `Wait` is blocked with no signal delivered; in `Pop` and
      `Try` it holds the mutex. `Try` has `retries` left for `m` after `tried` attempts. */
  datatype SenderPc = Start | Wait | Relock | Pop | Try(m: SendMsg, retries: nat, tried: nat)

  /** What a poster does next; `Add` and `Unlock` hold the mutex. */
  datatype PosterPc = Idle | Lock(m: SendMsg) | Add(m: SendMsg) | Unlock | Signal

  datatype Holder = Nobody | Sender | Poster(i: nat)

  /** A message taken off the queue and freed: the attempts made and whether the last worked. */
  datatype Fate = Fate(m: SendMsg, tried: nat, sent: bool)

  /** `posted` and `freed` record the run. */
  datatype State = State(
    sender: SenderPc, posters: seq<PosterPc>, holder: Holder, queue: seq<SendMsg>,
    posted: multiset<SendMsg>, freed: seq<Fate>)

  datatype Step = SenderStep(ok: bool) | SpuriousWakeup | Begin(i: nat, m: SendMsg) | PosterStep(i: nat)

  predicate Initial(s: State) {
    s.sender == Start && s.holder == Nobody && s.queue == [] && s.posted == multiset{} && s.freed == []
    && forall i :: 0 <= i < |s.posters| ==> s.posters[i] == Idle
  }

  predicate CanSend(s: State) {
    match s.sender
    case Wait => false
    case Start => s.holder == Nobody
    case Relock => s.holder == Nobody
    case _ => true
  }

  /** `Start` locks the mutex and waits, which releases it again. `ok` is the outcome of an
      attempt to send. */
  function SenderNext(s: State, ok: bool): State
    requires CanSend(s)
  {
    match s.sender
    case Start => s.(sender := Wait)
    case Relock => s.(sender := Pop, holder := Sender)
    case Pop =>
      if s.queue == [] then s.(sender := Wait, holder := Nobody)
      else s.(sender := Try(s.queue[0], SEND_RETRIES, 0), queue := s.queue[1..])
    case Try(m, retries, tried) =>
      if ok || retries <= 1 then s.(sender := Pop, freed := s.freed + [Fate(m, tried + 1, ok)])
      else s.(sender := Try(m, retries - 1, tried + 1))
  }

  predicate CanPost(s: State, i: nat) {
    i < |s.posters| && s.posters[i] != Idle && (s.posters[i].Lock? ==> s.holder == Nobody)
  }

  /** add_iwpm_pending_msg. */
  function PosterNext(s: State, i: nat): State
    requires CanPost(s, i)
  {
    match s.posters[i]
    case Lock(m) => s.(posters := s.posters[i := Add(m)], holder := Poster(i))
    case Add(m) => s.(posters := s.posters[i := Unlock], queue := [m] + s.queue, posted := s.posted + multiset{m})
    case Unlock => s.(posters := s.posters[i := Signal], holder := Nobody)
    case Signal => s.(posters := s.posters[i := Idle], sender := if s.sender == Wait then Relock else s.sender)
  }

  predicate Enabled(s: State, step: Step) {
    match step
    case SenderStep(_) => CanSend(s)
    case SpuriousWakeup => s.sender == Wait
    case Begin(i, _) => i < |s.posters| && s.posters[i] == Idle
    case PosterStep(i) => CanPost(s, i)
  }

  function Next(s: State, step: Step): State
    requires Enabled(s, step)
  {
    match step
    case SenderStep(ok) => SenderNext(s, ok)
    case SpuriousWakeup => s.(sender := Relock)
    case Begin(i, m) => s.(posters := s.posters[i := Lock(m)])
    case PosterStep(i) => PosterNext(s, i)
  }

  ghost predicate Follows(states: seq<State>, steps: seq<Step>) {
    && |states| == |steps| + 1
    && forall k :: 0 <= k < |steps| ==> Enabled(states[k], steps[k]) && states[k + 1] == Next(states[k], steps[k])
  }

  ghost predicate IsRun(states: seq<State>, steps: seq<Step>) {
    Follows(states, steps) && Initial(states[0])
  }

  // ------------------------------------------------------------ mutex and conservation

  ghost predicate MutexInv(s: State) {
    && (s.holder == Sender <==> s.sender.Pop? || s.sender.Try?)
    && (forall i :: 0 <= i < |s.posters| ==> (s.holder == Poster(i) <==> s.posters[i].Add? || s.posters[i].Unlock?))
    && (s.holder.Poster? ==> s.holder.i < |s.posters|)
  }

  function InHand(s: State): multiset<SendMsg> {
    if s.sender.Try? then multiset{s.sender.m} else multiset{}
  }

  function Messages(fates: seq<Fate>): multiset<SendMsg> {
    if fates == [] then multiset{} else Messages(fates[..|fates| - 1]) + multiset{fates[|fates| - 1].m}
  }

  ghost predicate Ledger(s: State) {
    s.posted == multiset(s.queue) + InHand(s) + Messages(s.freed)
  }

  ghost predicate TriesInv(s: State) {
    && (s.sender.Try? ==> s.sender.retries + s.sender.tried == SEND_RETRIES && s.sender.retries >= 1)
    && (forall k :: 0 <= k < |s.freed| ==>
          1 <= s.freed[k].tried <= SEND_RETRIES && (!s.freed[k].sent ==> s.freed[k].tried == SEND_RETRIES))
  }

  ghost predicate CountInv(s: State) { Ledger(s) && TriesInv(s) }

  lemma LedgerPost<T>(p: multiset<T>, q: seq<T>, h: multiset<T>, f: multiset<T>, m: T)
    requires p == multiset(q) + h + f
    ensures p + multiset{m} == multiset([m] + q) + h + f
  {
  }

  lemma LedgerPop<T>(p: multiset<T>, q: seq<T>, f: multiset<T>)
    requires p == multiset(q) + multiset{} + f && q != []
    ensures p == multiset(q[1..]) + multiset{q[0]} + f
  {
    assert q == [q[0]] + q[1..];
  }

  lemma LedgerFree<T>(p: multiset<T>, q: multiset<T>, m: T, f: multiset<T>)
    requires p == q + multiset{m} + f
    ensures p == q + multiset{} + (f + multiset{m})
  {
  }

  lemma FateCounts(fates: seq<Fate>, f: Fate)
    ensures Messages(fates + [f]) == Messages(fates) + multiset{f.m}
  {
  }

  lemma MutexKeeps(s: State, step: Step)
    requires MutexInv(s) && Enabled(s, step)
    ensures MutexInv(Next(s, step))
  {
  }

  lemma SenderTries(s: State, ok: bool)
    requires TriesInv(s) && CanSend(s)
    ensures TriesInv(SenderNext(s, ok))
  {
  }

  lemma SenderLedger(s: State, ok: bool)
    requires Ledger(s) && CanSend(s)
    ensures Ledger(SenderNext(s, ok))
  {
    match s.sender
    case Pop =>
      if s.queue != [] { LedgerPop(s.posted, s.queue, Messages(s.freed)); }
    case Try(m, _, tried) =>
      FateCounts(s.freed, Fate(m, tried + 1, ok));
      LedgerFree(s.posted, multiset(s.queue), m, Messages(s.freed));
    case _ =>
  }

  lemma PosterCounts(s: State, i: nat)
    requires CountInv(s) && CanPost(s, i)
    ensures CountInv(PosterNext(s, i))
  {
    var s' := PosterNext(s, i);
    assert InHand(s') == InHand(s);
    if s.posters[i].Add? {
      LedgerPost(s.posted, s.queue, InHand(s), Messages(s.freed), s.posters[i].m);
    } else {
      assert s'.posted == s.posted && s'.queue == s.queue && s'.freed == s.freed;
    }
  }

  lemma StepKeeps(s: State, step: Step)
    requires MutexInv(s) && CountInv(s) && Enabled(s, step)
    ensures MutexInv(Next(s, step)) && CountInv(Next(s, step))
  {
    MutexKeeps(s, step);
    match step
    case SenderStep(ok) => SenderTries(s, ok); SenderLedger(s, ok);
    case PosterStep(i) => PosterCounts(s, i);
    case SpuriousWakeup =>
    case Begin(_, _) =>
  }

  lemma {:induction false} RunKeeps(states: seq<State>, steps: seq<Step>, n: nat)
    requires IsRun(states, steps) && n <= |steps|
    ensures MutexInv(states[n]) && CountInv(states[n])
  {
    if n > 0 {
      RunKeeps(states, steps, n - 1);
      StepKeeps(states[n - 1], steps[n - 1]);
    }
  }

  /** Every message posted is on the queue, in the sender's hand, or has been freed once, after
      one to three attempts, and after fewer than three only if the last one worked. */
  lemma Conservation(states: seq<State>, steps: seq<Step>, n: nat, k: nat)
    requires IsRun(states, steps) && n <= |steps|
    ensures states[n].posted == multiset(states[n].queue) + InHand(states[n]) + Messages(states[n].freed)
    ensures k < |states[n].freed| ==>
              1 <= states[n].freed[k].tried <= 3 && (states[n].freed[k].tried < 3 ==> states[n].freed[k].sent)
  {
    RunKeeps(states, steps, n);
  }

  // ------------------------------------------------------------ wakeups

  /** Some poster has queued its message and has not signalled yet. */
  ghost predicate SignalDue(s: State) {
    exists i :: 0 <= i < |s.posters| && (s.posters[i].Unlock? || s.posters[i].Signal?)
  }

  /** Blocked over a non-empty queue with nobody about to signal. */
  ghost predicate Stuck(s: State) {
    s.sender == Wait && s.queue != [] && !SignalDue(s)
  }

  lemma StepUnstuck(s: State, step: Step)
    requires MutexInv(s) && Enabled(s, step) && !Stuck(s) && s.sender != Start
    ensures !Stuck(Next(s, step)) && Next(s, step).sender != Start
  {
    var s' := Next(s, step);
    if SignalDue(s) && s'.sender == Wait {
      var i :| 0 <= i < |s.posters| && (s.posters[i].Unlock? || s.posters[i].Signal?);
      assert s'.posters[i].Unlock? || s'.posters[i].Signal? || s.sender != Wait;
    }
    if step.PosterStep? && s.posters[step.i].Add? { assert s'.posters[step.i].Unlock?; }
  }

  /** Only its own step takes the sender from its start, and that step changes nothing else. */
  lemma FirstWaitStep(states: seq<State>, steps: seq<Step>, f: nat)
    requires IsRun(states, steps) && 0 < f <= |steps| && states[f].sender == Wait && states[f - 1].sender == Start
    ensures states[f] == states[f - 1].(sender := Wait)
  {
    assert Enabled(states[f - 1], steps[f - 1]) && states[f - 1 + 1] == Next(states[f - 1], steps[f - 1]);
  }

  /** In a run whose sender makes its first step, into its first wait, from state `f`: it is never
      stuck, from then on or at any time, if and only if just before that step the queue was empty
      or a poster had yet to signal. */
  lemma {:induction false} NeverStuckIff(states: seq<State>, steps: seq<Step>, f: nat)
    requires IsRun(states, steps) && f < |steps| && states[f + 1].sender == Wait
    requires forall k :: 0 <= k <= f ==> states[k].sender == Start
    ensures (forall n :: 0 <= n <= |steps| ==> !Stuck(states[n])) <==> (states[f].queue == [] || SignalDue(states[f]))
  {
    FirstWaitStep(states, steps, f + 1);
    assert SignalDue(states[f + 1]) <==> SignalDue(states[f]);
    if !Stuck(states[f + 1]) {
      forall n | 0 <= n <= |steps| ensures !Stuck(states[n]) {
        if n > f { UnstuckFrom(states, steps, f + 1, n); }
      }
    }
  }

  lemma {:induction false} UnstuckFrom(states: seq<State>, steps: seq<Step>, f: nat, n: nat)
    requires IsRun(states, steps) && f <= n <= |steps|
    requires states[f].sender != Start && !Stuck(states[f])
    ensures !Stuck(states[n]) && states[n].sender != Start
  {
    if n > f {
      UnstuckFrom(states, steps, f, n - 1);
      RunKeeps(states, steps, n - 1);
      StepUnstuck(states[n - 1], steps[n - 1]);
    }
  }

  /** With the mutex free, a sender that is blocked over a non-empty queue and not stuck has a
      poster between unlocking and signalling, and that poster's signal wakes it. */
  lemma BlockedMeansSignalComing(states: seq<State>, steps: seq<Step>, n: nat) returns (i: nat)
    requires IsRun(states, steps) && n <= |steps| && !Stuck(states[n])
    requires states[n].sender == Wait && states[n].queue != [] && states[n].holder == Nobody
    ensures i < |states[n].posters| && states[n].posters[i] == Signal
    ensures CanPost(states[n], i) && PosterNext(states[n], i).sender == Relock
  {
    RunKeeps(states, steps, n);
    i :| 0 <= i < |states[n].posters| && (states[n].posters[i].Unlock? || states[n].posters[i].Signal?);
  }

  /** The first wait can indeed come too late: a message posted and signalled before it stays
      on the queue while the sender sleeps. */
  lemma FirstWaitCanBeStuck(m: SendMsg) returns (states: seq<State>, steps: seq<Step>)
    ensures IsRun(states, steps) && Stuck(states[|steps|])
  {
    var s0 := State(Start, [Idle], Nobody, [], multiset{}, []);
    steps := [Begin(0, m), PosterStep(0), PosterStep(0), PosterStep(0), PosterStep(0), SenderStep(false)];
    var s1 := Next(s0, steps[0]);
    var s2 := Next(s1, steps[1]);
    var s3 := Next(s2, steps[2]);
    var s4 := Next(s3, steps[3]);
    var s5 := Next(s4, steps[4]);
    var s6 := Next(s5, steps[5]);
    states := [s0, s1, s2, s3, s4, s5, s6];
  }

  // ------------------------------------------------------------ what the sender does once woken

  /** The sender running alone for up to `n` steps, its attempts all failing or all working. */
  function Alone(s: State, ok: bool, n: nat): State
    decreases n
  {
    if n == 0 || !CanSend(s) then s else Alone(SenderNext(s, ok), ok, n - 1)
  }

  /** What becomes of the messages on the queue, the first one first. */
  function Fates(queue: seq<SendMsg>, ok: bool): seq<Fate> {
    if queue == [] then [] else [Fate(queue[0], if ok then 1 else 3, ok)] + Fates(queue[1..], ok)
  }

  /** The steps that takes. */
  function Effort(queue: seq<SendMsg>, ok: bool): nat { |queue| * (if ok then 2 else 4) + 1 }

  lemma AloneStep(s: State, ok: bool, n: nat)
    requires CanSend(s)
    ensures Alone(s, ok, n + 1) == Alone(SenderNext(s, ok), ok, n)
  {
  }

  /** One message taken off the queue: sent, or given up after three attempts. */
  lemma AloneSends(s: State, ok: bool, n: nat)
    requires s.sender == Pop && s.queue != []
    ensures Alone(s, ok, n + if ok then 2 else 4) ==
              Alone(s.(queue := s.queue[1..], freed := s.freed + [Fate(s.queue[0], if ok then 1 else 3, ok)]), ok, n)
  {
    var s1 := SenderNext(s, ok);
    if ok {
      AloneStep(s, ok, n + 1);
      AloneStep(s1, ok, n);
    } else {
      AloneStep(s, ok, n + 3);
      AloneStep(s1, ok, n + 2);
      AloneStep(SenderNext(s1, ok), ok, n + 1);
      AloneStep(SenderNext(SenderNext(s1, ok), ok), ok, n);
    }
  }

  /** A sender that holds the mutex empties the queue from its head, then waits. */
  lemma {:induction false} SenderDrains(s: State, ok: bool)
    requires s.sender == Pop
    ensures Alone(s, ok, Effort(s.queue, ok)) ==
              s.(sender := Wait, holder := Nobody, queue := [], freed := s.freed + Fates(s.queue, ok))
    decreases |s.queue|
  {
    if s.queue == [] {
      AloneStep(s, ok, 0);
      assert s.freed + [] == s.freed;
    } else {
      var f := Fate(s.queue[0], if ok then 1 else 3, ok);
      AloneSends(s, ok, Effort(s.queue[1..], ok));
      SenderDrains(s.(queue := s.queue[1..], freed := s.freed + [f]), ok);
      assert s.freed + [f] + Fates(s.queue[1..], ok) == s.freed + ([f] + Fates(s.queue[1..], ok));
    }
  }

  /** In every run, a message posted while the sender waits: its poster can go on to signal, and
      that makes the sender, left alone, send or give up this message and then all that was queued
      before it, newest first. */
  lemma PostIsSent(states: seq<State>, steps: seq<Step>, n: nat, i: nat, m: SendMsg, ok: bool)
    requires IsRun(states, steps) && n <= |steps| && i < |states[n].posters|
    requires states[n].posters[i] == Add(m) && states[n].sender == Wait
    ensures CanPost(states[n], i) && CanPost(PosterNext(states[n], i), i)
    ensures CanPost(PosterNext(PosterNext(states[n], i), i), i)
    ensures var s := PosterNext(PosterNext(PosterNext(states[n], i), i), i);
            var s' := Alone(s, ok, Effort([m] + states[n].queue, ok) + 1);
            && s.sender == Relock && s'.sender == Wait && s'.queue == []
            && s'.freed == states[n].freed + Fates([m] + states[n].queue, ok)
  {
    RunKeeps(states, steps, n);
    var s := PosterNext(PosterNext(PosterNext(states[n], i), i), i);
    AloneStep(s, ok, Effort(s.queue, ok));
    SenderDrains(SenderNext(s, ok), ok);
  }

  // ------------------------------------------------------------ the retry loop

  /** The attempts the retry loop makes, given how each would turn out. */
  method SendWithRetries(outcomes: seq<bool>) returns (tried: nat, sent: bool)
    requires |outcomes| == SEND_RETRIES
    ensures 1 <= tried <= SEND_RETRIES && sent == outcomes[tried - 1]
    ensures forall k :: 0 <= k < tried - 1 ==> !outcomes[k]
    ensures sent || tried == SEND_RETRIES
  {
    var retries := SEND_RETRIES;
    tried, sent := 0, false;
    while retries > 0
      invariant tried <= SEND_RETRIES && (tried == 0 ==> retries == SEND_RETRIES)
      invariant tried > 0 ==> sent == outcomes[tried - 1]
      invariant forall k :: 0 <= k < tried - 1 ==> !outcomes[k]
      invariant if sent then retries == 0 else tried + retries == SEND_RETRIES
    {
      sent := outcomes[tried];
      tried := tried + 1;
      if sent { retries := 0; } else { retries := retries - 1; }
    }
  }
}
