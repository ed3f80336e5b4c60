/** The thread that times mapping requests out, interleaved step by step with the threads
    that post requests and match replies. The mutex, the condition variable and the `wake`
    flag are modelled as the code uses them; the emptiness test that ends a round of passes
    is made without the mutex. */
module TimerThread {
  import opened MapRequests

  /** What the timer thread does next. From `Clear` to `Wait` or `Unlock1`, and from `SetWake`
      to `Unlock2`, it holds the mutex. In `Wait` it is blocked and no signal has reached it. */
  datatype TimerPc = Lock1 | Clear | Test | Wait | Relock | Unlock1 | Lock2 | SetWake | Walk | Unlock2 | Sleep

  /** What a thread working on the list does next; `Change`, `Signal` and `Unlock` hold the mutex. */
  datatype WorkerPc = Idle | Lock(op: ListStep) | Change(op: ListStep) | Signal | Unlock

  datatype Holder = Nobody | Timer | Worker(i: nat)

  datatype State = State(timer: TimerPc, workers: seq<WorkerPc>, holder: Holder, wake: bool, reqs: seq<MapReq>)

  /** A step of the timer thread, a wakeup nobody asked for, a worker picking up a task, a
      step of a worker. */
  datatype Step = TimerStep | SpuriousWakeup | Begin(i: nat, op: ListStep) | WorkerStep(i: nat)

  predicate Initial(s: State) {
    s.timer == Lock1 && s.holder == Nobody && !s.wake && s.reqs == []
    && forall i :: 0 <= i < |s.workers| ==> s.workers[i] == Idle
  }

  predicate CanTimer(s: State) {
    match s.timer
    case Lock1 => s.holder == Nobody
    case Lock2 => s.holder == Nobody
    case Relock => s.holder == Nobody
    case Wait => false
    case _ => true
  }

  function TimerNext(s: State): State
    requires CanTimer(s)
  {
    match s.timer
    case Lock1 => s.(timer := Clear, holder := Timer)
    case Clear => s.(timer := Test, wake := false)
    case Test => if s.reqs == [] then s.(timer := Wait, holder := Nobody) else s.(timer := Unlock1)
    case Relock => s.(timer := Unlock1, holder := Timer)
    case Unlock1 => s.(timer := Lock2, holder := Nobody)
    case Lock2 => s.(timer := SetWake, holder := Timer)
    case SetWake => s.(timer := Walk, wake := true)
    case Walk => s.(timer := Unlock2, reqs := Pass(s.reqs))
    case Unlock2 => s.(timer := Sleep, holder := Nobody)
    case Sleep => s.(timer := if s.reqs != [] then Lock2 else Lock1)
  }

  predicate CanWork(s: State, i: nat) {
    i < |s.workers| && s.workers[i] != Idle && (s.workers[i].Lock? ==> s.holder == Nobody)
  }

  /** add_iwpm_map_request and update_iwpm_map_request: only a post signals, and only when
      `wake` is clear; a signal reaches the timer thread only if it is waiting. */
  function WorkerNext(s: State, i: nat): State
    requires CanWork(s, i)
  {
    match s.workers[i]
    case Lock(op) => s.(workers := s.workers[i := Change(op)], holder := Worker(i))
    case Change(op) =>
      s.(workers := s.workers[i := if op.Post? then Signal else Unlock],
         reqs := Apply(s.reqs, op))
    case Signal =>
      s.(workers := s.workers[i := Unlock], timer := if !s.wake && s.timer == Wait then Relock else s.timer)
    case Unlock => s.(workers := s.workers[i := Idle], holder := Nobody)
  }

  predicate Enabled(s: State, step: Step) {
    match step
    case TimerStep => CanTimer(s)
    case SpuriousWakeup => s.timer == Wait
    case Begin(i, op) => i < |s.workers| && s.workers[i] == Idle && !op.TimerPass?
    case WorkerStep(i) => CanWork(s, i)
  }

  function Next(s: State, step: Step): State
    requires Enabled(s, step)
  {
    match step
    case TimerStep => TimerNext(s)
    case SpuriousWakeup => s.(timer := Relock)
    case Begin(i, op) => s.(workers := s.workers[i := Lock(op)])
    case WorkerStep(i) => WorkerNext(s, i)
  }

  ghost predicate IsRun(states: seq<State>, steps: seq<Step>) {
    && |states| == |steps| + 1 && Initial(states[0])
    && forall k :: 0 <= k < |steps| ==> Enabled(states[k], steps[k]) && states[k + 1] == Next(states[k], steps[k])
  }

  // ------------------------------------------------------------ invariant

  predicate TimerHolds(pc: TimerPc) {
    pc in {Clear, Test, Unlock1, SetWake, Walk, Unlock2}
  }

  predicate WorkerHolds(pc: WorkerPc) {
    pc.Change? || pc.Signal? || pc.Unlock?
  }

  /** The mutex is held by the one thread inside its critical section. */
  ghost predicate MutexInv(s: State) {
    && (s.holder == Timer <==> TimerHolds(s.timer))
    && (forall i :: 0 <= i < |s.workers| ==> (s.holder == Worker(i) <==> WorkerHolds(s.workers[i])))
    && (s.holder.Worker? ==> s.holder.i < |s.workers|)
  }

  /** The holder of the mutex has posted a request and is about to signal. */
  ghost predicate AboutToSignal(s: State) {
    s.holder.Worker? && s.holder.i < |s.workers| && s.workers[s.holder.i] == Signal
  }

  /** `wake` is clear from before the timer thread looks at the list until it starts its passes,
      and set from its first pass on until it looks again. */
  ghost predicate WakeInv(s: State) {
    && (s.timer in {Test, Wait, Relock, Unlock1} ==> !s.wake)
    && (s.timer in {Walk, Unlock2, Sleep} ==> s.wake)
  }

  ghost predicate Inv(s: State) {
    && MutexInv(s) && WakeInv(s) && (AboutToSignal(s) ==> s.reqs != [])
    && (s.timer == Wait ==> s.reqs == [] || AboutToSignal(s))
  }

  /** A reply changes requests but does not add or remove any. */
  lemma StepKeeps(s: State, step: Step)
    requires Inv(s) && Enabled(s, step)
    ensures Inv(Next(s, step))
  {
  }

  lemma {:induction false} RunKeeps(states: seq<State>, steps: seq<Step>, n: nat)
    requires IsRun(states, steps) && n <= |steps|
    ensures Inv(states[n])
  {
    if n > 0 {
      RunKeeps(states, steps, n - 1);
      StepKeeps(states[n - 1], steps[n - 1]);
    }
  }

  // ------------------------------------------------------------ no lost wakeup

  /** In every interleaving, the timer thread is blocked unsignalled over a non-empty list only
      while a poster holds the mutex, and that poster's next step wakes it. */
  lemma NoLostWakeup(states: seq<State>, steps: seq<Step>, n: nat)
    requires IsRun(states, steps) && n <= |steps| && states[n].timer == Wait
    ensures states[n].holder == Nobody ==> states[n].reqs == []
    ensures states[n].reqs != [] ==>
              && AboutToSignal(states[n]) && CanWork(states[n], states[n].holder.i)
              && WorkerNext(states[n], states[n].holder.i).timer == Relock
  {
    RunKeeps(states, steps, n);
  }

  /** The timer thread running alone for up to `n` steps. */
  function Alone(s: State, n: nat): State
    decreases n
  {
    if n == 0 || !CanTimer(s) then s else Alone(TimerNext(s), n - 1)
  }

  /** The timer thread makes a pass over `reqs` on its step `k + 1` from here. */
  ghost predicate WalksOver(s: State, k: nat, reqs: seq<MapReq>) {
    && Alone(s, k).timer == Walk && Alone(s, k).reqs == reqs
    && CanTimer(Alone(s, k)) && TimerNext(Alone(s, k)).reqs == Pass(reqs)
  }

  lemma AloneWalks(s: State) returns (k: nat)
    requires Inv(s) && s.holder == Nobody && s.reqs != []
    ensures k <= 6 && WalksOver(s, k, s.reqs)
  {
    match s.timer
    case Lock1 =>
      k := 6;
      var s2 := TimerNext(TimerNext(s));
      var s4 := TimerNext(TimerNext(s2));
      assert Alone(s, 6) == Alone(TimerNext(s), 5) == Alone(s2, 4) == Alone(TimerNext(s2), 3) == Alone(s4, 2);
    case Lock2 => k := 2;
    case Relock =>
      k := 4;
      assert Alone(s, 4) == Alone(TimerNext(s), 3) == Alone(TimerNext(TimerNext(s)), 2);
    case Sleep =>
      k := 3;
      assert Alone(s, 3) == Alone(TimerNext(s), 2);
  }

  /** Whenever the mutex is free and requests are tracked, the timer thread is not blocked,
      and left alone it passes over the very same requests within six steps. */
  lemma PassFollows(states: seq<State>, steps: seq<Step>, n: nat) returns (k: nat)
    requires IsRun(states, steps) && n <= |steps|
    requires states[n].holder == Nobody && states[n].reqs != []
    ensures k <= 6 && WalksOver(states[n], k, states[n].reqs)
  {
    RunKeeps(states, steps, n);
    k := AloneWalks(states[n]);
  }

  lemma ThreeToWait(s: State)
    requires s.timer == Lock1 && s.holder == Nobody && s.reqs == []
    ensures Alone(s, 3).timer == Wait && Alone(s, 3).reqs == []
  {
    assert Alone(s, 3) == Alone(TimerNext(s), 2);
  }

  lemma EightToWait(s: State)
    requires s.timer == Lock2 && s.holder == Nobody && s.reqs == []
    ensures Alone(s, 8).timer == Wait && Alone(s, 8).reqs == []
  {
    var s2 := TimerNext(TimerNext(s));
    var s4 := TimerNext(TimerNext(s2));
    assert Alone(s, 8) == Alone(TimerNext(s), 7) == Alone(s2, 6) == Alone(TimerNext(s2), 5) == Alone(s4, 4);
    ThreeToWait(TimerNext(s4));
  }

  /** Whenever the mutex is free and the list empty, it goes back to its wait within ten steps. */
  lemma IdleWaits(states: seq<State>, steps: seq<Step>, n: nat) returns (k: nat)
    requires IsRun(states, steps) && n <= |steps|
    requires states[n].holder == Nobody && states[n].reqs == []
    ensures k <= 10 && Alone(states[n], k).timer == Wait && Alone(states[n], k).reqs == []
  {
    RunKeeps(states, steps, n);
    var s := states[n];
    match s.timer
    case Wait => k := 0;
    case Lock1 => k := 3; ThreeToWait(s);
    case Sleep => k := 4; ThreeToWait(TimerNext(s));
    case Lock2 => k := 8; EightToWait(s);
    case Relock =>
      k := 10;
      assert Alone(s, 10) == Alone(TimerNext(s), 9) == Alone(TimerNext(TimerNext(s)), 8);
      EightToWait(TimerNext(TimerNext(s)));
  }

  /** In every run, what wakes the timer thread, other than a spurious wakeup, is the signal of a
      poster, and there is work for it. */
  lemma WokenForWork(states: seq<State>, steps: seq<Step>, n: nat)
    requires IsRun(states, steps) && n < |steps| && states[n].timer == Wait && states[n + 1].timer != Wait
    requires steps[n] != SpuriousWakeup
    ensures steps[n].WorkerStep? && states[n + 1].timer == Relock && states[n + 1].reqs == states[n].reqs != []
  {
    RunKeeps(states, steps, n);
  }

  /** A post puts its request at the head of the list, a reply serves the request it matches. */
  lemma WorkOnList(s: State, i: nat)
    requires CanWork(s, i) && s.workers[i].Change?
    ensures s.workers[i].op.Post? ==> WorkerNext(s, i).reqs == [s.workers[i].op.req] + s.reqs
    ensures s.workers[i].op.Reply? ==>
              var op := s.workers[i].op; WorkerNext(s, i).reqs == Service(s.reqs, op.handle, op.kinds, op.src)
  {
  }

  /** In every run, wherever the timer thread is when a request is about to be posted: the poster
      can go on to its end, and the timer thread, left alone then, passes over the list with the new
      request at its head within six steps. */
  lemma PostIsWalked(states: seq<State>, steps: seq<Step>, n: nat, i: nat, r: MapReq) returns (k: nat)
    requires IsRun(states, steps) && n <= |steps| && i < |states[n].workers|
    requires states[n].workers[i] == Change(Post(r))
    ensures CanWork(states[n], i) && CanWork(WorkerNext(states[n], i), i)
    ensures CanWork(WorkerNext(WorkerNext(states[n], i), i), i)
    ensures var s := WorkerNext(WorkerNext(WorkerNext(states[n], i), i), i);
            s.holder == Nobody && k <= 6 && WalksOver(s, k, [r] + states[n].reqs)
  {
    RunKeeps(states, steps, n);
    var s1 := WorkerNext(states[n], i);
    StepKeeps(states[n], WorkerStep(i));
    StepKeeps(s1, WorkerStep(i));
    StepKeeps(WorkerNext(s1, i), WorkerStep(i));
    k := AloneWalks(WorkerNext(WorkerNext(s1, i), i));
  }

  /** The situation that needs the signal does arise: a run in which the timer thread is blocked
      over a list that is not empty, with the poster of its request about to signal. */
  lemma PostedWhileWaiting(r: MapReq) returns (states: seq<State>, steps: seq<Step>)
    ensures IsRun(states, steps)
    ensures var s := states[|steps|]; s.timer == Wait && s.reqs == [r] && AboutToSignal(s)
  {
    var s0 := State(Lock1, [Idle], Nobody, false, []);
    steps := [TimerStep, TimerStep, TimerStep, Begin(0, Post(r)), WorkerStep(0), WorkerStep(0)];
    var s3 := TimerNext(TimerNext(TimerNext(s0)));
    var s4 := Next(s3, steps[3]);
    var s5 := Next(s4, steps[4]);
    states := [s0, TimerNext(s0), TimerNext(TimerNext(s0)), s3, s4, s5, Next(s5, steps[5])];
  }
}
