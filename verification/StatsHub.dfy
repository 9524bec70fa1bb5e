// The stats hub of `stats.rs`: one shared poll task that the first subscriber
// starts and that stops itself when nobody is left. Subscribing and stopping
// hold the `running` lock; a receiver drops without it, at any moment.
module StatsHub {

  datatype Holder = Nobody | Subscriber(t: nat) | Poller(k: nat)

  // Where a call of `subscribe` stands: it has the lock, it has its receiver, or
  // it has also made sure that a task runs.
  datatype SubPc = Locked | Subscribed | Started

  // Where a poll task stands in its loop. It holds the lock from Checking to
  // Leaving or Stopping.
  datatype TaskPc = Ticking | Checking | Leaving | Quitting | Stopping | Going | Calling

  // `sinceEmpty` counts the stats calls that began while no receiver was left.
  datatype State = State(
    running: bool,
    lock: Holder,
    subs: map<nat, SubPc>,
    tasks: map<nat, TaskPc>,
    receivers: nat,
    calls: nat,
    sinceEmpty: nat)

  const INIT: State := State(false, Nobody, map[], map[], 0, 0, 0)

  datatype Step =
    | Lock(t: nat) | Receiver(t: nat) | Spawn(t: nat, task: nat) | Unlock(t: nat)
    | Drop
    | Tick(k: nat) | Count(k: nat) | Leave(k: nat) | Clear(k: nat) | Return(k: nat)
    | Skip(k: nat) | Call(k: nat) | Answer(k: nat)

  predicate Can(s: State, step: Step) {
    match step
    case Lock(t) => t !in s.subs && s.lock.Nobody?
    case Receiver(t) => t in s.subs && s.subs[t].Locked?
    case Spawn(t, task) => t in s.subs && s.subs[t].Subscribed? && task !in s.tasks
    case Unlock(t) => t in s.subs && s.subs[t].Started?
    case Drop => s.receivers > 0
    case Tick(k) => k in s.tasks && s.tasks[k].Ticking? && s.lock.Nobody?
    case Count(k) => k in s.tasks && s.tasks[k].Checking?
    case Leave(k) => k in s.tasks && s.tasks[k].Leaving?
    case Clear(k) => k in s.tasks && s.tasks[k].Quitting?
    case Return(k) => k in s.tasks && s.tasks[k].Stopping?
    case Skip(k) => k in s.tasks && s.tasks[k].Going?
    case Call(k) => k in s.tasks && s.tasks[k].Going?
    case Answer(k) => k in s.tasks && s.tasks[k].Calling?
  }

  function Apply(s: State, step: Step): State
    requires Can(s, step)
  {
    match step
    case Lock(t) => s.(lock := Subscriber(t), subs := s.subs[t := Locked])
    case Receiver(t) => s.(subs := s.subs[t := Subscribed], receivers := s.receivers + 1, sinceEmpty := 0)
    case Spawn(t, task) =>
      if s.running then s.(subs := s.subs[t := Started])
      else s.(subs := s.subs[t := Started], running := true, tasks := s.tasks[task := Ticking])
    case Unlock(t) => s.(lock := Nobody, subs := s.subs - {t})
    case Drop => s.(receivers := s.receivers - 1, sinceEmpty := 0)
    case Tick(k) => s.(lock := Poller(k), tasks := s.tasks[k := Checking])
    case Count(k) => s.(tasks := s.tasks[k := if s.receivers == 0 then Quitting else Leaving])
    case Leave(k) => s.(lock := Nobody, tasks := s.tasks[k := Going])
    case Clear(k) => s.(running := false, tasks := s.tasks[k := Stopping])
    case Return(k) => s.(lock := Nobody, tasks := s.tasks - {k})
    case Skip(k) => s.(tasks := s.tasks[k := Ticking])
    case Call(k) =>
      s.(tasks := s.tasks[k := Calling], calls := s.calls + 1,
         sinceEmpty := if s.receivers == 0 then s.sinceEmpty + 1 else 0)
    case Answer(k) => s.(tasks := s.tasks[k := Ticking])
  }

  // ----- What every step keeps -----

  predicate HoldsLock(pc: TaskPc) { pc.Checking? || pc.Leaving? || pc.Quitting? || pc.Stopping? }

  ghost predicate LockOk(s: State) {
    && (forall t <- s.subs :: s.lock == Subscriber(t))
    && (s.lock.Subscriber? ==> s.lock.t in s.subs)
    && (forall k <- s.tasks :: HoldsLock(s.tasks[k]) <==> s.lock == Poller(k))
    && (s.lock.Poller? ==> s.lock.k in s.tasks)
  }

  ghost predicate TasksOk(s: State) {
    && (forall j, k | j in s.tasks && k in s.tasks :: j == k)
    && (s.running ==> s.tasks != map[])
    && (forall k <- s.tasks :: s.running <==> !s.tasks[k].Stopping?)
    // A task quits only while nobody listens.
    && (forall k <- s.tasks :: s.tasks[k].Quitting? || s.tasks[k].Stopping? ==> s.receivers == 0)
  }

  ghost predicate ListenersOk(s: State) {
    && (s.receivers > 0 ==> s.running || (s.lock.Subscriber? && s.lock.t in s.subs && s.subs[s.lock.t].Subscribed?))
    && (forall t <- s.subs :: s.subs[t].Started? ==> s.running)
  }

  // After the last receiver is gone, one call can still begin: the one whose
  // check came before.
  ghost predicate CallsOk(s: State) {
    && s.sinceEmpty <= 1
    && (s.receivers > 0 ==> s.sinceEmpty == 0)
    && (forall k <- s.tasks :: s.sinceEmpty == 1 ==> !s.tasks[k].Leaving? && !s.tasks[k].Going?)
  }

  ghost predicate Inv(s: State) {
    LockOk(s) && TasksOk(s) && ListenersOk(s) && CallsOk(s)
  }

  lemma LockStep(s: State, step: Step)
    requires Inv(s) && Can(s, step)
    ensures LockOk(Apply(s, step))
  {
  }

  lemma TasksStep(s: State, step: Step)
    requires Inv(s) && Can(s, step)
    ensures TasksOk(Apply(s, step))
  {
    if step.Spawn? && !s.running {
      // A task that is stopping would hold the lock that this subscriber has.
      assert s.lock == Subscriber(step.t);
      assert step.task in Apply(s, step).tasks;
    }
  }

  lemma RestStep(s: State, step: Step)
    requires Inv(s) && Can(s, step)
    ensures ListenersOk(Apply(s, step)) && CallsOk(Apply(s, step))
  {
  }

  ghost predicate Run(trace: seq<State>, steps: seq<Step>) {
    && |trace| == |steps| + 1 && trace[0] == INIT
    && (forall i :: 0 <= i < |steps| ==> Can(trace[i], steps[i]) && trace[i + 1] == Apply(trace[i], steps[i]))
  }

  lemma {:induction false} RunInv(trace: seq<State>, steps: seq<Step>, i: nat)
    requires Run(trace, steps) && i <= |steps|
    ensures Inv(trace[i])
  {
    if i == 0 {
    } else {
      RunInv(trace, steps, i - 1);
      LockStep(trace[i - 1], steps[i - 1]);
      TasksStep(trace[i - 1], steps[i - 1]);
      RestStep(trace[i - 1], steps[i - 1]);
    }
  }

  // In every interleaving: at most one poll task exists; a receiver that
  // `subscribe` has returned has a task that is not on its way out; and after the
  // last receiver at most one more stats call begins.
  lemma RunSafe(trace: seq<State>, steps: seq<Step>, i: nat)
    requires Run(trace, steps) && i <= |steps|
    ensures |trace[i].tasks| <= 1
    ensures trace[i].receivers > 0 && !trace[i].lock.Subscriber? ==>
              exists k <- trace[i].tasks :: !trace[i].tasks[k].Quitting? && !trace[i].tasks[k].Stopping?
    ensures trace[i].sinceEmpty <= 1
  {
    RunInv(trace, steps, i);
    var s := trace[i];
    if s.tasks != map[] {
      var k :| k in s.tasks;
      assert s.tasks.Keys == {k};
    }
  }

  // ----- What a run counts -----

  // The receivers made and not dropped, and the stats calls made, by the log of steps.
  function Made(steps: seq<Step>): int {
    if steps == [] then 0
    else
      var last := steps[|steps| - 1];
      Made(steps[..|steps| - 1]) + if last.Receiver? then 1 else if last.Drop? then -1 else 0
  }

  function Called(steps: seq<Step>): nat {
    if steps == [] then 0 else Called(steps[..|steps| - 1]) + if steps[|steps| - 1].Call? then 1 else 0
  }

  lemma CountStep(s: State, step: Step)
    requires Can(s, step)
    ensures Apply(s, step).receivers == s.receivers + (if step.Receiver? then 1 else if step.Drop? then -1 else 0)
    ensures Apply(s, step).calls == s.calls + if step.Call? then 1 else 0
  {
  }

  // Every receiver that `subscribe` made counts until it is dropped.
  lemma {:induction false} RunCounts(trace: seq<State>, steps: seq<Step>, i: nat)
    requires Run(trace, steps) && i <= |steps|
    ensures trace[i].receivers == Made(steps[..i]) && trace[i].calls == Called(steps[..i])
  {
    if i == 0 {
    } else {
      RunCounts(trace, steps, i - 1);
      CountStep(trace[i - 1], steps[i - 1]);
      assert steps[..i][..i - 1] == steps[..i - 1];
    }
  }

  lemma EmptyStep(s: State, step: Step)
    requires Can(s, step) && s.receivers == 0 && Apply(s, step).receivers == 0
    ensures Apply(s, step).calls - s.calls == Apply(s, step).sinceEmpty - s.sinceEmpty
  {
  }

  lemma {:induction false} EmptyCalls(trace: seq<State>, steps: seq<Step>, i: nat, j: nat)
    requires Run(trace, steps) && i <= j <= |steps| && forall k :: i <= k <= j ==> trace[k].receivers == 0
    ensures trace[j].calls - trace[i].calls == trace[j].sinceEmpty - trace[i].sinceEmpty
  {
    if i == j {
    } else {
      EmptyCalls(trace, steps, i, j - 1);
      assert trace[j - 1].receivers == 0 && trace[j].receivers == 0;
      EmptyStep(trace[j - 1], steps[j - 1]);
    }
  }

  // While nobody listens, at most one stats call begins, over all tasks and however
  // long that lasts.
  lemma CallsAfterTheLast(trace: seq<State>, steps: seq<Step>, i: nat, j: nat)
    requires Run(trace, steps) && i <= j <= |steps| && forall k :: i <= k <= j ==> trace[k].receivers == 0
    ensures Called(steps[..j]) <= Called(steps[..i]) + 1
  {
    RunCounts(trace, steps, i);
    RunCounts(trace, steps, j);
    RunInv(trace, steps, j);
    EmptyCalls(trace, steps, i, j);
  }

  // ----- What the task does next, in every schedule -----

  // A step of poll task `k`.
  predicate IsOwn(step: Step, k: nat) {
    match step
    case Tick(j) => j == k
    case Count(j) => j == k
    case Leave(j) => j == k
    case Clear(j) => j == k
    case Return(j) => j == k
    case Skip(j) => j == k
    case Call(j) => j == k
    case Answer(j) => j == k
    case Lock(_) => false
    case Receiver(_) => false
    case Spawn(_, _) => false
    case Unlock(_) => false
    case Drop => false
  }

  function OwnCount(steps: seq<Step>, k: nat): nat {
    if steps == [] then 0 else (if IsOwn(steps[0], k) then 1 else 0) + OwnCount(steps[1..], k)
  }

  // The steps lead from `s` to `t`, in any order of the actors. Before each of them
  // task `k` exists, and somebody listens all the time or nobody does.
  ghost predicate Leads(s: State, steps: seq<Step>, t: State, k: nat, listening: bool)
    decreases |steps|
  {
    if steps == [] then s == t
    else
      && k in s.tasks && (s.receivers > 0 <==> listening) && Can(s, steps[0])
      && Leads(Apply(s, steps[0]), steps[1..], t, k, listening)
  }

  function ToCall(pc: TaskPc): nat {
    match pc
    case Calling => 5 case Ticking => 4 case Checking => 3 case Leaving => 2 case Going => 1 case _ => 0
  }

  function ToStop(pc: TaskPc): nat {
    match pc
    case Leaving => 7 case Going => 6 case Calling => 5 case Ticking => 4 case Checking => 3 case Quitting => 2
    case Stopping => 1
  }

  function StopIn(s: State, k: nat): nat { if k in s.tasks then ToStop(s.tasks[k]) else 0 }

  // With nobody listening, only a task that has passed its check still calls.
  function CallsLeft(s: State, k: nat): nat {
    if k in s.tasks && (s.tasks[k].Leaving? || s.tasks[k].Going?) then 1 else 0
  }

  lemma InvStep(s: State, step: Step)
    requires Inv(s) && Can(s, step)
    ensures Inv(Apply(s, step))
  {
    LockStep(s, step);
    TasksStep(s, step);
    RestStep(s, step);
  }

  // Nobody else's step moves the task, and with nobody listening each of its own
  // brings it closer to its end.
  lemma StepToStop(s: State, step: Step, k: nat)
    requires Inv(s) && Can(s, step) && k in s.tasks && s.receivers == 0
    ensures StopIn(Apply(s, step), k) + (if IsOwn(step, k) then 1 else 0) <= StopIn(s, k)
    ensures Apply(s, step).calls + CallsLeft(Apply(s, step), k) <= s.calls + CallsLeft(s, k)
  {
  }

  // Once nobody listens, the task has at most seven more steps of its own, whoever
  // else runs in between: after them it is gone. It makes at most one more stats call,
  // and none if it was waiting for its tick.
  lemma {:induction false} StopsAfterTheLast(s: State, steps: seq<Step>, t: State, k: nat)
    requires Inv(s) && k in s.tasks && Leads(s, steps, t, k, false)
    ensures OwnCount(steps, k) + StopIn(t, k) <= StopIn(s, k) <= 7
    ensures OwnCount(steps, k) >= 7 ==> k !in t.tasks
    ensures t.calls <= s.calls + CallsLeft(s, k)
    decreases |steps|
  {
    if steps == [] {
    } else {
      var u := Apply(s, steps[0]);
      InvStep(s, steps[0]);
      StepToStop(s, steps[0], k);
      if k in u.tasks {
        StopsAfterTheLast(u, steps[1..], t, k);
      } else {
        assert steps[1..] == [];
      }
    }
  }

  // While somebody listens, each own step that is no call brings the call closer,
  // unless the connection is down.
  lemma StepToCall(s: State, step: Step, k: nat)
    requires Inv(s) && Can(s, step) && k in s.tasks && s.receivers > 0 && step != Skip(k)
    ensures k in Apply(s, step).tasks
    ensures step != Call(k) ==>
              ToCall(Apply(s, step).tasks[k]) + (if IsOwn(step, k) then 1 else 0) <= ToCall(s.tasks[k])
    ensures Apply(s, step).calls == s.calls + (if step == Call(k) then 1 else 0)
  {
  }

  // While somebody listens and libvirt is connected, six steps of the task include a
  // stats call, whoever else runs in between.
  lemma {:induction false} PollsAgain(s: State, steps: seq<Step>, t: State, k: nat)
    requires Inv(s) && k in s.tasks && Leads(s, steps, t, k, true)
    requires forall i :: 0 <= i < |steps| ==> steps[i] != Skip(k)
    ensures k in t.tasks && t.calls >= s.calls
    ensures t.calls == s.calls ==> OwnCount(steps, k) + ToCall(t.tasks[k]) <= ToCall(s.tasks[k])
    ensures OwnCount(steps, k) > 5 ==> t.calls > s.calls
    decreases |steps|
  {
    if steps == [] {
    } else {
      InvStep(s, steps[0]);
      StepToCall(s, steps[0], k);
      PollsAgain(Apply(s, steps[0]), steps[1..], t, k);
    }
  }

  // The task's own next step when the connection is up.
  function Next(k: nat, pc: TaskPc): Step {
    match pc
    case Ticking => Tick(k) case Checking => Count(k) case Leaving => Leave(k) case Quitting => Clear(k)
    case Stopping => Return(k) case Going => Call(k) case Calling => Answer(k)
  }

  function NextOfSubscriber(t: nat, pc: SubPc, task: nat): Step {
    match pc
    case Locked => Receiver(t) case Subscribed => Spawn(t, task) case Started => Unlock(t)
  }

  // Nothing blocks the task but a subscriber with the lock, and that one can move
  // on to its unlock.
  lemma NeverStuck(s: State, k: nat, unused: nat)
    requires Inv(s) && k in s.tasks && unused !in s.tasks
    ensures (Can(s, Next(k, s.tasks[k])) && IsOwn(Next(k, s.tasks[k]), k))
         || (s.lock.Subscriber? && s.lock.t in s.subs && Can(s, NextOfSubscriber(s.lock.t, s.subs[s.lock.t], unused)))
  {
  }
}
