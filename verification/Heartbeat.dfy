/** Worker threads and a pulse thread over the shared map `timeouts`. */
module Heartbeat {
  import opened Options

  type TaskId = nat

  /** A timeout put into the map. `at` is auxiliary: its position among the values its task has put. */
  datatype Timeout = Timeout(value: int, at: nat)

  /** Where a worker's loop stands with its task. `Failed` has caught a serialization error and is about to
      release the error decision, `Settling` has tried to; both are still before the `finally` that removes
      the map entry. `Done` is past it and about to release the decision. */
  datatype Phase = Idle | Executing(task: TaskId) | Failed(task: TaskId) | Settling(task: TaskId) | Done(task: TaskId)

  /** What has happened to a task. */
  datatype Record = Record(
    puts: seq<int>,
    sent: seq<Timeout>,
    finished: bool,
    failed: bool,
    releases: nat,
    sentAfterFinish: nat,
    sentAfterRelease: nat)

  const NEW_RECORD := Record([], [], false, false, 0, 0, 0)

  /** `held` is the entry the pulse thread has removed and not sent yet. */
  datatype State = State(
    workers: map<nat, Phase>,
    timeouts: map<TaskId, Timeout>,
    held: Option<(TaskId, Timeout)>,
    tasks: map<TaskId, Record>)

  datatype Step =
    | Poll(w: nat, task: TaskId)         // a new task is polled and its execution starts
    | PollNothing(w: nat)                // null, or a polling error
    | Beat(w: nat, value: int)           // updateTimeout during execution
    | Return(w: nat)                     // execute returns: finally removes the entry
    | Throw(w: nat)                      // any other exception: finally removes, nothing is released
    | CatchSerialization(w: nat)         // execute throws a serialization error that names the task
    | ReleaseError(w: nat, ok: bool)     // the error decision; the server may refuse it
    | Settle(w: nat)                     // finally after the serialization error
    | Release(w: nat, ok: bool)          // the decision of a task that returned
    | Take(task: TaskId)                 // the pulse thread removes an entry, if it is still there
    | Send                               // ... and sends it
    | SendFails                          // ... or the call throws and the value is lost

  predicate At(s: State, w: nat, p: Phase) {
    w in s.workers && s.workers[w] == p
  }

  predicate Enabled(s: State, step: Step) {
    match step
    case Poll(w, t) => At(s, w, Idle) && t !in s.tasks
    case PollNothing(w) => At(s, w, Idle)
    case Beat(w, v) => w in s.workers && s.workers[w].Executing?
    case Return(w) => w in s.workers && s.workers[w].Executing?
    case Throw(w) => w in s.workers && s.workers[w].Executing?
    case CatchSerialization(w) => w in s.workers && s.workers[w].Executing?
    case ReleaseError(w, ok) => w in s.workers && s.workers[w].Failed?
    case Settle(w) => w in s.workers && s.workers[w].Settling?
    case Release(w, ok) => w in s.workers && s.workers[w].Done?
    case Take(t) => s.held == None
    case Send => s.held.Some?
    case SendFails => s.held.Some?
  }

  /** The tasks of workers are recorded. */
  predicate Recorded(s: State) {
    && (forall w :: w in s.workers && !s.workers[w].Idle? ==> s.workers[w].task in s.tasks)
    && (s.held.Some? ==> s.held.value.0 in s.tasks)
  }

  function Sent(r: Record, x: Timeout): Record {
    r.(sent := r.sent + [x],
       sentAfterFinish := r.sentAfterFinish + (if r.finished then 1 else 0),
       sentAfterRelease := r.sentAfterRelease + (if r.releases > 0 then 1 else 0))
  }

  function Released(r: Record, ok: bool): Record {
    r.(releases := r.releases + (if ok then 1 else 0))
  }

  function Apply(s: State, step: Step): State
    requires Recorded(s) && Enabled(s, step)
  {
    match step
    case Poll(w, t) => s.(workers := s.workers[w := Executing(t)], tasks := s.tasks[t := NEW_RECORD])
    case PollNothing(w) => s
    case Beat(w, v) =>
      var t := s.workers[w].task;
      var r := s.tasks[t];
      s.(timeouts := s.timeouts[t := Timeout(v, |r.puts|)], tasks := s.tasks[t := r.(puts := r.puts + [v])])
    case Return(w) =>
      var t := s.workers[w].task;
      s.(workers := s.workers[w := Done(t)], timeouts := s.timeouts - {t},
         tasks := s.tasks[t := s.tasks[t].(finished := true)])
    case Throw(w) =>
      var t := s.workers[w].task;
      s.(workers := s.workers[w := Idle], timeouts := s.timeouts - {t},
         tasks := s.tasks[t := s.tasks[t].(finished := true)])
    case CatchSerialization(w) =>
      var t := s.workers[w].task;
      s.(workers := s.workers[w := Failed(t)], tasks := s.tasks[t := s.tasks[t].(failed := true)])
    case ReleaseError(w, ok) =>
      var t := s.workers[w].task;
      s.(workers := s.workers[w := Settling(t)], tasks := s.tasks[t := Released(s.tasks[t], ok)])
    case Settle(w) =>
      var t := s.workers[w].task;
      s.(workers := s.workers[w := Idle], timeouts := s.timeouts - {t},
         tasks := s.tasks[t := s.tasks[t].(finished := true)])
    case Release(w, ok) =>
      var t := s.workers[w].task;
      s.(workers := s.workers[w := Idle], tasks := s.tasks[t := Released(s.tasks[t], ok)])
    case Take(t) =>
      if t in s.timeouts then s.(timeouts := s.timeouts - {t}, held := Some((t, s.timeouts[t]))) else s
    case Send =>
      var (t, x) := s.held.value;
      s.(held := None, tasks := if t in s.tasks then s.tasks[t := Sent(s.tasks[t], x)] else s.tasks)
    case SendFails => s.(held := None)
  }

  predicate Initial(s: State) {
    && (forall w :: w in s.workers ==> s.workers[w] == Idle)
    && s.timeouts == map[] && s.held == None && s.tasks == map[]
  }

  // ---- the invariant ----

  /** The task is between its poll and the `finally` that removes its entry. */
  predicate Running(p: Phase, t: TaskId) {
    !p.Idle? && !p.Done? && p.task == t
  }

  predicate Held(s: State, t: TaskId) {
    s.held.Some? && s.held.value.0 == t
  }

  function Pending(s: State, t: TaskId): nat {
    (if Held(s, t) then 1 else 0) + (if t in s.timeouts then 1 else 0)
  }

  /** x is the value its task put at x.at. */
  predicate WasPut(r: Record, x: Timeout) {
    x.at < |r.puts| && r.puts[x.at] == x.value
  }

  /** Everything sent was put, in the order in which it was put, and nothing twice. */
  predicate SentInOrder(r: Record) {
    && (forall k :: 0 <= k < |r.sent| ==> WasPut(r, r.sent[k]))
    && (forall j, k :: 0 <= j < k < |r.sent| ==> r.sent[j].at < r.sent[k].at)
  }

  predicate After(r: Record, x: Timeout) {
    WasPut(r, x) && forall k :: 0 <= k < |r.sent| ==> r.sent[k].at < x.at
  }

  /** The order of what a task has put, sent and still has underway. */
  ghost predicate OrderInv(s: State, t: TaskId)
    requires t in s.tasks
  {
    var r := s.tasks[t];
    && SentInOrder(r)
    && (t in s.timeouts ==> After(r, s.timeouts[t]) && s.timeouts[t].at == |r.puts| - 1)
    && (Held(s, t) ==> After(r, s.held.value.1) && (t in s.timeouts ==> s.held.value.1.at < s.timeouts[t].at))
  }

  /** How much can still be sent for a task. */
  predicate CountInv(s: State, t: TaskId)
    requires t in s.tasks
  {
    var r := s.tasks[t];
    && (if r.finished then t !in s.timeouts && r.sentAfterFinish + Pending(s, t) <= 1 else r.sentAfterFinish == 0)
    && r.releases <= 1
    && (r.releases == 0 ==> r.sentAfterRelease == 0)
    && (r.releases == 1 ==> r.sentAfterRelease + Pending(s, t) <= if r.failed then 2 else 1)
    && (r.releases == 1 && !r.failed ==> r.finished)
  }

  ghost predicate TaskInv(s: State, t: TaskId)
    requires t in s.tasks
  {
    OrderInv(s, t) && CountInv(s, t)
  }

  /** What holds of one worker. */
  predicate WorkerInv(s: State, w: nat)
    requires w in s.workers
  {
    var p := s.workers[w];
    !p.Idle? ==>
      && p.task in s.tasks
      && var r := s.tasks[p.task];
      && (p.Done? <==> r.finished)
      && (p.Failed? || p.Settling? <==> r.failed)
      && (!p.Settling? ==> r.releases == 0)
  }

  /** No two workers have the same task. */
  predicate Apart(s: State) {
    forall v, w :: v in s.workers && w in s.workers && SameTask(s.workers[v], s.workers[w]) ==> v == w
  }

  predicate SameTask(p: Phase, q: Phase) {
    !p.Idle? && !q.Idle? && p.task == q.task
  }

  /** The keys of the map are tasks being executed. */
  predicate KeysRunning(s: State) {
    forall t :: t in s.timeouts ==> IsRunning(s, t)
  }

  predicate IsRunning(s: State, t: TaskId) {
    exists w :: w in s.workers && Running(s.workers[w], t)
  }

  ghost predicate Inv(s: State) {
    && Recorded(s) && Apart(s) && KeysRunning(s)
    && (forall w :: w in s.workers ==> WorkerInv(s, w))
    && (forall t :: t in s.tasks ==> TaskInv(s, t))
  }

  lemma InitialInv(s: State)
    requires Initial(s)
    ensures Inv(s)
  {
  }

  lemma StepApart(s: State, step: Step)
    requires Inv(s) && Enabled(s, step)
    ensures Recorded(Apply(s, step)) && Apart(Apply(s, step))
  {
    var s' := Apply(s, step);
    forall v, w | v in s'.workers && w in s'.workers && SameTask(s'.workers[v], s'.workers[w]) ensures v == w {
      assert v in s.workers && w in s.workers;
      assert SameTask(s.workers[v], s.workers[w]) ==> v == w;
    }
  }

  lemma StepKeysRunning(s: State, step: Step)
    requires Inv(s) && Enabled(s, step)
    ensures KeysRunning(Apply(s, step))
  {
    forall t | t in Apply(s, step).timeouts ensures IsRunning(Apply(s, step), t) {
      KeyRuns(s, step, t);
    }
  }

  lemma KeyRuns(s: State, step: Step, t: TaskId)
    requires Recorded(s) && Apart(s) && KeysRunning(s) && Enabled(s, step) && t in Apply(s, step).timeouts
    ensures IsRunning(Apply(s, step), t)
  {
    var s' := Apply(s, step);
    if t in s.timeouts {
      var w :| w in s.workers && Running(s.workers[w], t);
      StillRuns(s, step, t, w);
    } else {
      assert step.Beat? && Running(s'.workers[step.w], t);
    }
  }

  /** The worker of a key that stays goes on with its task. */
  lemma StillRuns(s: State, step: Step, t: TaskId, w: nat)
    requires Recorded(s) && Enabled(s, step) && w in s.workers && Running(s.workers[w], t)
    requires t in Apply(s, step).timeouts
    ensures w in Apply(s, step).workers && Running(Apply(s, step).workers[w], t)
  {
  }

  lemma StepWorkers(s: State, step: Step, w: nat)
    requires Inv(s) && Enabled(s, step) && w in s.workers
    ensures w in Apply(s, step).workers && WorkerInv(Apply(s, step), w)
  {
    assert WorkerInv(s, w);
  }

  lemma SentKeepsOrder(r: Record, x: Timeout)
    requires SentInOrder(r) && After(r, x)
    ensures SentInOrder(Sent(r, x))
    ensures forall y: Timeout :: After(r, y) && x.at < y.at ==> After(Sent(r, x), y)
  {
  }

  lemma PutKeepsOrder(r: Record, v: int)
    requires SentInOrder(r)
    ensures
      var more := r.(puts := r.puts + [v]);
      && SentInOrder(more) && After(more, Timeout(v, |r.puts|))
      && forall y: Timeout :: After(r, y) ==> After(more, y)
  {
  }

  /** Steps that neither put nor send for the task. */
  lemma OrderFrame(s: State, s': State, t: TaskId)
    requires t in s.tasks && OrderInv(s, t) && t in s'.tasks
    requires s'.tasks[t].puts == s.tasks[t].puts && s'.tasks[t].sent == s.tasks[t].sent
    requires t in s'.timeouts ==> t in s.timeouts && s'.timeouts[t] == s.timeouts[t]
    requires Held(s', t) ==>
               || (Held(s, t) && s'.held == s.held)
               || (t in s.timeouts && s'.held.value.1 == s.timeouts[t] && t !in s'.timeouts)
    ensures OrderInv(s', t)
  {
  }

  lemma StepOrder(s: State, step: Step, t: TaskId)
    requires Inv(s) && Enabled(s, step) && t in s.tasks
    ensures t in Apply(s, step).tasks && OrderInv(Apply(s, step), t)
  {
    assert TaskInv(s, t);
    OrderKept(s, step, t);
  }

  lemma OrderKept(s: State, step: Step, t: TaskId)
    requires Recorded(s) && Enabled(s, step) && t in s.tasks && OrderInv(s, t)
    ensures t in Apply(s, step).tasks && OrderInv(Apply(s, step), t)
  {
    if step.Beat? && s.workers[step.w].task == t {
      PutKeepsOrder(s.tasks[t], step.value);
    } else if step.Send? && Held(s, t) {
      SentKeepsOrder(s.tasks[t], s.held.value.1);
    } else {
      OthersOrder(s, step, t);
    }
  }

  lemma OthersOrder(s: State, step: Step, t: TaskId)
    requires Recorded(s) && Enabled(s, step) && t in s.tasks && OrderInv(s, t)
    requires !(step.Beat? && s.workers[step.w].task == t) && !(step.Send? && Held(s, t))
    ensures t in Apply(s, step).tasks && OrderInv(Apply(s, step), t)
  {
    OrderFrame(s, Apply(s, step), t);
  }

  lemma StepCounts(s: State, step: Step, t: TaskId)
    requires Inv(s) && Enabled(s, step) && t in s.tasks
    ensures t in Apply(s, step).tasks && CountInv(Apply(s, step), t)
  {
    assert TaskInv(s, t);
    if !IsPulse(step) { assert WorkerInv(s, step.w); }
    CountsKept(s, step, t);
  }

  /** A step of the pulse thread. */
  predicate IsPulse(step: Step) {
    step.Take? || step.Send? || step.SendFails?
  }

  lemma CountsKept(s: State, step: Step, t: TaskId)
    requires Recorded(s) && Enabled(s, step) && t in s.tasks && CountInv(s, t)
    requires !IsPulse(step) ==> WorkerInv(s, step.w)
    ensures t in Apply(s, step).tasks && CountInv(Apply(s, step), t)
  {
  }

  lemma KeysRecorded(s: State)
    requires Recorded(s) && KeysRunning(s)
    ensures forall t :: t in s.timeouts ==> t in s.tasks
  {
    forall t | t in s.timeouts ensures t in s.tasks {
      var w :| w in s.workers && Running(s.workers[w], t);
    }
  }

  lemma NewTask(s: State, step: Step, t: TaskId)
    requires Inv(s) && Enabled(s, step) && t in Apply(s, step).tasks && t !in s.tasks
    ensures TaskInv(Apply(s, step), t)
  {
    KeysRecorded(s);
  }

  /** Every step of every thread keeps the invariant. */
  lemma StepInv(s: State, step: Step)
    requires Inv(s) && Enabled(s, step)
    ensures Inv(Apply(s, step))
  {
    var s' := Apply(s, step);
    StepApart(s, step);
    StepKeysRunning(s, step);
    forall w | w in s'.workers ensures WorkerInv(s', w) {
      StepWorkers(s, step, w);
    }
    forall t | t in s'.tasks ensures TaskInv(s', t) {
      if t in s.tasks { StepOrder(s, step, t); StepCounts(s, step, t); } else { NewTask(s, step, t); }
    }
  }

  // ---- runs ----

  /** The state after a run: `None` if some step of it was not enabled. */
  function Run(s: State, steps: seq<Step>): Option<State>
  {
    if steps == [] then Some(s)
    else
      match Run(s, steps[..|steps| - 1])
      case None => None
      case Some(m) =>
        var step := steps[|steps| - 1];
        if Recorded(m) && Enabled(m, step) then Some(Apply(m, step)) else None
  }

  lemma {:induction false} RunInv(s: State, steps: seq<Step>)
    requires Initial(s) && Run(s, steps).Some?
    ensures Inv(Run(s, steps).value)
  {
    if steps == [] {
      InitialInv(s);
    } else {
      RunInv(s, steps[..|steps| - 1]);
      StepInv(Run(s, steps[..|steps| - 1]).value, steps[|steps| - 1]);
    }
  }

  /** Main result: under every interleaving, the keys of `timeouts` are tasks being executed; what was sent
      for a task was put by it, in that order and nothing twice; at most one value is sent after its entry
      is removed for good; it has at most one decision released; and after a decision is released at most
      one value is sent, two if the decision is a serialization error's. */
  lemma HeartbeatSafety(s: State, steps: seq<Step>, t: TaskId)
    requires Initial(s) && Run(s, steps).Some? && t in Run(s, steps).value.tasks
    ensures
      var end := Run(s, steps).value;
      var r := end.tasks[t];
      && (t in end.timeouts ==> IsRunning(end, t))
      && SentInOrder(r)
      && r.sentAfterFinish <= 1
      && r.releases <= 1
      && (r.releases > 0 && !r.failed ==> r.finished)
      && r.sentAfterRelease <= (if r.failed then 2 else 1)
  {
    RunInv(s, steps);
    assert TaskInv(Run(s, steps).value, t);
  }

  lemma RunPush(s: State, steps: seq<Step>, step: Step)
    requires Run(s, steps).Some? && Recorded(Run(s, steps).value) && Enabled(Run(s, steps).value, step)
    ensures Run(s, steps + [step]) == Some(Apply(Run(s, steps).value, step))
  {
    assert (steps + [step])[..|steps|] == steps;
  }

  // ---- how much is sent after a release ----

  /** No worker can put anything for the task any more, and what was sent since its release and what can still be
      sent are within the bound. */
  ghost predicate Spent(s: State, t: TaskId, bound: nat) {
    && t in s.tasks && s.tasks[t].releases > 0
    && (forall w :: w in s.workers ==> s.workers[w] != Executing(t))
    && s.tasks[t].sentAfterRelease + Pending(s, t) <= bound
  }

  lemma SpentStep(s: State, step: Step, t: TaskId, bound: nat)
    requires Recorded(s) && Enabled(s, step) && Spent(s, t, bound)
    ensures Spent(Apply(s, step), t, bound)
  {
    var s' := Apply(s, step);
    forall w | w in s'.workers ensures s'.workers[w] != Executing(t) {
      assert w in s.workers;
    }
  }

  lemma {:induction false} SpentRun(s: State, steps: seq<Step>, t: TaskId, bound: nat)
    requires Spent(s, t, bound) && Run(s, steps).Some?
    ensures Spent(Run(s, steps).value, t, bound)
  {
    if steps != [] {
      var init := steps[..|steps| - 1];
      SpentRun(s, init, t, bound);
      SpentStep(Run(s, init).value, steps[|steps| - 1], t, bound);
    }
  }

  /** The steps take the state to one where n values of the task have been sent since its release. */
  predicate SendsSinceRelease(s: State, steps: seq<Step>, t: TaskId, n: nat) {
    && Run(s, steps).Some? && t in Run(s, steps).value.tasks
    && Run(s, steps).value.tasks[t].sentAfterRelease == n
  }

  /** The pulse thread sends what it holds. */
  lemma SendHeld(s: State, steps: seq<Step>, t: TaskId) returns (more: seq<Step>)
    requires Run(s, steps).Some? && Recorded(Run(s, steps).value) && Held(Run(s, steps).value, t)
    requires t in Run(s, steps).value.tasks && Run(s, steps).value.tasks[t].releases > 0
    ensures
      var before := Run(s, steps).value;
      && Run(s, more).Some? && Recorded(Run(s, more).value) && Run(s, more).value == Apply(before, Send)
      && SendsSinceRelease(s, more, t, before.tasks[t].sentAfterRelease + 1)
  {
    RunPush(s, steps, Send);
    more := steps + [Send];
  }

  /** The pulse thread frees its hands, takes the task's entry and sends it. */
  lemma SendTaken(s: State, steps: seq<Step>, t: TaskId) returns (more: seq<Step>)
    requires Run(s, steps).Some? && Recorded(Run(s, steps).value)
    requires t in Run(s, steps).value.tasks && Run(s, steps).value.tasks[t].releases > 0
    requires t in Run(s, steps).value.timeouts && !Held(Run(s, steps).value, t)
    ensures SendsSinceRelease(s, more, t, Run(s, steps).value.tasks[t].sentAfterRelease + 1)
  {
    more := steps;
    if Run(s, steps).value.held.Some? {
      RunPush(s, more, SendFails);
      more := more + [SendFails];
    }
    RunPush(s, more, Take(t));
    more := more + [Take(t)];
    more := SendHeld(s, more, t);
  }

  /** A release that the server accepts. */
  predicate IsRelease(s: State, step: Step) {
    Enabled(s, step) && (step.ReleaseError? || step.Release?) && step.ok
  }

  /** Right after a release, nothing is sent yet and nothing new can be put. */
  lemma ReleaseSpends(s: State, step: Step, t: TaskId)
    requires Inv(s) && IsRelease(s, step) && s.workers[step.w].task == t
    ensures
      var m := Apply(s, step);
      && Recorded(m) && Spent(m, t, Pending(s, t)) && m.tasks[t].sentAfterRelease == 0
      && m.held == s.held && m.timeouts == s.timeouts
  {
    StepApart(s, step);
    assert WorkerInv(s, step.w) && TaskInv(s, t);
    var m := Apply(s, step);
    forall v | v in m.workers ensures m.workers[v] != Executing(t) {
      assert v in s.workers && (SameTask(s.workers[v], s.workers[step.w]) ==> v == step.w);
    }
  }

  lemma SomeSends(s: State, t: TaskId, n: nat) returns (steps: seq<Step>)
    requires Recorded(s) && t in s.tasks && s.tasks[t].releases > 0 && s.tasks[t].sentAfterRelease == 0
    requires n <= Pending(s, t)
    ensures SendsSinceRelease(s, steps, t, n)
  {
    steps := [];
    if n == 2 || (n == 1 && Held(s, t)) { steps := SendHeld(s, steps, t); }
    if n == 2 || (n == 1 && !Held(s, t)) { steps := SendTaken(s, steps, t); }
  }

  /** Main result: after an accepted release, of either kind and in any state that can be reached, n values of the
      task can still be sent exactly if n is at most the number that are underway, held or in the map. */
  lemma SendsAfterRelease(s: State, step: Step, t: TaskId, n: nat)
    requires Inv(s) && IsRelease(s, step) && s.workers[step.w].task == t
    ensures (exists steps :: SendsSinceRelease(Apply(s, step), steps, t, n)) <==> n <= Pending(s, t)
  {
    var m := Apply(s, step);
    ReleaseSpends(s, step, t);
    forall steps | SendsSinceRelease(m, steps, t, n) ensures n <= Pending(s, t) {
      SpentRun(m, steps, t, Pending(s, t));
    }
    if n <= Pending(s, t) {
      var steps := SomeSends(m, t, n);
    }
  }

  /** So two sends after a release can happen exactly if the decision is a serialization error's, released before
      its `finally`, and one value is held while another is in the map. */
  lemma TwoSendsAfterErrorRelease(s: State, step: Step, t: TaskId)
    requires Inv(s) && IsRelease(s, step) && s.workers[step.w].task == t
    ensures (exists steps :: SendsSinceRelease(Apply(s, step), steps, t, 2))
       <==> step.ReleaseError? && Held(s, t) && t in s.timeouts
  {
    SendsAfterRelease(s, step, t, 2);
    assert WorkerInv(s, step.w) && TaskInv(s, t);
  }

  /** Such a state can be reached: a worker whose task has put two values, one of them held by the pulse thread,
      fails to serialize its decision. */
  lemma FailingRun() returns (s: State, steps: seq<Step>)
    ensures Initial(s) && Run(s, steps).Some?
    ensures
      var m := Run(s, steps).value;
      Inv(m) && At(m, 0, Failed(7)) && Held(m, 7) && 7 in m.timeouts && IsRelease(m, ReleaseError(0, true))
  {
    s := State(map[0 := Idle], map[], None, map[]);
    steps := [];
    RunPush(s, steps, Poll(0, 7));
    steps := steps + [Poll(0, 7)];
    RunPush(s, steps, Beat(0, 1));
    steps := steps + [Beat(0, 1)];
    RunPush(s, steps, Take(7));
    steps := steps + [Take(7)];
    RunPush(s, steps, Beat(0, 2));
    steps := steps + [Beat(0, 2)];
    RunPush(s, steps, CatchSerialization(0));
    steps := steps + [CatchSerialization(0)];
    RunInv(s, steps);
  }
}
