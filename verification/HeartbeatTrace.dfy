/** What a run of steps says of each task, read off the steps alone. */
module HeartbeatTrace {
  import opened Options
  import opened Heartbeat

  // ---- reading the steps ----

  /** The task a worker polled last. */
  function TaskOf(steps: seq<Step>, w: nat): Option<TaskId> {
    if steps == [] then None
    else
      var n := |steps| - 1;
      if steps[n].Poll? && steps[n].w == w then Some(steps[n].task) else TaskOf(steps[..n], w)
  }

  predicate Polled(steps: seq<Step>, t: TaskId) {
    steps != [] &&
    (var init, step := steps[..|steps| - 1], steps[|steps| - 1];
     Polled(init, t) || (step.Poll? && step.task == t))
  }

  /** A step of a worker on the task it has polled. */
  predicate On(before: seq<Step>, step: Step, t: TaskId) {
    !IsPulse(step) && !step.Poll? && !step.PollNothing? && TaskOf(before, step.w) == Some(t)
  }

  /** The `finally` that removes the entry of a task. */
  predicate IsFinally(step: Step) {
    step.Return? || step.Throw? || step.Settle?
  }

  /** What has become of a value that was put: it waits in the map, is held by the pulse thread or delivered by it, was
      replaced by a later put, removed by the `finally` of its task, or lost when the call failed. */
  datatype Fate = Waiting | Underway | Delivered | Replaced | Withdrawn | Lost

  function Turned(f: seq<Fate>, from: Fate, to: Fate): (r: seq<Fate>)
    ensures |r| == |f| && forall k :: 0 <= k < |f| ==> r[k] == if f[k] == from then to else f[k]
  {
    seq(|f|, k requires 0 <= k < |f| => if f[k] == from then to else f[k])
  }

  /** The fate of each value put for a task. */
  function Fates(steps: seq<Step>, t: TaskId): seq<Fate> {
    if steps == [] then []
    else
      var init, step := steps[..|steps| - 1], steps[|steps| - 1];
      var f := Fates(init, t);
      if step.Take? then (if step.task == t then Turned(f, Waiting, Underway) else f)
      else if step.Send? then Turned(f, Underway, Delivered)
      else if step.SendFails? then Turned(f, Underway, Lost)
      else if !On(init, step, t) then f
      else if step.Beat? then Turned(f, Waiting, Replaced) + [Waiting]
      else if IsFinally(step) then Turned(f, Waiting, Withdrawn)
      else f
  }

  /** The values put for a task. */
  function Puts(steps: seq<Step>, t: TaskId): seq<int> {
    if steps == [] then []
    else
      var init, step := steps[..|steps| - 1], steps[|steps| - 1];
      Puts(init, t) + (if step.Beat? && On(init, step, t) then [step.value] else [])
  }

  predicate Over(steps: seq<Step>, t: TaskId) {
    steps != [] &&
    (var init, step := steps[..|steps| - 1], steps[|steps| - 1];
     Over(init, t) || (IsFinally(step) && On(init, step, t)))
  }

  predicate Caught(steps: seq<Step>, t: TaskId) {
    steps != [] &&
    (var init, step := steps[..|steps| - 1], steps[|steps| - 1];
     Caught(init, t) || (step.CatchSerialization? && On(init, step, t)))
  }

  /** How many releases of the task the server has accepted. */
  function Accepted(steps: seq<Step>, t: TaskId): nat {
    if steps == [] then 0
    else
      var init, step := steps[..|steps| - 1], steps[|steps| - 1];
      Accepted(init, t) + (if (step.Release? || step.ReleaseError?) && step.ok && On(init, step, t) then 1 else 0)
  }

  /** The step delivers a value of the task. */
  predicate Delivers(before: seq<Step>, step: Step, t: TaskId) {
    step.Send? && Underway in Fates(before, t)
  }

  /** How many values were delivered after the `finally`, and after a release. */
  function DeliveredLate(steps: seq<Step>, t: TaskId): nat {
    if steps == [] then 0
    else
      var init, step := steps[..|steps| - 1], steps[|steps| - 1];
      DeliveredLate(init, t) + (if Delivers(init, step, t) && Over(init, t) then 1 else 0)
  }

  function DeliveredAfterRelease(steps: seq<Step>, t: TaskId): nat {
    if steps == [] then 0
    else
      var init, step := steps[..|steps| - 1], steps[|steps| - 1];
      DeliveredAfterRelease(init, t) + (if Delivers(init, step, t) && Accepted(init, t) > 0 then 1 else 0)
  }

  /** The values delivered, in the order in which they were put. */
  function Collect(f: seq<Fate>, puts: seq<int>): seq<Timeout>
    requires |f| == |puts|
  {
    if f == [] then []
    else
      var n := |f| - 1;
      Collect(f[..n], puts[..n]) + (if f[n] == Delivered then [Timeout(puts[n], n)] else [])
  }

  // ---- what a change of fates collects ----

  lemma {:induction false} CollectSame(f: seq<Fate>, g: seq<Fate>, puts: seq<int>)
    requires |f| == |g| == |puts| && forall k :: 0 <= k < |f| ==> (f[k] == Delivered <==> g[k] == Delivered)
    ensures Collect(f, puts) == Collect(g, puts)
  {
    if f != [] {
      var n := |f| - 1;
      CollectSame(f[..n], g[..n], puts[..n]);
    }
  }

  lemma {:induction false} CollectHas(f: seq<Fate>, puts: seq<int>, k: nat)
    requires |f| == |puts| && k < |f| && f[k] == Delivered
    ensures Timeout(puts[k], k) in Collect(f, puts)
  {
    var n := |f| - 1;
    if k < n { CollectHas(f[..n], puts[..n], k); }
  }

  /** One value more, behind all that were delivered. */
  lemma {:induction false} CollectOneMore(f: seq<Fate>, g: seq<Fate>, puts: seq<int>, k: nat)
    requires |f| == |g| == |puts| && k < |f| && f[k] != Delivered && g[k] == Delivered
    requires forall m :: 0 <= m < |f| && m != k ==> (f[m] == Delivered <==> g[m] == Delivered)
    requires forall m :: k < m < |f| ==> f[m] != Delivered
    ensures Collect(g, puts) == Collect(f, puts) + [Timeout(puts[k], k)]
  {
    var n := |f| - 1;
    if k == n {
      CollectSame(f[..n], g[..n], puts[..n]);
    } else {
      CollectOneMore(f[..n], g[..n], puts[..n], k);
    }
  }

  lemma CollectPush(f: seq<Fate>, puts: seq<int>, v: int)
    requires |f| == |puts|
    ensures Collect(f + [Waiting], puts + [v]) == Collect(f, puts)
  {
    assert (f + [Waiting])[..|f|] == f && (puts + [v])[..|puts|] == puts;
  }

  // ---- the state is what the steps say ----

  /** The workers are on the tasks they polled. */
  predicate WorkersTell(m: State, steps: seq<Step>) {
    forall w :: w in m.workers && !m.workers[w].Idle? ==> TaskOf(steps, w) == Some(m.workers[w].task)
  }

  /** A value has the fate exactly if the map, or the pulse thread, has it. */
  ghost predicate FatesTell(m: State, t: TaskId, f: seq<Fate>)
    requires t in m.tasks
  {
    var puts := m.tasks[t].puts;
    && |f| == |puts|
    && (forall k :: 0 <= k < |f| ==> (f[k] == Waiting <==> t in m.timeouts && m.timeouts[t] == Timeout(puts[k], k)))
    && (forall k :: 0 <= k < |f| ==> (f[k] == Underway <==> Held(m, t) && m.held.value.1 == Timeout(puts[k], k)))
    && (t in m.timeouts ==> Waiting in f) && (Held(m, t) ==> Underway in f)
    && m.tasks[t].sent == Collect(f, puts)
  }

  ghost predicate RecordTells(r: Record, steps: seq<Step>, t: TaskId) {
    && r.puts == Puts(steps, t) && r.finished == Over(steps, t) && r.failed == Caught(steps, t)
    && r.releases == Accepted(steps, t)
    && r.sentAfterFinish == DeliveredLate(steps, t) && r.sentAfterRelease == DeliveredAfterRelease(steps, t)
  }

  ghost predicate TaskTells(m: State, steps: seq<Step>, t: TaskId) {
    && (t in m.tasks <==> Polled(steps, t))
    && (t in m.tasks ==> FatesTell(m, t, Fates(steps, t)) && RecordTells(m.tasks[t], steps, t))
  }

  lemma {:induction false} NotPolled(steps: seq<Step>, t: TaskId)
    requires !Polled(steps, t)
    ensures forall w: nat :: TaskOf(steps, w) != Some(t)
    ensures Fates(steps, t) == [] && Puts(steps, t) == [] && !Over(steps, t) && !Caught(steps, t)
    ensures Accepted(steps, t) == DeliveredLate(steps, t) == DeliveredAfterRelease(steps, t) == 0
  {
    if steps != [] { NotPolled(steps[..|steps| - 1], t); }
  }

  // ---- one step ----

  /** The steps so far, one more, and the state before it. */
  ghost predicate IsNext(m: State, before: seq<Step>, step: Step) {
    Inv(m) && Enabled(m, step) && WorkersTell(m, before)
  }

  lemma StepWorkersTell(m: State, before: seq<Step>, step: Step)
    requires IsNext(m, before, step)
    ensures WorkersTell(Apply(m, step), before + [step])
  {
    var steps := before + [step];
    assert steps[..|steps| - 1] == before;
  }

  /** The step works on the task exactly if its worker does. */
  lemma OnIsWorker(m: State, before: seq<Step>, step: Step, t: TaskId)
    requires IsNext(m, before, step)
    ensures On(before, step, t) <==>
      !IsPulse(step) && !step.Poll? && !step.PollNothing? && m.workers[step.w].task == t
  {
  }

  /** A value of the task is delivered exactly if the pulse thread sends what it holds for it. */
  lemma DeliversIsSend(m: State, before: seq<Step>, step: Step, t: TaskId)
    requires t in m.tasks && FatesTell(m, t, Fates(before, t))
    ensures Delivers(before, step, t) <==> step.Send? && Held(m, t)
  {
    var f := Fates(before, t);
    if Underway in f {
      var k :| 0 <= k < |f| && f[k] == Underway;
      assert Held(m, t);
    }
  }

  lemma StepRecord(m: State, before: seq<Step>, step: Step, t: TaskId)
    requires IsNext(m, before, step) && TaskTells(m, before, t) && t in m.tasks
    ensures t in Apply(m, step).tasks && RecordTells(Apply(m, step).tasks[t], before + [step], t)
  {
    var steps := before + [step];
    assert steps[..|steps| - 1] == before;
    OnIsWorker(m, before, step, t);
    DeliversIsSend(m, before, step, t);
    if IsPulse(step) { PulseRecord(m, step, t); } else { WorkerRecord(m, step, t); }
  }

  lemma PulseRecord(m: State, step: Step, t: TaskId)
    requires Recorded(m) && Enabled(m, step) && IsPulse(step) && t in m.tasks
    ensures
      var r := m.tasks[t];
      && t in Apply(m, step).tasks
      && Apply(m, step).tasks[t] == if step.Send? && Held(m, t) then Sent(r, m.held.value.1) else r
  {
  }

  lemma WorkerRecord(m: State, step: Step, t: TaskId)
    requires Inv(m) && Enabled(m, step) && !IsPulse(step) && t in m.tasks
    ensures
      var r, on := m.tasks[t], !step.Poll? && !step.PollNothing? && m.workers[step.w].task == t;
      && t in Apply(m, step).tasks
      && Apply(m, step).tasks[t] ==
         if !on then r
         else if step.Beat? then r.(puts := r.puts + [step.value])
         else if IsFinally(step) then r.(finished := true)
         else if step.CatchSerialization? then r.(failed := true)
         else Released(r, step.ok)
  {
  }

  /** What the map and the pulse thread hold for a task has its place among the values put. */
  ghost predicate InPlace(m: State, t: TaskId, f: seq<Fate>)
    requires t in m.tasks
  {
    && OrderInv(m, t) && FatesTell(m, t, f)
  }

  lemma BeatFates(m: State, m': State, t: TaskId, v: int, f: seq<Fate>)
    requires t in m.tasks && InPlace(m, t, f) && t in m'.tasks && m'.held == m.held
    requires m'.tasks[t] == m.tasks[t].(puts := m.tasks[t].puts + [v])
    requires t in m'.timeouts && m'.timeouts[t] == Timeout(v, |m.tasks[t].puts|)
    ensures FatesTell(m', t, Turned(f, Waiting, Replaced) + [Waiting])
  {
    var puts := m.tasks[t].puts;
    var g := Turned(f, Waiting, Replaced);
    var h := g + [Waiting];
    BeatCollects(f, puts, v);
    assert h[|f|] == Waiting && forall k :: 0 <= k < |f| ==> h[k] == g[k] && h[k] != Waiting;
    if Held(m', t) {
      var k :| 0 <= k < |f| && f[k] == Underway;
      assert h[k] == Underway;
    }
    assert m.tasks[t].puts <= m'.tasks[t].puts;
  }

  lemma BeatCollects(f: seq<Fate>, puts: seq<int>, v: int)
    requires |f| == |puts|
    ensures Collect(Turned(f, Waiting, Replaced) + [Waiting], puts + [v]) == Collect(f, puts)
  {
    CollectSame(f, Turned(f, Waiting, Replaced), puts);
    CollectPush(Turned(f, Waiting, Replaced), puts, v);
  }

  lemma FinallyFates(m: State, m': State, t: TaskId, f: seq<Fate>)
    requires t in m.tasks && InPlace(m, t, f) && t in m'.tasks && m'.held == m.held && t !in m'.timeouts
    requires m'.tasks[t].puts == m.tasks[t].puts && m'.tasks[t].sent == m.tasks[t].sent
    ensures FatesTell(m', t, Turned(f, Waiting, Withdrawn))
  {
    var g := Turned(f, Waiting, Withdrawn);
    CollectSame(f, g, m.tasks[t].puts);
    if Held(m', t) {
      var k :| 0 <= k < |f| && f[k] == Underway;
      assert g[k] == Underway;
    }
  }

  lemma TakeFates(m: State, m': State, t: TaskId, f: seq<Fate>)
    requires t in m.tasks && InPlace(m, t, f) && m'.tasks == m.tasks && m.held == None
    requires if t in m.timeouts then t !in m'.timeouts && m'.held == Some((t, m.timeouts[t])) else m' == m
    ensures FatesTell(m', t, Turned(f, Waiting, Underway))
  {
    var g := Turned(f, Waiting, Underway);
    CollectSame(f, g, m.tasks[t].puts);
    if t in m.timeouts {
      var k :| 0 <= k < |f| && f[k] == Waiting;
      assert g[k] == Underway;
    }
  }

  /** What was held is delivered behind all that was delivered before. */
  lemma SendFates(m: State, m': State, t: TaskId, f: seq<Fate>)
    requires t in m.tasks && InPlace(m, t, f) && Held(m, t) && m'.held == None && m'.timeouts == m.timeouts
    requires t in m'.tasks && m'.tasks[t].puts == m.tasks[t].puts
    requires m'.tasks[t].sent == m.tasks[t].sent + [m.held.value.1]
    ensures FatesTell(m', t, Turned(f, Underway, Delivered))
  {
    var puts, g := m.tasks[t].puts, Turned(f, Underway, Delivered);
    var k :| 0 <= k < |f| && f[k] == Underway;
    forall d | k < d < |f| ensures f[d] != Delivered {
      if f[d] == Delivered { CollectHas(f, puts, d); }
    }
    CollectOneMore(f, g, puts, k);
    if t in m'.timeouts {
      var w :| 0 <= w < |f| && f[w] == Waiting;
      assert g[w] == Waiting;
    }
  }

  lemma LoseFates(m: State, m': State, t: TaskId, f: seq<Fate>)
    requires t in m.tasks && InPlace(m, t, f) && m'.held == None && m'.timeouts == m.timeouts && m'.tasks == m.tasks
    ensures FatesTell(m', t, Turned(f, Underway, Lost))
  {
    var g := Turned(f, Underway, Lost);
    CollectSame(f, g, m.tasks[t].puts);
    if t in m'.timeouts {
      var w :| 0 <= w < |f| && f[w] == Waiting;
      assert g[w] == Waiting;
    }
  }

  /** A step that leaves the task alone. */
  lemma OtherFates(m: State, m': State, t: TaskId, f: seq<Fate>)
    requires t in m.tasks && FatesTell(m, t, f) && t in m'.tasks
    requires m'.tasks[t].puts == m.tasks[t].puts && m'.tasks[t].sent == m.tasks[t].sent
    requires t in m.timeouts <==> t in m'.timeouts
    requires t in m.timeouts ==> m'.timeouts[t] == m.timeouts[t]
    requires Held(m, t) <==> Held(m', t)
    requires Held(m, t) ==> m'.held == m.held
    ensures FatesTell(m', t, f)
  {
  }

  lemma NoneUnderway(f: seq<Fate>, to: Fate)
    requires Underway !in f
    ensures Turned(f, Underway, to) == f
  {
    assert forall k :: 0 <= k < |f| ==> f[k] in f;
  }

  lemma PulseFates(m: State, before: seq<Step>, step: Step, t: TaskId)
    requires IsNext(m, before, step) && IsPulse(step) && t in m.tasks && InPlace(m, t, Fates(before, t))
    ensures t in Apply(m, step).tasks && FatesTell(Apply(m, step), t, Fates(before + [step], t))
  {
    var steps, m', f := before + [step], Apply(m, step), Fates(before, t);
    assert steps[..|steps| - 1] == before;
    if step.Take? {
      TakenFates(m, step.task, t, f);
    } else if Held(m, t) {
      if step.Send? { SendFates(m, m', t, f); } else { LoseFates(m, m', t, f); }
    } else {
      NotHeldFates(m, m', t, f, if step.Send? then Delivered else Lost);
    }
  }

  lemma TakenFates(m: State, u: TaskId, t: TaskId, f: seq<Fate>)
    requires Inv(m) && Enabled(m, Take(u)) && t in m.tasks && InPlace(m, t, f)
    ensures FatesTell(Apply(m, Take(u)), t, if u == t then Turned(f, Waiting, Underway) else f)
  {
    var m' := Apply(m, Take(u));
    if u == t { TakeFates(m, m', t, f); } else { OtherFates(m, m', t, f); }
  }

  lemma NotHeldFates(m: State, m': State, t: TaskId, f: seq<Fate>, to: Fate)
    requires t in m.tasks && FatesTell(m, t, f) && !Held(m, t) && t in m'.tasks && m'.tasks[t] == m.tasks[t]
    requires m'.held == None && m'.timeouts == m.timeouts
    ensures FatesTell(m', t, Turned(f, Underway, to))
  {
    assert forall k :: 0 <= k < |f| ==> f[k] != Underway;
    NoneUnderway(f, to);
    OtherFates(m, m', t, f);
  }

  /** What a worker's step does to the map. */
  lemma WorkerEffect(m: State, step: Step, t: TaskId)
    requires Inv(m) && Enabled(m, step) && !IsPulse(step) && t in m.tasks
    ensures
      var m', on := Apply(m, step), !step.Poll? && !step.PollNothing? && m.workers[step.w].task == t;
      && m'.held == m.held
      && (if on && step.Beat? then t in m'.timeouts && m'.timeouts[t] == Timeout(step.value, |m.tasks[t].puts|)
          else if on && IsFinally(step) then t !in m'.timeouts
          else (t in m.timeouts <==> t in m'.timeouts) && (t in m.timeouts ==> m'.timeouts[t] == m.timeouts[t]))
  {
  }

  lemma WorkerFates(m: State, before: seq<Step>, step: Step, t: TaskId)
    requires IsNext(m, before, step) && !IsPulse(step) && t in m.tasks && InPlace(m, t, Fates(before, t))
    ensures t in Apply(m, step).tasks && FatesTell(Apply(m, step), t, Fates(before + [step], t))
  {
    var steps, m', f := before + [step], Apply(m, step), Fates(before, t);
    assert steps[..|steps| - 1] == before;
    OnIsWorker(m, before, step, t);
    WorkerRecord(m, step, t);
    WorkerEffect(m, step, t);
    WorkerTurns(m, m', step, t, On(before, step, t), f);
  }

  lemma WorkerTurns(m: State, m': State, step: Step, t: TaskId, on: bool, f: seq<Fate>)
    requires t in m.tasks && InPlace(m, t, f) && t in m'.tasks && m'.held == m.held
    requires m'.tasks[t].sent == m.tasks[t].sent
    requires
      if on && step.Beat? then
        && m'.tasks[t] == m.tasks[t].(puts := m.tasks[t].puts + [step.value])
        && t in m'.timeouts && m'.timeouts[t] == Timeout(step.value, |m.tasks[t].puts|)
      else if on && IsFinally(step) then t !in m'.timeouts && m'.tasks[t].puts == m.tasks[t].puts
      else
        && (t in m.timeouts <==> t in m'.timeouts) && (t in m.timeouts ==> m'.timeouts[t] == m.timeouts[t])
        && m'.tasks[t].puts == m.tasks[t].puts
    ensures
      FatesTell(m', t,
                if on && step.Beat? then Turned(f, Waiting, Replaced) + [Waiting]
                else if on && IsFinally(step) then Turned(f, Waiting, Withdrawn)
                else f)
  {
    if on && step.Beat? {
      BeatFates(m, m', t, step.value, f);
    } else if on && IsFinally(step) {
      FinallyFates(m, m', t, f);
    } else {
      OtherFates(m, m', t, f);
    }
  }

  lemma StepFates(m: State, before: seq<Step>, step: Step, t: TaskId)
    requires IsNext(m, before, step) && TaskTells(m, before, t) && t in m.tasks
    ensures t in Apply(m, step).tasks && FatesTell(Apply(m, step), t, Fates(before + [step], t))
  {
    assert TaskInv(m, t);
    if IsPulse(step) { PulseFates(m, before, step, t); } else { WorkerFates(m, before, step, t); }
  }

  lemma NewTaskTells(m: State, before: seq<Step>, step: Step, t: TaskId)
    requires IsNext(m, before, step) && TaskTells(m, before, t) && t !in m.tasks
    ensures TaskTells(Apply(m, step), before + [step], t)
  {
    NotPolled(before, t);
    KeysRecorded(m);
    NothingYet(before, step, t);
    if t in Apply(m, step).tasks { PolledNow(m, step, t); } else { NotPolledNow(m, step, t); }
  }

  lemma NotPolledNow(m: State, step: Step, t: TaskId)
    requires Inv(m) && Enabled(m, step) && t !in m.tasks && t !in Apply(m, step).tasks
    ensures !(step.Poll? && step.task == t)
  {
  }

  /** Up to its poll, and with it, nothing is said of a task. */
  lemma NothingYet(before: seq<Step>, step: Step, t: TaskId)
    requires !Polled(before, t)
    ensures
      var steps := before + [step];
      && (Polled(steps, t) <==> step.Poll? && step.task == t)
      && Fates(steps, t) == [] && Puts(steps, t) == [] && !Over(steps, t) && !Caught(steps, t)
      && Accepted(steps, t) == DeliveredLate(steps, t) == DeliveredAfterRelease(steps, t) == 0
  {
    var steps := before + [step];
    assert steps[..|steps| - 1] == before;
    NotPolled(before, t);
  }

  /** A task that was not there is there only once it is polled, and then nothing is known of it. */
  lemma PolledNow(m: State, step: Step, t: TaskId)
    requires Inv(m) && Enabled(m, step) && t !in m.tasks && t in Apply(m, step).tasks
    ensures step.Poll? && step.task == t && Apply(m, step).tasks[t] == NEW_RECORD
    ensures Apply(m, step).timeouts == m.timeouts && Apply(m, step).held == m.held && !Held(m, t)
  {
  }

  lemma StepTells(m: State, before: seq<Step>, step: Step, t: TaskId)
    requires IsNext(m, before, step) && TaskTells(m, before, t)
    ensures TaskTells(Apply(m, step), before + [step], t)
  {
    var steps := before + [step];
    assert steps[..|steps| - 1] == before;
    if t in m.tasks {
      StepFates(m, before, step, t);
      StepRecord(m, before, step, t);
    } else {
      NewTaskTells(m, before, step, t);
    }
  }

  /** Main result: after every run the values put for a task each have one fate; those delivered, in the order in which
      they were put, are what was sent; the one waiting is in the map and the one underway is held; and what is recorded
      of the task is what the steps say. */
  lemma {:induction false} RunTells(s: State, steps: seq<Step>, t: TaskId)
    requires Initial(s) && Run(s, steps).Some?
    ensures WorkersTell(Run(s, steps).value, steps) && TaskTells(Run(s, steps).value, steps, t)
  {
    if steps == [] {
      NothingTold(s, t);
    } else {
      var init, step := steps[..|steps| - 1], steps[|steps| - 1];
      RunUnfolds(s, init, step, steps);
      RunTells(s, init, t);
      RunInv(s, init);
      OneTells(Run(s, init).value, init, step, t);
    }
  }

  lemma NothingTold(s: State, t: TaskId)
    requires Initial(s)
    ensures WorkersTell(s, []) && TaskTells(s, [], t)
  {
  }

  lemma RunUnfolds(s: State, init: seq<Step>, step: Step, steps: seq<Step>)
    requires steps != [] && init == steps[..|steps| - 1] && step == steps[|steps| - 1] && Run(s, steps).Some?
    ensures init + [step] == steps && Run(s, init).Some?
    ensures
      var m := Run(s, init).value;
      Recorded(m) && Enabled(m, step) && Run(s, steps) == Some(Apply(m, step))
  {
  }

  lemma OneTells(m: State, before: seq<Step>, step: Step, t: TaskId)
    requires IsNext(m, before, step) && TaskTells(m, before, t)
    ensures WorkersTell(Apply(m, step), before + [step]) && TaskTells(Apply(m, step), before + [step], t)
  {
    StepWorkersTell(m, before, step);
    StepTells(m, before, step, t);
  }

  /** So of what was put for a task at most one value is delivered after its `finally`, at most one release is accepted,
      and after it at most one value is delivered, two if the task's serialization failed. */
  lemma TraceSafety(s: State, steps: seq<Step>, t: TaskId)
    requires Initial(s) && Run(s, steps).Some?
    ensures DeliveredLate(steps, t) <= 1 && Accepted(steps, t) <= 1
    ensures DeliveredAfterRelease(steps, t) <= (if Caught(steps, t) then 2 else 1)
  {
    RunTells(s, steps, t);
    if Polled(steps, t) { HeartbeatSafety(s, steps, t); } else { NotPolled(steps, t); }
  }

  // ---- the order of a worker's steps ----

  /** A worker's step before. */
  function LastOf(steps: seq<Step>, w: nat): Option<Step> {
    if steps == [] then None
    else
      var n := |steps| - 1;
      if !IsPulse(steps[n]) && steps[n].w == w then Some(steps[n]) else LastOf(steps[..n], w)
  }

  /** A worker is not, or no longer, on a task: it has done nothing yet, polled nothing, or the last one threw, had its
      error settled, or had its decision released. */
  predicate IsFree(last: Option<Step>) {
    last == None || last.value.PollNothing? || last.value.Throw? || last.value.Settle? || last.value.Release?
  }

  /** A free worker polls. A task beats until it returns, throws or fails to serialize. Its decision is released after
      it returned and only then; an error decision before the `finally`. */
  predicate MayFollow(last: Option<Step>, step: Step) {
    match step
    case Poll(_, _) => IsFree(last)
    case PollNothing(_) => IsFree(last)
    case Beat(_, _) => last.Some? && (last.value.Poll? || last.value.Beat?)
    case Return(_) => last.Some? && (last.value.Poll? || last.value.Beat?)
    case Throw(_) => last.Some? && (last.value.Poll? || last.value.Beat?)
    case CatchSerialization(_) => last.Some? && (last.value.Poll? || last.value.Beat?)
    case ReleaseError(_, _) => last.Some? && last.value.CatchSerialization?
    case Settle(_) => last.Some? && last.value.ReleaseError?
    case Release(_, _) => last.Some? && last.value.Return?
    case _ => true
  }

  /** Where a worker stands after its last step. */
  predicate StandsAfter(p: Phase, last: Option<Step>) {
    match p
    case Idle => IsFree(last)
    case Executing(_) => last.Some? && (last.value.Poll? || last.value.Beat?)
    case Failed(_) => last.Some? && last.value.CatchSerialization?
    case Settling(_) => last.Some? && last.value.ReleaseError?
    case Done(_) => last.Some? && last.value.Return?
  }

  lemma StepStands(m: State, step: Step, w: nat, last: Option<Step>)
    requires Recorded(m) && Enabled(m, step) && (w in m.workers ==> StandsAfter(m.workers[w], last))
    ensures w in Apply(m, step).workers <==> w in m.workers
    ensures w in m.workers ==>
      StandsAfter(Apply(m, step).workers[w], if !IsPulse(step) && step.w == w then Some(step) else last)
  {
  }

  lemma {:induction false} StandsWhere(s: State, steps: seq<Step>, w: nat)
    requires Initial(s) && Run(s, steps).Some?
    ensures w in Run(s, steps).value.workers <==> w in s.workers
    ensures w in s.workers ==> StandsAfter(Run(s, steps).value.workers[w], LastOf(steps, w))
  {
    if steps != [] {
      var init, step := steps[..|steps| - 1], steps[|steps| - 1];
      StandsWhere(s, init, w);
      StepStands(Run(s, init).value, step, w, LastOf(init, w));
    }
  }

  /** A worker's next step is possible exactly if it may follow the one before; only new tasks are polled. */
  lemma WorkersOrder(s: State, steps: seq<Step>, step: Step)
    requires Initial(s) && Run(s, steps).Some? && !IsPulse(step)
    ensures Enabled(Run(s, steps).value, step) <==>
      step.w in s.workers && MayFollow(LastOf(steps, step.w), step) && (step.Poll? ==> !Polled(steps, step.task))
  {
    StandsWhere(s, steps, step.w);
    if step.Poll? { RunTells(s, steps, step.task); }
  }

  /** The pulse thread takes when it holds nothing, and sends or fails when it holds something. */
  lemma PulseOrder(s: State, steps: seq<Step>, step: Step)
    requires Initial(s) && Run(s, steps).Some? && IsPulse(step)
    ensures Enabled(Run(s, steps).value, step) <==> (step.Take? <==> forall t :: Underway !in Fates(steps, t))
  {
    AllUnderwayHeld(s, steps);
    SomeHeld(Run(s, steps).value, steps);
  }

  lemma AllUnderwayHeld(s: State, steps: seq<Step>)
    requires Initial(s) && Run(s, steps).Some?
    ensures forall t :: Underway in Fates(steps, t) <==> Held(Run(s, steps).value, t)
  {
    RunInv(s, steps);
    forall t ensures Underway in Fates(steps, t) <==> Held(Run(s, steps).value, t) {
      RunTells(s, steps, t);
      UnderwayIsHeld(Run(s, steps).value, steps, t);
    }
  }

  lemma UnderwayIsHeld(m: State, steps: seq<Step>, t: TaskId)
    requires Recorded(m) && TaskTells(m, steps, t)
    ensures Underway in Fates(steps, t) <==> Held(m, t)
  {
    if t in m.tasks { DeliversIsSend(m, steps, Send, t); } else { NotPolled(steps, t); }
  }

  lemma SomeHeld(m: State, steps: seq<Step>)
    requires forall t :: Underway in Fates(steps, t) <==> Held(m, t)
    ensures m.held == None <==> forall t :: Underway !in Fates(steps, t)
  {
    if m.held.Some? {
      assert Held(m, m.held.value.0);
      assert Underway in Fates(steps, m.held.value.0);
    }
  }
}
