/** The loop both plug-ins run around a round of the merge. */
module MergeLoop {
  import opened Polyline
  import opened Merge
  import opened FlatMerge
  import opened LineSteps

  datatype Plugin = Stacking | Filling

  /** The row a plug-in writes for an emission. */
  function Written(plugin: Plugin, e: Emission, withBottom: bool): Row
    requires |e.base| >= 2 && (withBottom ==> |e.base| > 2)
  {
    match plugin
    case Stacking => Lift(e, withBottom)
    case Filling => Fill(e, withBottom)
  }

  function WrittenAll(plugin: Plugin, es: seq<Emission>, withBottom: bool, ps: nat): (r: seq<Row>)
    requires ps >= 2 && (withBottom ==> ps > 2) && EmissionsShaped(es, ps)
    ensures Shaped(r, ps) && |r| == |es|
  {
    match plugin
    case Stacking => LiftAll(es, withBottom, ps)
    case Filling => FillAll(es, withBottom, ps)
  }

  /** What one round writes. */
  ghost predicate Wrote(plugin: Plugin, t: Turn, soFar: seq<Cell>, newpoints: seq<Cell>, withbottom: bool, ps: nat) {
    if t.out == [] then newpoints == soFar
    else
      && ps >= 2 && (withbottom ==> ps > 2) && |t.out[0].base| == ps
      && newpoints == soFar + Written(plugin, t.out[0], withbottom)
  }

  /** Where a round leaves the cursors. */
  predicate Moved(t: Turn, ps: nat, otherps: nat, i0: nat, j0: nat, i: nat, j: nat, fromgap: bool) {
    && i == (if t.up then i0 + ps else i0)
    && j == (if t.low then j0 + otherps else j0)
    && fromgap == t.fromGap
  }

  lemma WrittenConcat(plugin: Plugin, done: seq<Emission>, out: seq<Emission>, withBottom: bool, withSteps: bool,
                      ps: nat)
    requires ps >= 2 && (withBottom ==> ps > 2) && EmissionsShaped(done, ps) && EmissionsShaped(out, ps) && |out| <= 1
    ensures EmissionsShaped(done + out, ps)
    ensures
      var rows, more := WrittenAll(plugin, done, withBottom, ps), WrittenAll(plugin, out, withBottom, ps);
      var all := WrittenAll(plugin, done + out, withBottom, ps);
      Stepped(all, withSteps) == Put(Stepped(rows, withSteps), more, withSteps)
  {
    match plugin {
      case Stacking => LiftAllConcat(done, out, withBottom, ps);
      case Filling => FillAllConcat(done, out, withBottom, ps);
    }
    SteppedPut(WrittenAll(plugin, done, withBottom, ps), WrittenAll(plugin, out, withBottom, ps), withSteps);
  }

  lemma WrittenRow(plugin: Plugin, out: seq<Emission>, withBottom: bool, ps: nat)
    requires ps >= 2 && (withBottom ==> ps > 2) && EmissionsShaped(out, ps) && |out| <= 1
    ensures
      Flatten(WrittenAll(plugin, out, withBottom, ps)) ==
        if out == [] then [] else Written(plugin, out[0], withBottom)
  {
    if out != [] {
      assert WrittenAll(plugin, out, withBottom, ps) == [Written(plugin, out[0], withBottom)];
      FlattenOne(Written(plugin, out[0], withBottom));
    }
  }

  /** Where the loop stands: on rows pi and qj, at offsets i and j, with `done` put out. */
  datatype Place = Place(pi: nat, qj: nat, i: nat, j: nat, fromgap: bool, done: seq<Emission>)

  /** The arrays the loop runs on, with their rows, and its settings. */
  datatype Input = Input(points: seq<Cell>, ps: nat, P: seq<Row>, otherpoints: seq<Cell>, otherps: nat, Q: seq<Row>,
                         lines: bool, withBottom: bool, withSteps: bool)
  {
    ghost predicate Valid() {
      && ps >= 2 && (withBottom ==> ps > 2) && Shaped(P, ps) && Wide(Q) && Sorted(P) && Sorted(Q)
      && Laid(points, ps, P) && Laid(otherpoints, otherps, Q)
    }

    ghost predicate At(at: Place)
      requires Valid()
    {
      AtRound(points, ps, P, otherpoints, otherps, Q, lines, at.pi, at.qj, at.i, at.j, at.fromgap, at.done)
    }

    /** There is a round to run. */
    ghost predicate Goes(at: Place) {
      && OnRow(points, ps, at.i) && at.i < |points| && OnRow(otherpoints, otherps, at.j)
      && Wide(P) && Wide(Q) && at.pi < |P| && at.qj <= |Q|
    }

    ghost function Turn(at: Place): Turn
      requires Goes(at)
    {
      TurnAt(points, ps, at.i, otherpoints, otherps, at.j, at.fromgap, lines)
    }

    /** `to` is where a round that starts at `at` leaves the loop. */
    ghost predicate Leads(at: Place, to: Place)
      requires Goes(at)
    {
      && Moved(Turn(at), ps, otherps, at.i, at.j, to.i, to.j, to.fromgap)
      && to.done == at.done + Turn(at).out
    }
  }

  const START := Place(0, 0, 0, 0, true, [])

  /** The loop between two rounds: the merge is midway, and what it has put out so far is written. */
  ghost predicate Looping(plugin: Plugin, input: Input, at: Place, newpoints: seq<Cell>)
    requires input.Valid()
  {
    && input.At(at)
    && newpoints == Flatten(Stepped(WrittenAll(plugin, at.done, input.withBottom, input.ps), input.withSteps))
  }

  lemma LoopStarts(plugin: Plugin, input: Input)
    requires input.Valid()
    ensures Looping(plugin, input, START, [])
  {
    FirstRound(input.points, input.ps, input.P, input.otherpoints, input.otherps, input.Q, input.lines);
  }

  /** The next round is safe, and it gets the loop further. */
  lemma LoopGoes(input: Input, at: Place) returns (to: Place)
    requires input.Valid() && input.At(at) && at.i < |input.points|
    ensures input.Goes(at) && Interpolable(input.points, input.ps, at.i, input.otherpoints, input.otherps, at.j)
    ensures input.At(to) && input.Leads(at, to) && EmissionsShaped(input.Turn(at).out, input.ps)
    ensures at.pi + at.qj < to.pi + to.qj && to.pi <= |input.P| && to.qj <= |input.Q|
  {
    to := PlaceAfter(input.points, input.ps, input.P, input.otherpoints, input.otherps, input.Q, input.lines, at);
  }

  lemma PlaceAfter(points: seq<Cell>, ps: nat, P: seq<Row>, otherpoints: seq<Cell>, otherps: nat, Q: seq<Row>,
                   lines: bool, at: Place)
    returns (to: Place)
    requires ps >= 2 && Shaped(P, ps) && Wide(Q) && Sorted(P) && Sorted(Q)
    requires Laid(points, ps, P) && Laid(otherpoints, otherps, Q) && at.i < |points|
    requires AtRound(points, ps, P, otherpoints, otherps, Q, lines, at.pi, at.qj, at.i, at.j, at.fromgap, at.done)
    ensures OnRow(points, ps, at.i) && OnRow(otherpoints, otherps, at.j) && at.pi < |P| && at.qj <= |Q|
    ensures Interpolable(points, ps, at.i, otherpoints, otherps, at.j)
    ensures AtRound(points, ps, P, otherpoints, otherps, Q, lines, to.pi, to.qj, to.i, to.j, to.fromgap, to.done)
    ensures
      var t := TurnAt(points, ps, at.i, otherpoints, otherps, at.j, at.fromgap, lines);
      && Moved(t, ps, otherps, at.i, at.j, to.i, to.j, to.fromgap) && to.done == at.done + t.out
      && EmissionsShaped(t.out, ps)
    ensures at.pi + at.qj < to.pi + to.qj && to.pi <= |P| && to.qj <= |Q|
  {
    NextRound(points, ps, P, otherpoints, otherps, Q, lines, at.pi, at.qj, at.i, at.j, at.fromgap, at.done);
    var t := TurnAt(points, ps, at.i, otherpoints, otherps, at.j, at.fromgap, lines);
    var m := Step(P, Q, at.pi, at.qj, at.fromgap, lines);
    to := Place(m.i, m.j, if t.up then at.i + ps else at.i, if t.low then at.j + otherps else at.j, m.fromGap,
                at.done + m.out);
  }

  /** At the end the whole merge is written. */
  lemma LoopEnds(plugin: Plugin, input: Input, at: Place, newpoints: seq<Cell>)
    requires input.Valid() && Looping(plugin, input, at, newpoints) && at.i == |input.points|
    ensures EmissionsShaped(Merged(input.P, input.Q, input.lines), input.ps)
    ensures
      var rows := WrittenAll(plugin, Merged(input.P, input.Q, input.lines), input.withBottom, input.ps);
      newpoints == Flatten(Stepped(rows, input.withSteps))
  {
    LastRound(input.points, input.ps, input.P, input.otherpoints, input.otherps, input.Q, input.lines, at.pi, at.qj,
              at.j, at.fromgap, at.done);
  }

  /** The end of a round, which is the line-steps rule, in either plug-in: `l` cells were written before the round, and
      what it has put out is behind them. */
  method EndRound(ghost plugin: Plugin, ghost input: Input, ghost at: Place, ghost to: Place, ghost soFar: seq<Cell>,
                  cells: seq<Cell>, l: nat, ps: nat, withsteps: bool)
    returns (newpoints: seq<Cell>)
    requires input.Valid() && Looping(plugin, input, at, soFar) && input.Goes(at)
    requires input.At(to) && input.Leads(at, to) && EmissionsShaped(input.Turn(at).out, ps)
    requires Wrote(plugin, input.Turn(at), soFar, cells, input.withBottom, ps)
    requires l == |soFar| && ps == input.ps && withsteps == input.withSteps
    ensures Looping(plugin, input, to, newpoints)
  {
    ghost var out := input.Turn(at).out;
    ghost var before := Stepped(WrittenAll(plugin, at.done, input.withBottom, ps), withsteps);
    ghost var more := WrittenAll(plugin, out, input.withBottom, ps);
    SteppedShaped(WrittenAll(plugin, at.done, input.withBottom, ps), withsteps, ps);
    WrittenRow(plugin, out, input.withBottom, ps);
    WrittenConcat(plugin, at.done, out, input.withBottom, withsteps, ps);
    newpoints := MaintainSteps(cells, l, ps, withsteps, before, more);
  }
}
