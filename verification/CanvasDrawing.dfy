/** The drawing state of a context after a run. */
module CanvasDrawing {
  import opened Matrix
  import opened CanvasContext

  /** The operations in force after a run, oldest first, and those that each open `Save` will bring back. */
  datatype Lasting = Lasting(current: seq<Op>, saved: seq<seq<Op>>)

  function InForce(ops: seq<Op>): Lasting {
    if ops == [] then Lasting([], [])
    else
      var before, op := InForce(ops[..|ops| - 1]), ops[|ops| - 1];
      if op.Save? then Lasting(before.current, before.saved + [before.current])
      else if !op.Restore? then Lasting(before.current + [op], before.saved)
      else if before.saved == [] then before
      else Lasting(before.saved[|before.saved| - 1], before.saved[..|before.saved| - 1])
  }

  /** The product of all scalings in one direction. */
  function ScalesX(ops: seq<Op>): real {
    if ops == [] then 1.0
    else ScalesX(ops[..|ops| - 1]) * (if ops[|ops| - 1].Scale? then ops[|ops| - 1].sx else 1.0)
  }

  function ScalesY(ops: seq<Op>): real {
    if ops == [] then 1.0
    else ScalesY(ops[..|ops| - 1]) * (if ops[|ops| - 1].Scale? then ops[|ops| - 1].sy else 1.0)
  }

  /** The style set last. */
  function LastStyle(ops: seq<Op>): int {
    if ops == [] then 0
    else if ops[|ops| - 1].SetStyle? then ops[|ops| - 1].style
    else LastStyle(ops[..|ops| - 1])
  }

  predicate Describes(ops: seq<Op>, d: Drawing) {
    d.style == LastStyle(ops) && d.arcScaleX == ScalesX(ops) && d.arcScaleY == ScalesY(ops)
  }

  ghost predicate AllDescribe(l: Lasting, st: State) {
    && Describes(l.current, st.drawing) && |l.saved| == |st.aStack|
    && forall i :: 0 <= i < |l.saved| ==> Describes(l.saved[i], st.aStack[i])
  }

  lemma OneMore(ops: seq<Op>, op: Op, d: Drawing, next: Drawing)
    requires Describes(ops, d) && next.style == (if op.SetStyle? then op.style else d.style)
    requires next.arcScaleX == (if op.Scale? then d.arcScaleX * op.sx else d.arcScaleX)
    requires next.arcScaleY == (if op.Scale? then d.arcScaleY * op.sy else d.arcScaleY)
    ensures Describes(ops + [op], next)
  {
    assert (ops + [op])[..|ops|] == ops;
  }

  /** An operation that is neither a save nor a restore leaves what is saved, and of the drawing state it changes the
      arc scales if it scales and the style if it sets it. */
  lemma DrawingAfter(st: State, op: Op)
    requires StateOk(st) && !op.Save? && !op.Restore?
    ensures
      var d, next := st.drawing, Exec(st, op).drawing;
      && Exec(st, op).aStack == st.aStack
      && next.style == (if op.SetStyle? then op.style else d.style)
      && next.arcScaleX == (if op.Scale? then d.arcScaleX * op.sx else d.arcScaleX)
      && next.arcScaleY == (if op.Scale? then d.arcScaleY * op.sy else d.arcScaleY)
  {
  }

  lemma SaveDescribed(l: Lasting, st: State)
    requires StateOk(st) && AllDescribe(l, st)
    ensures AllDescribe(Lasting(l.current, l.saved + [l.current]), Exec(st, Save))
  {
  }

  lemma RestoreDescribed(l: Lasting, st: State)
    requires StateOk(st) && AllDescribe(l, st)
    ensures
      var n := |l.saved|;
      AllDescribe(if n == 0 then l else Lasting(l.saved[n - 1], l.saved[..n - 1]), Exec(st, Restore))
  {
  }

  /** Main result: after every run the arc scales are the products of the scalings in force, whatever `setTransform` has
      done since, and the style is the last one in force; and the same is saved for every open `Save`. */
  lemma {:induction false} DrawingFollows(ops: seq<Op>)
    ensures AllDescribe(InForce(ops), Run(Initial(), ops))
  {
    if ops != [] {
      var before, op := ops[..|ops| - 1], ops[|ops| - 1];
      DrawingFollows(before);
      OneFollows(InForce(before), Run(Initial(), before), op);
    }
  }

  lemma OneFollows(l: Lasting, st: State, op: Op)
    requires StateOk(st) && AllDescribe(l, st)
    ensures
      var n := |l.saved|;
      AllDescribe(if op.Save? then Lasting(l.current, l.saved + [l.current])
                  else if !op.Restore? then Lasting(l.current + [op], l.saved)
                  else if n == 0 then l
                  else Lasting(l.saved[n - 1], l.saved[..n - 1]),
                  Exec(st, op))
  {
    if op.Save? {
      SaveDescribed(l, st);
    } else if op.Restore? {
      RestoreDescribed(l, st);
    } else {
      DrawingAfter(st, op);
      OneMore(l.current, op, st.drawing, Exec(st, op).drawing);
    }
  }
}
