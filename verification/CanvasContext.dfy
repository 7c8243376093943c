/** The drawing context of excanvas.js: the current matrix, the saved ones and the saved drawing states. */
module CanvasContext {
  import opened Geometry
  import opened Matrix

  /** The part of the state that `copyState` copies; colours, caps, fonts and the like are one opaque `style`.
      `areaScale` is the square of the line scale, so that no square root is needed. */
  datatype Drawing = Drawing(style: int, arcScaleX: real, arcScaleY: real, areaScale: real)

  datatype Op =
    | Translate(dx: real, dy: real)
    | Rotate(cos: real, sin: real)
    | Scale(sx: real, sy: real)
    | Transform(m11: real, m12: real, m21: real, m22: real, mx: real, my: real)
    | SetTransform(m11: real, m12: real, m21: real, m22: real, mx: real, my: real)
    | SetStyle(style: int)
    | Save
    | Restore

  /** A rotation is given by the cosine and the sine of its angle. */
  predicate IsOp(op: Op) {
    op.Rotate? ==> op.cos * op.cos + op.sin * op.sin == 1.0
  }

  predicate AreOps(ops: seq<Op>) {
    forall i :: 0 <= i < |ops| ==> IsOp(ops[i])
  }

  // ---- what the operations mean ----

  function Translated(dx: real, dy: real, p: Point): Point {
    Point(p.x + dx, p.y + dy)
  }

  function Rotated(c: real, s: real, p: Point): Point {
    Point(c * p.x - s * p.y, s * p.x + c * p.y)
  }

  function Scaled(sx: real, sy: real, p: Point): Point {
    Point(sx * p.x, sy * p.y)
  }

  function Transformed(a: real, b: real, c: real, d: real, mx: real, my: real, p: Point): Point {
    Point(a * p.x + c * p.y + mx, b * p.x + d * p.y + my)
  }

  /** Where one transform moves a point. */
  function Move(op: Op, p: Point): Point {
    match op
    case Translate(dx, dy) => Translated(dx, dy, p)
    case Rotate(c, s) => Rotated(c, s, p)
    case Scale(sx, sy) => Scaled(sx, sy, p)
    case Transform(a, b, c, d, mx, my) => Transformed(a, b, c, d, mx, my, p)
    case SetTransform(a, b, c, d, mx, my) => Transformed(a, b, c, d, mx, my, p)
    case SetStyle(_) => p
    case Save => p
    case Restore => p
  }

  /** The newest transform moves the point first. */
  function MoveNewestFirst(ts: seq<Op>, p: Point): Point {
    if ts == [] then p else MoveNewestFirst(ts[..|ts| - 1], Move(ts[|ts| - 1], p))
  }

  /** The transforms that survive a run, oldest first, and those that each open `Save` will bring back. */
  datatype Survivors = Survivors(current: seq<Op>, saved: seq<seq<Op>>)

  function Surviving(ops: seq<Op>): Survivors {
    if ops == [] then Survivors([], [])
    else
      var before, op := Surviving(ops[..|ops| - 1]), ops[|ops| - 1];
      match op
      case Save => Survivors(before.current, before.saved + [before.current])
      case Restore =>
        if before.saved == [] then before
        else Survivors(before.saved[|before.saved| - 1], before.saved[..|before.saved| - 1])
      case SetTransform(_, _, _, _, _, _) => Survivors([op], before.saved)
      case SetStyle(_) => before
      case _ => Survivors(before.current + [op], before.saved)
  }

  /** Ten units to the pixel, moved by half a pixel. */
  function OnGrid(p: Point): Point {
    Point(10.0 * p.x - 5.0, 10.0 * p.y - 5.0)
  }

  // ---- what the context does ----

  datatype State = State(m: Rows, drawing: Drawing, mStack: seq<Rows>, aStack: seq<Drawing>)

  predicate StateOk(st: State) {
    && Affine(st.m) && |st.mStack| == |st.aStack|
    && forall i :: 0 <= i < |st.mStack| ==> Affine(st.mStack[i])
  }

  function Initial(): State {
    State(Identity(), Drawing(0, 1.0, 1.0, 1.0), [], [])
  }

  /** The matrix a transform multiplies with. */
  function MatrixOf(op: Op): (m: Rows)
    ensures Affine(m)
  {
    match op
    case Translate(dx, dy) => Build(1.0, 0.0, 0.0, 1.0, dx, dy)
    case Rotate(c, s) => Build(c, s, -s, c, 0.0, 0.0)
    case Scale(sx, sy) => Build(sx, 0.0, 0.0, sy, 0.0, 0.0)
    case Transform(a, b, c, d, mx, my) => Build(a, b, c, d, mx, my)
    case SetTransform(a, b, c, d, mx, my) => Build(a, b, c, d, mx, my)
    case _ => Identity()
  }

  /** The state after a scaling of the axes. */
  function Stretched(d: Drawing, sx: real, sy: real): Drawing {
    d.(arcScaleX := d.arcScaleX * sx, arcScaleY := d.arcScaleY * sy)
  }

  /** The state with the line scale of a matrix. */
  function Rescaled(d: Drawing, m: Rows): Drawing
    requires Square(m)
  {
    d.(areaScale := Abs(Det(m)))
  }

  /** What one operation does to the state. */
  function Exec(st: State, op: Op): (r: State)
    requires StateOk(st)
    ensures StateOk(r)
  {
    AffineProduct(MatrixOf(op), st.m);
    var m := Product(MatrixOf(op), st.m);
    var d := st.drawing;
    match op
    case Translate(_, _) => st.(m := m)
    case Rotate(_, _) => st.(m := m)
    case Scale(sx, sy) => st.(m := m, drawing := Rescaled(Stretched(d, sx, sy), m))
    case Transform(_, _, _, _, _, _) => st.(m := m, drawing := Rescaled(d, m))
    case SetTransform(_, _, _, _, _, _) => st.(m := MatrixOf(op), drawing := Rescaled(d, MatrixOf(op)))
    case SetStyle(style) => st.(drawing := d.(style := style))
    case Save => st.(mStack := st.mStack + [st.m], aStack := st.aStack + [d])
    case Restore =>
      var n := |st.aStack|;
      if n == 0 then st else State(st.mStack[n - 1], st.aStack[n - 1], st.mStack[..n - 1], st.aStack[..n - 1])
  }

  function Run(st: State, ops: seq<Op>): (r: State)
    requires StateOk(st)
    ensures StateOk(r)
  {
    if ops == [] then st else Exec(Run(st, ops[..|ops| - 1]), ops[|ops| - 1])
  }

  lemma Logged(log: seq<Op>, op: Op, st: State)
    requires AreOps(log) && IsOp(op) && st == Run(Initial(), log)
    ensures AreOps(log + [op]) && Run(Initial(), log + [op]) == Exec(st, op)
  {
    assert (log + [op])[..|log|] == log;
  }

  class Context {
    var m: Rows
    var drawing: Drawing
    var mStack: seq<Rows>
    var aStack: seq<Drawing>
    /** The operations so far. */
    ghost var log: seq<Op>

    ghost function Contents(): State reads this {
      State(m, drawing, mStack, aStack)
    }

    ghost predicate Valid() reads this {
      AreOps(log) && StateOk(Contents()) && Contents() == Run(Initial(), log)
    }

    constructor ()
      ensures Valid() && log == []
    {
      m, drawing, mStack, aStack, log := Identity(), Drawing(0, 1.0, 1.0, 1.0), [], [], [];
    }

    /** `setM`; the caller logs the operation. */
    method SetM(m1: Rows, updateLineScale: bool)
      modifies this`m, this`drawing
      requires Affine(m1)
      ensures m == m1
      ensures drawing == if updateLineScale then Rescaled(old(drawing), m1) else old(drawing)
    {
      m := m1;
      if updateLineScale {
        drawing := Rescaled(drawing, m1);
      }
    }

    /** `translate`. */
    method Shift(aX: real, aY: real)
      requires Valid()
      modifies this
      ensures Valid() && log == old(log) + [Translate(aX, aY)]
      ensures Contents() == Exec(old(Contents()), Translate(aX, aY))
    {
      Logged(log, Translate(aX, aY), Contents());
      var m1 := Build(1.0, 0.0, 0.0, 1.0, aX, aY);
      AffineProduct(m1, m);
      var product := MatrixMultiply(m1, m);
      SetM(product, false);
      log := log + [Translate(aX, aY)];
    }

    /** `rotate`, by the angle with this cosine and sine. */
    method Turn(c: real, s: real)
      requires Valid() && c * c + s * s == 1.0
      modifies this
      ensures Valid() && log == old(log) + [Rotate(c, s)]
      ensures Contents() == Exec(old(Contents()), Rotate(c, s))
    {
      Logged(log, Rotate(c, s), Contents());
      var m1 := Build(c, s, -s, c, 0.0, 0.0);
      AffineProduct(m1, m);
      var product := MatrixMultiply(m1, m);
      SetM(product, false);
      log := log + [Rotate(c, s)];
    }

    /** `scale`. */
    method Stretch(aX: real, aY: real)
      requires Valid()
      modifies this
      ensures Valid() && log == old(log) + [Scale(aX, aY)]
      ensures Contents() == Exec(old(Contents()), Scale(aX, aY))
    {
      Logged(log, Scale(aX, aY), Contents());
      drawing := Stretched(drawing, aX, aY);
      var m1 := Build(aX, 0.0, 0.0, aY, 0.0, 0.0);
      AffineProduct(m1, m);
      var product := MatrixMultiply(m1, m);
      SetM(product, true);
      log := log + [Scale(aX, aY)];
    }

    /** `transform`. */
    method Apply(m11: real, m12: real, m21: real, m22: real, dx: real, dy: real)
      requires Valid()
      modifies this
      ensures Valid() && log == old(log) + [Transform(m11, m12, m21, m22, dx, dy)]
      ensures Contents() == Exec(old(Contents()), Transform(m11, m12, m21, m22, dx, dy))
    {
      Logged(log, Transform(m11, m12, m21, m22, dx, dy), Contents());
      var m1 := Build(m11, m12, m21, m22, dx, dy);
      AffineProduct(m1, m);
      var product := MatrixMultiply(m1, m);
      SetM(product, true);
      log := log + [Transform(m11, m12, m21, m22, dx, dy)];
    }

    /** `setTransform`. */
    method Replace(m11: real, m12: real, m21: real, m22: real, dx: real, dy: real)
      requires Valid()
      modifies this
      ensures Valid() && log == old(log) + [SetTransform(m11, m12, m21, m22, dx, dy)]
      ensures Contents() == Exec(old(Contents()), SetTransform(m11, m12, m21, m22, dx, dy))
    {
      Logged(log, SetTransform(m11, m12, m21, m22, dx, dy), Contents());
      SetM(Build(m11, m12, m21, m22, dx, dy), true);
      log := log + [SetTransform(m11, m12, m21, m22, dx, dy)];
    }

    method Style(style: int)
      requires Valid()
      modifies this
      ensures Valid() && log == old(log) + [SetStyle(style)]
      ensures Contents() == Exec(old(Contents()), SetStyle(style))
    {
      Logged(log, SetStyle(style), Contents());
      drawing := drawing.(style := style);
      log := log + [SetStyle(style)];
    }

    method Push()
      requires Valid()
      modifies this
      ensures Valid() && log == old(log) + [Save]
      ensures Contents() == Exec(old(Contents()), Save)
    {
      Logged(log, Save, Contents());
      aStack := aStack + [drawing];
      mStack := mStack + [m];
      IdentityCopies(m);
      m := MatrixMultiply(Identity(), m);
      log := log + [Save];
    }

    method Pop()
      requires Valid()
      modifies this
      ensures Valid() && log == old(log) + [Restore]
      ensures Contents() == Exec(old(Contents()), Restore)
    {
      ghost var before := Contents();
      Logged(log, Restore, before);
      if |aStack| > 0 {
        PopOne();
      }
      assert Contents() == Exec(before, Restore);
      log := log + [Restore];
    }

    method PopOne()
      requires |aStack| > 0 && |mStack| == |aStack|
      modifies this`drawing, this`aStack, this`m, this`mStack
      ensures
        var n := old(|aStack|) - 1;
        Contents() == old(State(mStack[n], aStack[n], mStack[..n], aStack[..n]))
    {
      drawing, aStack := aStack[|aStack| - 1], aStack[..|aStack| - 1];
      m, mStack := mStack[|mStack| - 1], mStack[..|mStack| - 1];
    }

    /** The compiled matrix moves a point as the surviving transforms do one after another, newest first. */
    method GetCoords(x: real, y: real) returns (p: Point)
      requires Valid()
      ensures p == OnGrid(MoveNewestFirst(Surviving(log).current, Point(x, y)))
    {
      RunMeans(log);
      CoordsAreMoved(m, Surviving(log).current, Point(x, y));
      p := Point(10.0 * (x * m[0][0] + y * m[1][0] + m[2][0]) - 5.0,
                 10.0 * (x * m[0][1] + y * m[1][1] + m[2][1]) - 5.0);
    }
  }

  // ---- the matrix means the surviving transforms ----

  /** The matrix does to every point what the transforms do. */
  ghost predicate Means(m: Rows, ts: seq<Op>)
    requires Square(m)
  {
    forall p :: Act(m, p) == MoveNewestFirst(ts, p)
  }

  lemma CoordsAreMoved(m: Rows, ts: seq<Op>, p: Point)
    requires Affine(m) && Means(m, ts)
    ensures OnGrid(Act(m, p)) == OnGrid(MoveNewestFirst(ts, p))
  {
  }

  lemma MatrixMoves(op: Op, p: Point)
    requires !op.Save? && !op.Restore? && !op.SetStyle?
    ensures Act(MatrixOf(op), p) == Move(op, p)
  {
    match op
    case Translate(dx, dy) => TranslateActs(dx, dy, p);
    case Rotate(c, s) => RotateActs(c, s, p);
    case Scale(sx, sy) => ScaleActs(sx, sy, p);
    case Transform(a, b, c, d, mx, my) => TransformActs(a, b, c, d, mx, my, p);
    case SetTransform(a, b, c, d, mx, my) => TransformActs(a, b, c, d, mx, my, p);
  }

  lemma TranslateActs(dx: real, dy: real, p: Point)
    ensures Act(Build(1.0, 0.0, 0.0, 1.0, dx, dy), p) == Translated(dx, dy, p)
  {
    BuildActs(1.0, 0.0, 0.0, 1.0, dx, dy, p);
  }

  lemma RotateActs(c: real, s: real, p: Point)
    ensures Act(Build(c, s, -s, c, 0.0, 0.0), p) == Rotated(c, s, p)
  {
    BuildActs(c, s, -s, c, 0.0, 0.0, p);
  }

  lemma ScaleActs(sx: real, sy: real, p: Point)
    ensures Act(Build(sx, 0.0, 0.0, sy, 0.0, 0.0), p) == Scaled(sx, sy, p)
  {
    BuildActs(sx, 0.0, 0.0, sy, 0.0, 0.0, p);
  }

  lemma TransformActs(a: real, b: real, c: real, d: real, mx: real, my: real, p: Point)
    ensures Act(Build(a, b, c, d, mx, my), p) == Transformed(a, b, c, d, mx, my, p)
  {
    BuildActs(a, b, c, d, mx, my, p);
  }

  lemma MeansOneMore(m: Rows, ts: seq<Op>, op: Op)
    requires Affine(m) && Means(m, ts) && !op.Save? && !op.Restore? && !op.SetStyle?
    ensures Means(Product(MatrixOf(op), m), ts + [op])
  {
    assert (ts + [op])[..|ts|] == ts;
    AffineProduct(MatrixOf(op), m);
    forall p ensures Act(Product(MatrixOf(op), m), p) == MoveNewestFirst(ts + [op], p) {
      ProductActs(MatrixOf(op), m, p);
      MatrixMoves(op, p);
    }
  }

  lemma MeansAlone(op: Op)
    requires !op.Save? && !op.Restore? && !op.SetStyle?
    ensures Means(MatrixOf(op), [op])
  {
    forall p ensures Act(MatrixOf(op), p) == MoveNewestFirst([op], p) {
      MatrixMoves(op, p);
      assert MoveNewestFirst([op], p) == MoveNewestFirst([], Move(op, p));
    }
  }

  ghost predicate StateMeans(st: State, s: Survivors)
    requires StateOk(st)
  {
    && Means(st.m, s.current) && |st.mStack| == |s.saved|
    && forall i :: 0 <= i < |s.saved| ==> Means(st.mStack[i], s.saved[i])
  }

  /** After every run the current matrix, and each saved one, means the transforms that survive there. */
  lemma {:induction false} RunMeans(ops: seq<Op>)
    ensures StateMeans(Run(Initial(), ops), Surviving(ops))
  {
    if ops != [] {
      var before, op := ops[..|ops| - 1], ops[|ops| - 1];
      RunMeans(before);
      var st, s := Run(Initial(), before), Surviving(before);
      if !op.Save? && !op.Restore? && !op.SetStyle? {
        MeansOneMore(st.m, s.current, op);
        MeansAlone(op);
      }
    }
  }

  // ---- the line scale follows the matrix ----

  predicate ScaleOk(st: State)
    requires StateOk(st)
  {
    && st.drawing.areaScale == Abs(Det(st.m))
    && forall i :: 0 <= i < |st.mStack| ==> st.aStack[i].areaScale == Abs(Det(st.mStack[i]))
  }

  lemma DetKept(op: Op, m: Rows)
    requires Affine(m) && IsOp(op) && (op.Translate? || op.Rotate?)
    ensures Det(Product(MatrixOf(op), m)) == Det(m)
  {
    DetProduct(MatrixOf(op), m);
    assert Det(MatrixOf(op)) == 1.0;
  }

  /** Although `translate` and `rotate` do not recompute it, the line scale stays the square root of the factor
      by which the current matrix enlarges areas. */
  lemma {:induction false} LineScaleFollows(ops: seq<Op>)
    requires AreOps(ops)
    ensures ScaleOk(Run(Initial(), ops))
  {
    if ops != [] {
      var before, op := ops[..|ops| - 1], ops[|ops| - 1];
      LineScaleFollows(before);
      assert IsOp(op);
      if op.Translate? || op.Rotate? {
        DetKept(op, Run(Initial(), before).m);
      }
    }
  }

  // ---- balanced blocks ----

  datatype Depth = Below | At(depth: nat)

  /** How many saves of a run are still open; `Below` if a `Restore` reaches under its start. */
  function OpenSaves(ops: seq<Op>): Depth {
    if ops == [] then At(0)
    else
      match OpenSaves(ops[..|ops| - 1])
      case Below => Below
      case At(n) =>
        if ops[|ops| - 1].Save? then At(n + 1)
        else if ops[|ops| - 1].Restore? then (if n == 0 then Below else At(n - 1))
        else At(n)
  }

  /** What a block that stays above its start leaves alone. */
  lemma {:induction false} StacksKept(st: State, ops: seq<Op>)
    requires StateOk(st) && OpenSaves(ops).At?
    ensures
      var r, n := Run(st, ops), |st.mStack|;
      |r.mStack| == n + OpenSaves(ops).depth && r.mStack[..n] == st.mStack && r.aStack[..n] == st.aStack
  {
    if ops != [] {
      StacksKept(st, ops[..|ops| - 1]);
    }
  }

  lemma {:induction false} RunConcat(st: State, a: seq<Op>, b: seq<Op>)
    requires StateOk(st)
    ensures Run(st, a + b) == Run(Run(st, a), b)
  {
    if b == [] {
      assert a + b == a;
    } else {
      RunConcat(st, a, b[..|b| - 1]);
      assert (a + b)[..|a + b| - 1] == a + b[..|b| - 1];
    }
  }

  /** A balanced block between `Save` and `Restore` changes nothing at all. */
  lemma BalancedBlock(st: State, block: seq<Op>)
    requires StateOk(st) && OpenSaves(block) == At(0)
    ensures Run(st, [Save] + block + [Restore]) == st
  {
    assert Run(st, []) == st;
    assert [Save][..0] == [] && Run(st, [Save]) == Exec(st, Save);
    var saved := Exec(st, Save);
    RunConcat(st, [Save], block);
    StacksKept(saved, block);
    var r := Run(saved, block);
    assert ([Save] + block + [Restore])[..|block| + 1] == [Save] + block;
    assert r.mStack == saved.mStack && r.aStack == saved.aStack by {
      assert r.mStack[..|saved.mStack|] == r.mStack && r.aStack[..|saved.aStack|] == r.aStack;
    }
    assert saved.mStack[..|st.mStack|] == st.mStack && saved.aStack[..|st.aStack|] == st.aStack;
  }

  /** `Restore` with nothing saved changes nothing. */
  lemma RestoreAtBottom(ops: seq<Op>)
    requires Surviving(ops).saved == []
    ensures Run(Initial(), ops + [Restore]) == Run(Initial(), ops)
  {
    RunMeans(ops);
    assert (ops + [Restore])[..|ops|] == ops;
  }
}
