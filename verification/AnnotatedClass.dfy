/** The search for a class that carries an annotation. */
module AnnotatedClass {
  import opened Options

  /** A class as the search sees it. `rank` grows along inheritance, which has no cycles; annotations may refer to
      each other and to themselves. `isAnnotation` is assignability to Annotation; `annotationType` is set for
      declared annotation types and for Annotation itself. */
  datatype Class = Class(rank: nat, interfaces: seq<nat>, superClass: Option<nat>, annotations: seq<nat>,
                         isAnnotation: bool, annotationType: bool, carries: bool)

  /** Classes by number; `top` is the root of the class hierarchy. */
  datatype Graph = Graph(classes: seq<Class>, top: nat)

  /** What the language guarantees: interfaces and superclasses are of lower rank, an annotation refers to an
      annotation type, and an annotation type has no superclass and no interface but Annotation. */
  predicate GraphOk(g: Graph) {
    forall c :: 0 <= c < |g.classes| ==> ClassOk(g, g.classes[c])
  }

  predicate ClassOk(g: Graph, c: Class) {
    && (forall i :: 0 <= i < |c.interfaces| ==> Below(g, c.interfaces[i], c.rank))
    && (c.superClass.Some? ==> Below(g, c.superClass.value, c.rank))
    && (forall i :: 0 <= i < |c.annotations| ==>
          c.annotations[i] < |g.classes| && g.classes[c.annotations[i]].annotationType)
    && (c.annotationType ==>
          (c.isAnnotation && c.superClass.None?
           && forall i :: 0 <= i < |c.interfaces| ==> g.classes[c.interfaces[i]].annotationType))
  }

  predicate Below(g: Graph, c: nat, rank: nat) {
    c < |g.classes| && g.classes[c].rank < rank
  }

  predicate IsClass(g: Graph, c: nat) {
    c < |g.classes|
  }

  function Level(g: Graph, c: nat): nat
    requires IsClass(g, c)
  {
    if g.classes[c].annotationType then 0 else 1
  }

  /** From a class the search can go on to its interfaces, to the types of its annotations unless it is an annotation
      itself, and to its superclass unless that is the root. */
  predicate Edge(g: Graph, c: nat, d: nat)
    requires IsClass(g, c)
  {
    var k := g.classes[c];
    || (exists i :: 0 <= i < |k.interfaces| && k.interfaces[i] == d)
    || (!k.isAnnotation && exists i :: 0 <= i < |k.annotations| && k.annotations[i] == d)
    || (k.superClass == Some(d) && d != g.top)
  }

  /** The interfaces in their order, then the annotations in theirs, then the superclass. */
  predicate InTurn(g: Graph, c: nat, r: seq<nat>)
    requires IsClass(g, c)
  {
    var k := g.classes[c];
    var a := |k.interfaces|;
    var b := a + (if k.isAnnotation then 0 else |k.annotations|);
    && |r| == b + (if k.superClass.Some? && k.superClass.value != g.top then 1 else 0)
    && (forall i :: 0 <= i < a ==> r[i] == k.interfaces[i])
    && (forall i :: a <= i < b ==> r[i] == k.annotations[i - a])
    && (b < |r| ==> r[b] == k.superClass.value)
  }

  lemma SuccessorsAreEdges(g: Graph, c: nat, d: nat)
    requires GraphOk(g) && IsClass(g, c)
    ensures d in Successors(g, c) <==> Edge(g, c, d)
  {
    var k, r := g.classes[c], Successors(g, c);
    var a := |k.interfaces|;
    var b := a + (if k.isAnnotation then 0 else |k.annotations|);
    if Edge(g, c, d) {
      if i :| 0 <= i < |k.interfaces| && k.interfaces[i] == d {
        assert r[i] == d;
      } else if k.superClass == Some(d) && d != g.top {
        assert r[b] == d;
      } else {
        var i :| 0 <= i < |k.annotations| && k.annotations[i] == d;
        assert r[a + i] == d;
      }
    }
    if i :| 0 <= i < |r| && r[i] == d {
      if a <= i < b { assert k.annotations[i - a] == d; }
    }
  }

  /** The classes the search goes on to, in its order. */
  function Successors(g: Graph, c: nat): (r: seq<nat>)
    requires GraphOk(g) && IsClass(g, c)
    ensures forall i :: 0 <= i < |r| ==>
      IsClass(g, r[i]) && (Level(g, r[i]) < Level(g, c)
                           || (Level(g, r[i]) == Level(g, c) && g.classes[r[i]].rank < g.classes[c].rank))
    ensures InTurn(g, c, r)
  {
    var k := g.classes[c];
    assert ClassOk(g, k);
    k.interfaces
    + (if k.isAnnotation then [] else k.annotations)
    + (if k.superClass.None? || k.superClass.value == g.top then [] else [k.superClass.value])
  }

  /** `findAnnotatedClass`. */
  function Find(g: Graph, c: nat): Option<nat>
    requires GraphOk(g) && IsClass(g, c)
    decreases Level(g, c), g.classes[c].rank, 1, 0
  {
    if g.classes[c].carries then Some(c) else FindAmong(g, c, Successors(g, c))
  }

  function FindAmong(g: Graph, c: nat, next: seq<nat>): Option<nat>
    requires GraphOk(g) && IsClass(g, c)
    requires forall i :: 0 <= i < |next| ==> next[i] in Successors(g, c)
    decreases Level(g, c), g.classes[c].rank, 0, |next|
  {
    if next == [] then None
    else
      assert next[0] in Successors(g, c);
      var found := Find(g, next[0]);
      if found.Some? then found else FindAmong(g, c, next[1..])
  }

  /** From one class to the next, along edges. */
  predicate IsWay(g: Graph, way: seq<nat>) {
    && way != [] && IsClass(g, way[0])
    && forall i :: 0 <= i < |way| - 1 ==> IsClass(g, way[i]) && Edge(g, way[i], way[i + 1])
  }

  predicate Leads(g: Graph, way: seq<nat>, c: nat, d: nat) {
    IsWay(g, way) && way[0] == c && way[|way| - 1] == d
  }

  ghost predicate Reaches(g: Graph, c: nat, d: nat) {
    exists way :: Leads(g, way, c, d)
  }

  // ---- the order of the search ----

  /** Every class under `c`, in the order in which the search looks at them. */
  function Order(g: Graph, c: nat): (r: seq<nat>)
    requires GraphOk(g) && IsClass(g, c)
    ensures forall i :: 0 <= i < |r| ==> IsClass(g, r[i])
    decreases Level(g, c), g.classes[c].rank, 1, 0
  {
    [c] + OrderAmong(g, c, Successors(g, c))
  }

  function OrderAmong(g: Graph, c: nat, next: seq<nat>): (r: seq<nat>)
    requires GraphOk(g) && IsClass(g, c)
    requires forall i :: 0 <= i < |next| ==> next[i] in Successors(g, c)
    ensures forall i :: 0 <= i < |r| ==> IsClass(g, r[i])
    decreases Level(g, c), g.classes[c].rank, 0, |next|
  {
    if next == [] then []
    else
      assert next[0] in Successors(g, c);
      Order(g, next[0]) + OrderAmong(g, c, next[1..])
  }

  /** The first class of a list that carries the annotation. */
  function First(g: Graph, cs: seq<nat>): Option<nat>
    requires forall i :: 0 <= i < |cs| ==> IsClass(g, cs[i])
  {
    if cs == [] then None
    else
      assert IsClass(g, cs[0]);
      if g.classes[cs[0]].carries then Some(cs[0]) else First(g, cs[1..])
  }

  lemma {:induction false} FirstConcat(g: Graph, a: seq<nat>, b: seq<nat>)
    requires forall i :: 0 <= i < |a| ==> IsClass(g, a[i])
    requires forall i :: 0 <= i < |b| ==> IsClass(g, b[i])
    ensures First(g, a + b) == if First(g, a).Some? then First(g, a) else First(g, b)
  {
    if a == [] {
      assert a + b == b;
    } else {
      assert (a + b)[1..] == a[1..] + b;
      FirstConcat(g, a[1..], b);
    }
  }

  lemma {:induction false} FindIsFirst(g: Graph, c: nat)
    requires GraphOk(g) && IsClass(g, c)
    ensures Find(g, c) == First(g, Order(g, c))
    decreases Level(g, c), g.classes[c].rank, 1, 0
  {
    FindAmongIsFirst(g, c, Successors(g, c));
    assert Order(g, c)[1..] == OrderAmong(g, c, Successors(g, c));
  }

  lemma {:induction false} FindAmongIsFirst(g: Graph, c: nat, next: seq<nat>)
    requires GraphOk(g) && IsClass(g, c)
    requires forall i :: 0 <= i < |next| ==> next[i] in Successors(g, c)
    ensures FindAmong(g, c, next) == First(g, OrderAmong(g, c, next))
    decreases Level(g, c), g.classes[c].rank, 0, |next|
  {
    if next != [] {
      assert next[0] in Successors(g, c);
      FindIsFirst(g, next[0]);
      FindAmongIsFirst(g, c, next[1..]);
      FirstConcat(g, Order(g, next[0]), OrderAmong(g, c, next[1..]));
    }
  }

  // ---- the search misses nothing ----

  lemma {:induction false} InOrderIsReached(g: Graph, c: nat, d: nat)
    requires GraphOk(g) && IsClass(g, c) && d in Order(g, c)
    ensures Reaches(g, c, d)
    decreases Level(g, c), g.classes[c].rank, 1, 0
  {
    if d == c {
      assert Leads(g, [c], c, d);
    } else {
      InOrderAmong(g, c, Successors(g, c), d);
    }
  }

  lemma {:induction false} InOrderAmong(g: Graph, c: nat, next: seq<nat>, d: nat)
    requires GraphOk(g) && IsClass(g, c)
    requires forall i :: 0 <= i < |next| ==> next[i] in Successors(g, c)
    requires d in OrderAmong(g, c, next)
    ensures Reaches(g, c, d)
    decreases Level(g, c), g.classes[c].rank, 0, |next|
  {
    assert next[0] in Successors(g, c);
    SuccessorsAreEdges(g, c, next[0]);
    if d in Order(g, next[0]) {
      InOrderIsReached(g, next[0], d);
      var way :| Leads(g, way, next[0], d);
      assert Leads(g, [c] + way, c, d) by {
        assert forall i :: 1 <= i < |way| ==> ([c] + way)[i] == way[i - 1];
      }
    } else {
      InOrderAmong(g, c, next[1..], d);
    }
  }

  lemma {:induction false} OrderHas(g: Graph, c: nat, next: seq<nat>, s: nat, d: nat)
    requires GraphOk(g) && IsClass(g, c) && s in next
    requires forall i :: 0 <= i < |next| ==> next[i] in Successors(g, c)
    requires IsClass(g, s) && d in Order(g, s)
    ensures d in OrderAmong(g, c, next)
  {
    if s != next[0] { OrderHas(g, c, next[1..], s, d); }
  }

  lemma {:induction false} ReachedIsInOrder(g: Graph, way: seq<nat>, c: nat, d: nat)
    requires GraphOk(g) && Leads(g, way, c, d)
    ensures d in Order(g, c)
    decreases |way|
  {
    if |way| > 1 {
      assert Edge(g, way[0], way[1]);
      SuccessorsAreEdges(g, way[0], way[1]);
      assert Leads(g, way[1..], way[1], d);
      ReachedIsInOrder(g, way[1..], way[1], d);
      OrderHas(g, c, Successors(g, c), way[1], d);
    }
  }

  lemma {:induction false} FirstMeaning(g: Graph, cs: seq<nat>)
    requires forall i :: 0 <= i < |cs| ==> IsClass(g, cs[i])
    ensures First(g, cs).None? <==> forall i :: 0 <= i < |cs| ==> !g.classes[cs[i]].carries
    ensures First(g, cs).Some? ==> First(g, cs).value in cs && g.classes[First(g, cs).value].carries
  {
    if cs != [] { FirstMeaning(g, cs[1..]); }
  }

  /** The search fails exactly if no class it can reach carries the annotation; what it finds is reached and
      carries it. */
  lemma FindIsComplete(g: Graph, c: nat)
    requires GraphOk(g) && IsClass(g, c)
    ensures Find(g, c).None? <==> forall d: nat :: IsClass(g, d) && Reaches(g, c, d) ==> !g.classes[d].carries
    ensures Find(g, c).Some? ==>
      var d := Find(g, c).value; IsClass(g, d) && Reaches(g, c, d) && g.classes[d].carries
  {
    var order := Order(g, c);
    FindIsFirst(g, c);
    FirstMeaning(g, order);
    forall d: nat | IsClass(g, d) && Reaches(g, c, d) ensures d in order {
      var way :| Leads(g, way, c, d);
      ReachedIsInOrder(g, way, c, d);
    }
    forall d | d in order ensures Reaches(g, c, d) {
      InOrderIsReached(g, c, d);
    }
    forall i | 0 <= i < |order| ensures order[i] in order {
    }
  }
}
