/** The transformation matrices of excanvas.js: rows of three numbers, with points multiplied from the left, what
    such a matrix does to a point and to areas, and the product that puts two of them together. */
module Matrix {
  import opened Geometry

  type Rows = seq<seq<real>>

  predicate Square(m: Rows) {
    |m| == 3 && |m[0]| == 3 && |m[1]| == 3 && |m[2]| == 3
  }

  /** The last column of a matrix that moves points of the plane. */
  predicate Affine(m: Rows) {
    Square(m) && m[0][2] == 0.0 && m[1][2] == 0.0 && m[2][2] == 1.0
  }

  function Identity(): (m: Rows)
    ensures Affine(m)
  {
    [[1.0, 0.0, 0.0], [0.0, 1.0, 0.0], [0.0, 0.0, 1.0]]
  }

  function Build(m11: real, m12: real, m21: real, m22: real, dx: real, dy: real): (m: Rows)
    ensures Affine(m)
  {
    [[m11, m12, 0.0], [m21, m22, 0.0], [dx, dy, 1.0]]
  }

  /** The first `n` terms of one entry of a product. */
  function Dot(m1: Rows, m2: Rows, x: nat, y: nat, n: nat): real
    requires Square(m1) && Square(m2) && x < 3 && y < 3 && n <= 3
  {
    if n == 0 then 0.0 else Dot(m1, m2, x, y, n - 1) + m1[x][n - 1] * m2[n - 1][y]
  }

  predicate IsProduct(m1: Rows, m2: Rows, r: Rows)
    requires Square(m1) && Square(m2)
  {
    Square(r) && forall x, y :: 0 <= x < 3 && 0 <= y < 3 ==> r[x][y] == Dot(m1, m2, x, y, 3)
  }

  /** The product, whole. */
  function Product(m1: Rows, m2: Rows): (r: Rows)
    requires Square(m1) && Square(m2)
    ensures IsProduct(m1, m2, r)
  {
    [ [Dot(m1, m2, 0, 0, 3), Dot(m1, m2, 0, 1, 3), Dot(m1, m2, 0, 2, 3)],
      [Dot(m1, m2, 1, 0, 3), Dot(m1, m2, 1, 1, 3), Dot(m1, m2, 1, 2, 3)],
      [Dot(m1, m2, 2, 0, 3), Dot(m1, m2, 2, 1, 3), Dot(m1, m2, 2, 2, 3)]]
  }

  lemma ProductUnique(m1: Rows, m2: Rows, r: Rows)
    requires Square(m1) && Square(m2) && IsProduct(m1, m2, r)
    ensures r == Product(m1, m2)
  {
    var p := Product(m1, m2);
    forall x | 0 <= x < 3 ensures r[x] == p[x] {
      assert |r[x]| == 3 == |p[x]|;
      forall y | 0 <= y < 3 ensures r[x][y] == p[x][y] {
        assert p[x][y] == Dot(m1, m2, x, y, 3);
      }
    }
  }

  /** `matrixMultiply`: the entries are filled in one after another. */
  method MatrixMultiply(m1: Rows, m2: Rows) returns (result: Rows)
    requires Square(m1) && Square(m2)
    ensures result == Product(m1, m2)
  {
    result := Identity();
    var x := 0;
    while x < 3
      invariant 0 <= x <= 3 && Square(result)
      invariant forall i, j :: 0 <= i < x && 0 <= j < 3 ==> result[i][j] == Dot(m1, m2, i, j, 3)
    {
      var row := MultiplyRow(m1, m2, x, result[x]);
      result := result[x := row];
      x := x + 1;
    }
    ProductUnique(m1, m2, result);
  }

  method MultiplyRow(m1: Rows, m2: Rows, x: nat, row0: seq<real>) returns (row: seq<real>)
    requires Square(m1) && Square(m2) && x < 3 && |row0| == 3
    ensures |row| == 3 && forall j :: 0 <= j < 3 ==> row[j] == Dot(m1, m2, x, j, 3)
  {
    row := row0;
    var y := 0;
    while y < 3
      invariant 0 <= y <= 3 && |row| == 3
      invariant forall j :: 0 <= j < y ==> row[j] == Dot(m1, m2, x, j, 3)
    {
      var sum, z := 0.0, 0;
      while z < 3
        invariant 0 <= z <= 3 && sum == Dot(m1, m2, x, y, z)
      {
        sum := sum + m1[x][z] * m2[z][y];
        z := z + 1;
      }
      row := row[y := sum];
      y := y + 1;
    }
  }

  // ---- what a matrix does ----

  /** The affine map with the given coefficients. */
  function Image(a: real, b: real, c: real, d: real, mx: real, my: real, p: Point): Point {
    Point(p.x * a + p.y * c + mx, p.x * b + p.y * d + my)
  }

  function Act(m: Rows, p: Point): Point
    requires Square(m)
  {
    Image(m[0][0], m[0][1], m[1][0], m[1][1], m[2][0], m[2][1], p)
  }

  lemma BuildActs(a: real, b: real, c: real, d: real, mx: real, my: real, p: Point)
    ensures Act(Build(a, b, c, d, mx, my), p) == Image(a, b, c, d, mx, my, p)
  {
  }

  lemma Entry(m1: Rows, m2: Rows, x: nat, y: nat)
    requires Square(m1) && Square(m2) && x < 3 && y < 3
    ensures Product(m1, m2)[x][y] == m1[x][0] * m2[0][y] + m1[x][1] * m2[1][y] + m1[x][2] * m2[2][y]
  {
    assert Dot(m1, m2, x, y, 3) == Dot(m1, m2, x, y, 2) + m1[x][2] * m2[2][y];
    assert Dot(m1, m2, x, y, 2) == Dot(m1, m2, x, y, 1) + m1[x][1] * m2[1][y];
    assert Dot(m1, m2, x, y, 1) == Dot(m1, m2, x, y, 0) + m1[x][0] * m2[0][y];
  }

  /** A product of affine matrices written out. */
  lemma AffineProduct(m1: Rows, m2: Rows)
    requires Affine(m1) && Affine(m2)
    ensures
      var p := Product(m1, m2);
      && Affine(p)
      && p[0][0] == m1[0][0] * m2[0][0] + m1[0][1] * m2[1][0]
      && p[0][1] == m1[0][0] * m2[0][1] + m1[0][1] * m2[1][1]
      && p[1][0] == m1[1][0] * m2[0][0] + m1[1][1] * m2[1][0]
      && p[1][1] == m1[1][0] * m2[0][1] + m1[1][1] * m2[1][1]
      && p[2][0] == m1[2][0] * m2[0][0] + m1[2][1] * m2[1][0] + m2[2][0]
      && p[2][1] == m1[2][0] * m2[0][1] + m1[2][1] * m2[1][1] + m2[2][1]
  {
    forall x, y | 0 <= x < 3 && 0 <= y < 3
      ensures Product(m1, m2)[x][y] == m1[x][0] * m2[0][y] + m1[x][1] * m2[1][y] + m1[x][2] * m2[2][y]
    {
      Entry(m1, m2, x, y);
    }
  }

  /** The left factor acts first. */
  lemma ProductActs(m1: Rows, m2: Rows, p: Point)
    requires Affine(m1) && Affine(m2)
    ensures Act(Product(m1, m2), p) == Act(m2, Act(m1, p))
  {
    AffineProduct(m1, m2);
    ImageOfImage(m1[0][0], m1[0][1], m1[1][0], m1[1][1], m1[2][0], m1[2][1],
                 m2[0][0], m2[0][1], m2[1][0], m2[1][1], m2[2][0], m2[2][1], p);
  }

  lemma ImageOfImage(a: real, b: real, c: real, d: real, e: real, f: real,
                     u: real, v: real, w: real, x: real, y: real, z: real, p: Point)
    ensures
      Image(a * u + b * w, a * v + b * x, c * u + d * w, c * v + d * x, e * u + f * w + y, e * v + f * x + z, p)
      == Image(u, v, w, x, y, z, Image(a, b, c, d, e, f, p))
  {
    Distribute(p, a, b, c, d, e, f, u, w, y);
    Distribute(p, a, b, c, d, e, f, v, x, z);
  }

  lemma Distribute(p: Point, a: real, b: real, c: real, d: real, e: real, f: real, u: real, v: real, w: real)
    ensures p.x * (a * u + b * v) + p.y * (c * u + d * v) + (e * u + f * v + w)
         == (p.x * a + p.y * c + e) * u + (p.x * b + p.y * d + f) * v + w
  {
  }

  /** The product with the identity, as `save` makes it, is a copy. */
  lemma IdentityCopies(m: Rows)
    requires Affine(m)
    ensures Product(Identity(), m) == m
  {
    AffineProduct(Identity(), m);
    var p := Product(Identity(), m);
    forall x | 0 <= x < 3 ensures p[x] == m[x] {
      assert |p[x]| == 3 == |m[x]|;
      forall y | 0 <= y < 3 ensures p[x][y] == m[x][y] {
      }
    }
  }

  // ---- how areas grow ----

  function Det(m: Rows): real
    requires Square(m)
  {
    m[0][0] * m[1][1] - m[0][1] * m[1][0]
  }

  function Abs(x: real): real {
    if x < 0.0 then -x else x
  }

  lemma DetProduct(m1: Rows, m2: Rows)
    requires Affine(m1) && Affine(m2)
    ensures Det(Product(m1, m2)) == Det(m1) * Det(m2)
  {
    AffineProduct(m1, m2);
    Cauchy(m1[0][0], m1[0][1], m1[1][0], m1[1][1], m2[0][0], m2[0][1], m2[1][0], m2[1][1]);
  }

  lemma Cauchy(a: real, b: real, c: real, d: real, e: real, f: real, g: real, h: real)
    ensures (a * e + b * g) * (c * f + d * h) - (a * f + b * h) * (c * e + d * g) == (a * d - b * c) * (e * h - f * g)
  {
  }
}
