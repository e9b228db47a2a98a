/** IcoSphereModel.Make and AddPoint (Model.cs:306-392): a sphere built from
    an icosahedron whose triangles are each split into four, once or twice.
    Points are kept symbolically: a corner of the icosahedron, or the
    midpoint (pushed out to the sphere) of two earlier points. Their
    coordinates, the normals and the texture coordinates are not modelled. */
module IcoSpheres {

  /** A point of the sphere: a slot not yet filled, corner i of the
      icosahedron, or the midpoint of points a and b (a <= b). */
  datatype Vertex = Origin | Corner(i: nat) | Mid(a: int, b: int)

  /** The point AddPoint makes for the edge between a and b, in either order. */
  function EdgePoint(a: int, b: int): (v: Vertex)
    ensures v.Mid? && v.a <= v.b && multiset{v.a, v.b} == multiset{a, b}
  {
    if a > b then Mid(b, a) else Mid(a, b)
  }

  function Pow4(k: nat): nat
  {
    if k == 0 then 1 else 4 * Pow4(k - 1)
  }

  /** Points, edges and triangles after k subdivisions, as Make counts them
      (Model.cs:323-324): each subdivision adds a point per edge, and
      splits every edge in two and every triangle in four. */
  function PointCount(k: nat): nat
  {
    if k == 0 then 12 else PointCount(k - 1) + EdgeCount(k - 1)
  }

  function EdgeCount(k: nat): nat
  {
    if k == 0 then 30 else 4 * EdgeCount(k - 1)
  }

  function TriangleCount(k: nat): nat
  {
    20 * Pow4(k)
  }

  /** The counts in closed form; they keep Euler's formula for a sphere,
      points - edges + triangles == 2, and every edge borders two of the
      triangles. */
  lemma {:induction false} CountsClosedForm(k: nat)
    ensures EdgeCount(k) == 30 * Pow4(k)
    ensures PointCount(k) == 10 * Pow4(k) + 2
    ensures PointCount(k) - EdgeCount(k) + TriangleCount(k) == 2
    ensures 2 * EdgeCount(k) == 3 * TriangleCount(k)
    ensures Pow4(k) >= 1
  {
    if k > 0 {
      CountsClosedForm(k - 1);
    }
  }

  /** The face list after k subdivisions holds whole triangles, and the
      next subdivision makes it four times as long. */
  lemma FaceEntries(k: nat)
    ensures (3 * TriangleCount(k)) % 3 == 0
    ensures 3 * TriangleCount(k + 1) == 4 * (3 * TriangleCount(k))
  {
    var n := 20 * Pow4(k);
    assert 3 * n == 3 * n + 0;
    assert Pow4(k + 1) == 4 * Pow4(k);
  }

  /** The sizing loop of Make (Model.cs:323-324). */
  method Sizes(subdivisions: nat) returns (npoints: nat, nedges: nat)
    ensures npoints == PointCount(subdivisions) && nedges == EdgeCount(subdivisions)
  {
    npoints, nedges := 12, 30;
    var i := 0;
    while i < subdivisions
      invariant i <= subdivisions
      invariant npoints == PointCount(i) && nedges == EdgeCount(i)
    {
      npoints := npoints + nedges;
      nedges := nedges * 4;
      i := i + 1;
    }
  }

  /** The key AddPoint files the edge a-b under, with a <= b < n points. */
  function Key(a: int, b: int, n: int): int
  {
    a * n + b
  }

  /** Edges between points below n are filed in the order of their first
      point. */
  lemma KeyLess(a: int, b: int, c: int, d: int, n: int)
    requires 0 <= b < n && 0 <= d && a < c
    ensures Key(a, b, n) < Key(c, d, n)
  {
    var k := c - a - 1;
    MulNonneg(k, n);
    assert c * n == (a + 1 + k) * n == a * n + n + k * n;
  }

  lemma MulNonneg(k: int, n: int)
    requires 0 <= k && 0 <= n
    ensures 0 <= k * n
  {
  }

  /** Two different edges between points below n have different keys. */
  lemma KeyUnique(a: int, b: int, c: int, d: int, n: int)
    requires 0 <= b < n && 0 <= d < n
    requires a != c || b != d
    ensures Key(a, b, n) != Key(c, d, n)
  {
    if a < c {
      KeyLess(a, b, c, d, n);
    } else if c < a {
      KeyLess(c, d, a, b, n);
    }
  }

  /** The icosahedron's 20 triangles (Model.cs:348-353), five to a row. */
  const BaseFaces: seq<int> := Row0 + Row1 + Row2 + Row3
  const Row0: seq<int> := [0,4,1,   0,9,4,   9,5,4,   4,5,8,   4,8,1]
  const Row1: seq<int> := [8,10,1,  8,3,10,  5,3,8,   5,2,3,   2,7,3]
  const Row2: seq<int> := [7,10,3,  7,6,10,  7,11,6,  11,0,6,  0,1,6]
  const Row3: seq<int> := [6,1,10,  9,0,11,  9,11,2,  9,2,5,   7,2,11]

  /** Every entry of a face list is one of the first n points. */
  ghost predicate Indexes(f: seq<int>, n: int)
  {
    forall i | 0 <= i < |f| :: 0 <= f[i] < n
  }

  /** The icosahedron's triangles use its twelve corners only. */
  lemma BaseCorners()
    ensures |BaseFaces| == 60 && Indexes(BaseFaces, 12)
  {
    assert Indexes(Row0, 12) && Indexes(Row1, 12) && Indexes(Row2, 12) && Indexes(Row3, 12);
  }

  /** The first n points are the twelve corners followed by midpoints of
      pairs of earlier points. */
  ghost predicate Built(pts: seq<Vertex>, n: int)
  {
    && 12 <= n <= |pts|
    && (forall i | 0 <= i < 12 :: pts[i] == Corner(i))
    && (forall i | 12 <= i < n :: pts[i].Mid? && 0 <= pts[i].a <= pts[i].b < i)
  }

  /** The edge map holds, for each edge split so far, the index of its
      midpoint, which lies below `index`. */
  ghost predicate EdgesFiled(pts: seq<Vertex>, hash: map<int, int>, index: int)
  {
    && (forall k | k in hash :: 0 <= hash[k] < index && hash[k] < |pts|)
    && (forall a, b | 0 <= a <= b < |pts| && Key(a, b, |pts|) in hash :: pts[hash[Key(a, b, |pts|)]] == Mid(a, b))
  }

  /** Triangle t of f became triangles 4t to 4t+3 of g: the corner
      triangles and the middle one, through the midpoints of its edges. */
  ghost predicate Quartered(f: seq<int>, g: seq<int>, t: nat, pts: seq<Vertex>)
    requires 3 * t + 3 <= |f| && 12 * t + 12 <= |g|
  {
    var a, b, c := f[3 * t], f[3 * t + 1], f[3 * t + 2];
    var na, nb, nc := g[12 * t + 2], g[12 * t + 1], g[12 * t + 5];
    && g[12 * t..12 * t + 12] == [a, nb, na, nb, b, nc, na, nb, nc, na, nc, c]
    && 0 <= na < |pts| && 0 <= nb < |pts| && 0 <= nc < |pts|
    && pts[na] == EdgePoint(a, c) && pts[nb] == EdgePoint(a, b) && pts[nc] == EdgePoint(b, c)
  }

  /** A triangle already quartered stays so while later entries are
      written and later points are added. */
  lemma QuarteredKeeps(f: seq<int>, g: seq<int>, g': seq<int>, t: nat, pts: seq<Vertex>, pts': seq<Vertex>, n: int)
    requires 3 * t + 3 <= |f| && 12 * t + 12 <= |g| <= |g'|
    requires Quartered(f, g, t, pts) && g'[..12 * t + 12] == g[..12 * t + 12]
    requires Indexes(g[..12 * t + 12], n) && n <= |pts| <= |pts'| && pts'[..n] == pts[..n]
    ensures Quartered(f, g', t, pts')
  {
    assert g'[12 * t..12 * t + 12] == g[12 * t..12 * t + 12];
    assert g[12 * t + 1] == g[..12 * t + 12][12 * t + 1];
    assert g[12 * t + 2] == g[..12 * t + 12][12 * t + 2];
    assert g[12 * t + 5] == g[..12 * t + 12][12 * t + 5];
  }

  /** The quartered triangles below t, and triangle t, after the step for t. */
  lemma QuarteredAll(f: seq<int>, g: seq<int>, g': seq<int>, t: nat, pts: seq<Vertex>, pts': seq<Vertex>, n: int, n': int)
    requires 3 * t + 3 <= |f| && 12 * t + 12 <= |g| == |g'|
    requires forall s | 0 <= s < t :: Quartered(f, g, s, pts)
    requires Indexes(g[..12 * t], n) && 0 <= n <= |pts| <= |pts'| && pts'[..n] == pts[..n]
    requires g'[..12 * t] == g[..12 * t] && Quartered(f, g', t, pts')
    requires Indexes(g'[12 * t..12 * t + 12], n')  && n <= n'
    ensures forall s | 0 <= s < t + 1 :: Quartered(f, g', s, pts')
    ensures Indexes(g'[..12 * t + 12], n')
  {
    forall s | 0 <= s < t
      ensures Quartered(f, g', s, pts')
    {
      assert g'[..12 * s + 12] == g[..12 * s + 12] by {
        assert g'[..12 * s + 12] == g'[..12 * t][..12 * s + 12];
        assert g[..12 * s + 12] == g[..12 * t][..12 * s + 12];
      }
      assert Indexes(g[..12 * s + 12], n) by {
        assert g[..12 * s + 12] == g[..12 * t][..12 * s + 12];
      }
      QuarteredKeeps(f, g, g', s, pts, pts', n);
    }
    assert g'[..12 * t + 12] == g'[..12 * t] + g'[12 * t..12 * t + 12];
  }

  /** The state of Subdivide's loop after t triangles: the points built so
      far, the edges filed, and the first t triangles quartered. */
  ghost predicate Progress(f: seq<int>, g: seq<int>, pts: seq<Vertex>, t: nat, n: int, hash: map<int, int>)
    requires 3 * t <= |f| && 12 * t <= |g|
  {
    && Built(pts, n) && EdgesFiled(pts, hash, n)
    && Indexes(f, n) && Indexes(g[..12 * t], n)
    && forall s | 0 <= s < t :: Quartered(f, g, s, pts)
  }

  /** Quartering triangle t keeps the loop's state. */
  lemma ProgressStep(f: seq<int>, g: seq<int>, g': seq<int>, pts: seq<Vertex>, pts': seq<Vertex>,
                     t: nat, n: int, n': int, hash: map<int, int>, hash': map<int, int>)
    requires 3 * t + 3 <= |f| && 12 * t + 12 <= |g| == |g'|
    requires Progress(f, g, pts, t, n, hash)
    requires n <= n' && n <= |pts| <= |pts'| && pts'[..n] == pts[..n]
    requires Built(pts', n') && EdgesFiled(pts', hash', n')
    requires g'[..12 * t] == g[..12 * t] && Indexes(g'[12 * t..12 * t + 12], n') && Quartered(f, g', t, pts')
    ensures Progress(f, g', pts', t + 1, n', hash')
  {
    QuarteredAll(f, g, g', t, pts, pts', n, n');
    assert Indexes(f, n');
  }

  /** Triangle t of f is quartered in g once the twelve entries are written
      and the three midpoints exist. */
  lemma QuarterOf(f: seq<int>, g: seq<int>, t: nat, pts: seq<Vertex>, na: int, nb: int, nc: int, n: int)
    requires 3 * t + 3 <= |f| && 12 * t + 12 <= |g| && Indexes(f[3 * t..3 * t + 3], n)
    requires var a, b, c := f[3 * t], f[3 * t + 1], f[3 * t + 2];
      g[12 * t..12 * t + 12] == [a, nb, na, nb, b, nc, na, nb, nc, na, nc, c]
    requires 0 <= na < n && 0 <= nb < n && 0 <= nc < n && n <= |pts|
    requires var a, b, c := f[3 * t], f[3 * t + 1], f[3 * t + 2];
      pts[na] == EdgePoint(a, c) && pts[nb] == EdgePoint(a, b) && pts[nc] == EdgePoint(b, c)
    ensures Quartered(f, g, t, pts) && Indexes(g[12 * t..12 * t + 12], n)
  {
    var i, j := 3 * t, 12 * t;
    var q := g[j..j + 12];
    assert g[j + 1] == q[1] && g[j + 2] == q[2] && g[j + 5] == q[5];
    var corners := f[i..i + 3];
    assert corners[0] == f[i] && corners[1] == f[i + 1] && corners[2] == f[i + 2];
    assert 0 <= corners[0] < n && 0 <= corners[1] < n && 0 <= corners[2] < n;
  }

  /** A point below n survives when the first n points are kept. */
  lemma Kept(p: seq<Vertex>, q: seq<Vertex>, n: int, k: int)
    requires 0 <= k < n <= |p| && n <= |q| && q[..n] == p[..n]
    ensures q[k] == p[k]
  {
    assert q[k] == q[..n][k];
  }

  lemma KeptPrefix(p: seq<Vertex>, q: seq<Vertex>, r: seq<Vertex>, m: int, n: int)
    requires 0 <= m <= n <= |q| && m <= |p| && n <= |r|
    requires q[..m] == p[..m] && r[..n] == q[..n]
    ensures r[..m] == p[..m]
  {
    assert r[..m] == r[..n][..m];
  }

  class IcoSphere {
    var Points: array<Vertex>
    var Faces: array<int>

    /** The IcoSphereModel constructor (Model.cs:308-310): one subdivision
        for a sphere no bigger than the near-size threshold, two otherwise. */
    constructor (radius: real, sizeAtNear: real)
      ensures Points.Length == PointCount(if radius <= sizeAtNear then 1 else 2)
    {
      Points := new Vertex[0];
      Faces := new int[0];
      new;
      var ok, npoints := Make(if radius <= sizeAtNear then 1 else 2);
    }

    /** IcoSphereModel.Make (Model.cs:322-392): room for the points of the
        finished sphere, the icosahedron's corners and triangles, then the
        subdivision passes. `npoints` counts the points made; `ok` is false
        when a pass runs out of room. */
    method Make(subdivisions: nat) returns (ok: bool, npoints: int)
      modifies this
      ensures fresh(Points) && Points.Length == PointCount(subdivisions)
      ensures ok ==> Faces.Length == 3 * TriangleCount(subdivisions)
      ensures ok ==> Built(Points[..], npoints) && Indexes(Faces[..], npoints)
      ensures subdivisions == 0 ==> ok && npoints == 12 && Faces[..] == BaseFaces
    {
      var size, edges := Sizes(subdivisions);
      CountsClosedForm(subdivisions);
      Points := new Vertex[size](_ => Origin);
      forall k | 0 <= k < 12 {
        Points[k] := Corner(k);
      }
      npoints := 12;
      Faces := new int[60](i requires 0 <= i < 60 => BaseFaces[i]);
      assert Faces[..] == BaseFaces;
      BaseCorners();
      ok := true;
      var k: nat := subdivisions;
      while k > 0
        invariant k <= subdivisions && Points.Length == size && fresh(Points)
        invariant Faces.Length == 3 * TriangleCount(subdivisions - k)
        invariant Built(Points[..], npoints) && Indexes(Faces[..], npoints)
        invariant k == subdivisions ==> npoints == 12 && Faces[..] == BaseFaces
      {
        FaceEntries(subdivisions - k);
        var newfaces;
        newfaces, npoints, ok := Subdivide(Faces, npoints);
        if !ok {
          return;
        }
        Faces := newfaces;
        k := k - 1;
      }
    }

    /** IcoSphereModel.AddPoint (Model.cs:312-320): the index of the midpoint
        of a and b, in either order. An edge seen before gives the index
        filed for it; a new one gets the next free index, which then moves
        on. `ok` is false when that index is past the end of the points
        array, where the game throws. */
    method AddPoint(a: int, b: int, hash: map<int, int>, index: int)
        returns (r: int, hash': map<int, int>, index': int, ok: bool)
      requires 0 <= a < Points.Length && 0 <= b < Points.Length
      requires 0 <= index <= Points.Length && EdgesFiled(Points[..], hash, index)
      modifies Points
      ensures var lo, hi := if a > b then b else a, if a > b then a else b;
        && ok == (Key(lo, hi, Points.Length) in hash || index < Points.Length)
        && (Key(lo, hi, Points.Length) in hash ==>
              r == hash[Key(lo, hi, Points.Length)] && hash' == hash && index' == index
              && Points[..] == old(Points[..]))
        && (Key(lo, hi, Points.Length) !in hash && ok ==>
              r == index && index' == index + 1 && hash' == hash[Key(lo, hi, Points.Length) := index]
              && Points[..] == old(Points[..])[index := Mid(lo, hi)])
      ensures ok ==> 0 <= r < index' && r < Points.Length && Points[r] == EdgePoint(a, b)
      ensures ok ==> EdgesFiled(Points[..], hash', index')
      ensures ok ==> index <= index' <= Points.Length && Points[..index] == old(Points[..index])
      ensures ok && Built(old(Points[..]), index) && a < index && b < index ==> Built(Points[..], index')
    {
      var a, b := a, b;
      if a > b {
        a, b := b, a;
      }
      var pi := a * Points.Length + b;
      if pi in hash {
        return hash[pi], hash, index, true;
      }
      if !(0 <= index < Points.Length) {
        return 0, hash, index, false;
      }
      ghost var pts0 := Points[..];
      Points[index] := Mid(a, b);
      hash' := hash[pi := index];
      r, index', ok := index, index + 1, true;
      forall c, d | 0 <= c <= d < Points.Length && Key(c, d, Points.Length) in hash'
        ensures Points[hash'[Key(c, d, Points.Length)]] == Mid(c, d)
      {
        if c != a || d != b {
          KeyUnique(c, d, a, b, Points.Length);
          assert Points[hash[Key(c, d, Points.Length)]] == pts0[hash[Key(c, d, Points.Length)]];
        }
      }
    }

    /** One pass of Make's subdivision loop (Model.cs:355-382): every triangle
        a-b-c of `faces` becomes four in `newfaces`, through the midpoints of
        its edges, each edge split once whichever triangle meets it first.
        `ok` is false when the points array runs out, where the game
        throws. */
    method Subdivide(faces: array<int>, index: int) returns (newfaces: array<int>, index': int, ok: bool)
      requires faces.Length % 3 == 0
      requires Built(Points[..], index) && Indexes(faces[..], index)
      modifies Points
      ensures fresh(newfaces) && newfaces.Length == 4 * faces.Length
      ensures ok ==> index <= index' && Points[..index] == old(Points[..index])
      ensures ok ==> Built(Points[..], index') && Indexes(newfaces[..], index')
      ensures ok ==> forall t | 0 <= t < faces.Length / 3 :: Quartered(faces[..], newfaces[..], t, Points[..])
    {
      newfaces := new int[faces.Length * 4];
      var hash: map<int, int> := map[];
      index', ok := index, true;
      var i := 0;
      ghost var t, p := 0, Points[..];
      while i < faces.Length
        invariant i <= faces.Length && i == 3 * t
        invariant index <= index' && Points[..index] == p[..index]
        invariant Progress(faces[..], newfaces[..], Points[..], t, index', hash)
      {
        ghost var pts0, n0 := Points[..], index';
        hash, index', ok := QuarterStep(faces, newfaces, i, t, hash, index');
        if !ok {
          return;
        }
        KeptPrefix(p, pts0, Points[..], index, n0);
        i, t := i + 3, t + 1;
      }
      assert newfaces[..12 * t] == newfaces[..];
    }

    /** The body of that loop: the triangle at i is quartered, which carries
        the loop's state from t to t + 1. */
    method QuarterStep(faces: array<int>, newfaces: array<int>, i: int, ghost t: nat, hash: map<int, int>, index: int)
        returns (hash': map<int, int>, index': int, ok: bool)
      requires faces != newfaces && i == 3 * t && i + 3 <= faces.Length && newfaces.Length == 4 * faces.Length
      requires Progress(faces[..], newfaces[..], Points[..], t, index, hash)
      modifies Points, newfaces
      ensures ok ==> index <= index' && Points[..index] == old(Points[..index])
      ensures ok ==> Progress(faces[..], newfaces[..], Points[..], t + 1, index', hash')
    {
      ghost var pts0, g0 := Points[..], newfaces[..];
      hash', index', ok := QuarterFace(faces, newfaces, i, t, hash, index);
      if ok {
        ProgressStep(faces[..], g0, newfaces[..], pts0, Points[..], t, index, index', hash, hash');
      }
    }

    /** One triangle's quartering, at i: its three midpoints, then its four
        quarters at 4i. */
    method QuarterFace(faces: array<int>, newfaces: array<int>, i: int, ghost t: nat, hash: map<int, int>, index: int)
        returns (hash': map<int, int>, index': int, ok: bool)
      requires faces != newfaces && i == 3 * t && i + 3 <= faces.Length && newfaces.Length == 4 * faces.Length
      requires Built(Points[..], index) && EdgesFiled(Points[..], hash, index) && Indexes(faces[..], index)
      modifies Points, newfaces
      ensures ok ==> index <= index' && Points[..index] == old(Points[..index])
      ensures ok ==> Built(Points[..], index') && EdgesFiled(Points[..], hash', index')
      ensures ok ==> newfaces[..4 * i] == old(newfaces[..4 * i]) && Indexes(newfaces[4 * i..4 * i + 12], index')
      ensures ok ==> Quartered(faces[..], newfaces[..], t, Points[..])
    {
      var a, b, c := faces[i], faces[i + 1], faces[i + 2];
      var na, nb, nc;
      na, nb, nc, hash', index', ok := Midpoints(a, b, c, hash, index);
      if !ok {
        return;
      }
      WriteQuarters(newfaces, 4 * i, a, b, c, na, nb, nc);
      QuarterOf(faces[..], newfaces[..], t, Points[..], na, nb, nc, index');
    }

    /** The midpoints of the edges a-c, a-b and b-c, in the order the game
        asks for them (Model.cs:360-362). */
    method Midpoints(a: int, b: int, c: int, hash: map<int, int>, index: int)
        returns (na: int, nb: int, nc: int, hash': map<int, int>, index': int, ok: bool)
      requires 0 <= a < index && 0 <= b < index && 0 <= c < index
      requires Built(Points[..], index) && EdgesFiled(Points[..], hash, index)
      modifies Points
      ensures ok ==> index <= index' && Points[..index] == old(Points[..index])
      ensures ok ==> Built(Points[..], index') && EdgesFiled(Points[..], hash', index')
      ensures ok ==> 0 <= na < index' && 0 <= nb < index' && 0 <= nc < index'
      ensures ok ==> Points[na] == EdgePoint(a, c) && Points[nb] == EdgePoint(a, b) && Points[nc] == EdgePoint(b, c)
    {
      ghost var p0 := Points[..];
      nb, nc := 0, 0;
      na, hash', index', ok := AddPoint(a, c, hash, index);
      if !ok {
        return;
      }
      ghost var p1, n1 := Points[..], index';
      nb, hash', index', ok := AddPoint(a, b, hash', index');
      if !ok {
        return;
      }
      ghost var p2, n2 := Points[..], index';
      nc, hash', index', ok := AddPoint(b, c, hash', index');
      if !ok {
        return;
      }
      Kept(p1, p2, n1, na);
      Kept(p2, Points[..], n2, na);
      Kept(p2, Points[..], n2, nb);
      KeptPrefix(p0, p1, p2, index, n1);
      KeptPrefix(p0, p2, Points[..], index, n2);
    }

    /** The twelve entries of the four triangles made from a-b-c
        (Model.cs:364-378). */
    static method WriteQuarters(g: array<int>, j: int, a: int, b: int, c: int, na: int, nb: int, nc: int)
      requires 0 <= j && j + 12 <= g.Length
      modifies g
      ensures g[..j] == old(g[..j]) && g[j + 12..] == old(g[j + 12..])
      ensures g[j..j + 12] == [a, nb, na, nb, b, nc, na, nb, nc, na, nc, c]
    {
      var quarters := [a, nb, na, nb, b, nc, na, nb, nc, na, nc, c];
      forall k | j <= k < j + 12 {
        g[k] := quarters[k - j];
      }
    }
  }
}
