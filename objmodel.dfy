/** ObjModel (Model.cs:43-215): a model read from a Wavefront OBJ file. The
    lines before the first "o " line may name material libraries; each "o "
    line opens a sub-object whose vertex, normal, face, smoothing and
    material lines follow it. Sub-objects named for exhaust ports are
    dropped and those named for gun mounts become mount classes. Number
    parsing is a parameter; the files are given as their lines. */
module ObjModels {
  import opened Wrappers
  import opened Text
  import opened Xml
  import opened Materials
  import opened Misc
  import Objects

  /** A 3D point or normal. */
  datatype Point3 = Point3(X: real, Y: real, Z: real)

  /** A sub-object as the SubObject constructor leaves it: its name, its
      material (null when none was named), its index triples and whether it
      is shaded smoothly. */
  datatype SubObject = SubObject(Name: string, Material: ObjMaterial?, Faces: seq<int>, Smooth: bool)

  /** What the SubObject constructor has built so far: its own material,
      shading and face list, the twelve-slot face buffer it reuses from one
      face line to the next, and the model's shared point and normal
      lists. */
  datatype Reading = Reading(Material: ObjMaterial?, Smooth: bool, Faces: seq<int>, Face: seq<int>,
                             Points: seq<Point3>, Normals: seq<Point3>)

  /** A vertex token's slash-separated component as a zero-based index
      (Model.cs:83): one less than its number, and -1 when it is empty. */
  function ComponentIndex(d: string, parseInt: string -> int): (r: int)
    ensures d == "" ==> r == -1
    ensures d != "" ==> r + 1 == parseInt(d)
  {
    (if d == "" then 0 else parseInt(d)) - 1
  }

  function Indices(ds: seq<string>, parseInt: string -> int): (r: seq<int>)
    ensures |r| == |ds| && forall k | 0 <= k < |ds| :: r[k] == ComponentIndex(ds[k], parseInt)
  {
    seq(|ds|, k requires 0 <= k < |ds| => ComponentIndex(ds[k], parseInt))
  }

  /** The components of a face line's vertex tokens, in order (Model.cs:82-83). */
  function Components(tokens: seq<string>, parseInt: string -> int): seq<int>
  {
    if tokens == [] then []
    else Components(tokens[..|tokens| - 1], parseInt) + Indices(SplitOn(tokens[|tokens| - 1], '/'), parseInt)
  }

  /** The index triples a face line appends, `count` being its number of
      space-separated pieces, "f" included (Model.cs:85-90): a triangle
      appends its three vertices; anything else is read as a quad 1-2-3-4
      and appends the triangles 1-2-4 and 2-3-4. */
  function Emit(face: seq<int>, count: int): (r: seq<int>)
    requires |face| == 12
    ensures |r| == if count == 4 then 9 else 18
  {
    if count == 4 then face[..9] else face[..6] + face[9..12] + face[3..12]
  }

  /** A triangle's three vertices are appended in order. */
  lemma TriangleFace(v1: seq<int>, v2: seq<int>, v3: seq<int>, rest: seq<int>)
    requires |v1| == |v2| == |v3| == 3 && |rest| == 3
    ensures Emit(v1 + v2 + v3 + rest, 4) == v1 + v2 + v3
  {
    assert (v1 + v2 + v3 + rest)[..9] == v1 + v2 + v3;
  }

  /** A quad 1-2-3-4 becomes the triangles 1-2-4 and 2-3-4. */
  lemma QuadFace(v1: seq<int>, v2: seq<int>, v3: seq<int>, v4: seq<int>, count: int)
    requires |v1| == |v2| == |v3| == |v4| == 3 && count != 4
    ensures Emit(v1 + v2 + v3 + v4, count) == v1 + v2 + v4 + v2 + v3 + v4
  {
    var f := v1 + v2 + v3 + v4;
    assert f[..6] == v1 + v2;
    assert f[9..12] == v4;
    assert f[3..12] == v2 + v3 + v4;
  }

  /** The reading a sub-object starts from: no material, flat shading, no
      faces, a zeroed face buffer, and the model's points and normals so
      far. */
  function Start(points: seq<Point3>, normals: seq<Point3>): (r: Reading)
    ensures r.Material == null && !r.Smooth && r.Faces == [] && |r.Face| == 12
    ensures r.Points == points && r.Normals == normals
  {
    Reading(null, false, [], seq(12, _ => 0), points, normals)
  }

  /** A "v x y z" or "vn x y z" line's point, the y axis flipped
      (Model.cs:71-79); it fails when the line has fewer than four pieces,
      where the game's array access throws. */
  function PointOf(line: string, parse: string -> real): (r: Result<Point3>)
    ensures r.Success? <==> |SplitOn(line, ' ')| >= 4
    ensures r.Success? ==> var s := SplitOn(line, ' ');
      r.value == Point3(parse(s[1]), -parse(s[2]), parse(s[3]))
  {
    var s := SplitOn(line, ' ');
    if |s| < 4 then Failure("IndexOutOfRangeException")
    else Success(Point3(parse(s[1]), -parse(s[2]), parse(s[3])))
  }

  /** One line of a sub-object (Model.cs:71-99), `materials` being the
      registered materials by name. A line only ever adds to the face list,
      a whole number of triangles at a time, and to the point and normal
      lists. */
  function ObjLine(st: Reading, line: string, materials: map<string, ObjMaterial>,
                   parse: string -> real, parseInt: string -> int): (r: Result<Reading>)
    requires |st.Face| == 12
    ensures r.Success? ==> |r.value.Face| == 12
    ensures r.Success? ==> st.Faces <= r.value.Faces && |r.value.Faces| % 9 == |st.Faces| % 9
    ensures r.Success? ==> st.Points <= r.value.Points && st.Normals <= r.value.Normals
    ensures r.Success? && !StartsWith(line, "f ") ==> r.value.Face == st.Face && r.value.Faces == st.Faces
  {
    if StartsWith(line, "v ") then
      match PointOf(line, parse)
      case Failure(e) => Failure(e)
      case Success(p) => Success(st.(Points := st.Points + [p]))
    else if StartsWith(line, "vn ") then
      match PointOf(line, parse)
      case Failure(e) => Failure(e)
      case Success(p) => Success(st.(Normals := st.Normals + [p]))
    else if StartsWith(line, "f ") then
      var s := SplitOn(line, ' ');
      var c := Components(s[1..], parseInt);
      if |c| > 12 then Failure("IndexOutOfRangeException")
      else
        var face := c + st.Face[|c|..];
        assert face[..|c|] == c && face[|c|..] == st.Face[|c|..];
        var faces := st.Faces + Emit(face, |s|);
        Triangles(|st.Faces|, |faces|);
        Success(st.(Faces := faces, Face := face))
    else if StartsWith(line, "s ") then
      Success(st.(Smooth := line == "s 1"))
    else if StartsWith(line, "usemtl ") then
      var mat := line[7..];
      if mat == "(null)" then Success(st)
      else if mat in materials then Success(st.(Material := materials[mat]))
      else Failure("KeyNotFoundException: " + mat)
    else Success(st)
  }

  /** "v " and "vn " lines add a point or a normal and fail with fewer than
      four pieces (Model.cs:71-79). */
  lemma PointLines(st: Reading, line: string, materials: map<string, ObjMaterial>,
                   parse: string -> real, parseInt: string -> int)
    requires |st.Face| == 12
    ensures var r := ObjLine(st, line, materials, parse, parseInt);
      StartsWith(line, "v ") ==>
        (r.Success? <==> |SplitOn(line, ' ')| >= 4) && (r.Success? ==> r.value == st.(Points := st.Points + [PointOf(line, parse).value]))
    ensures var r := ObjLine(st, line, materials, parse, parseInt);
      StartsWith(line, "vn ") ==>
        (r.Success? <==> |SplitOn(line, ' ')| >= 4) && (r.Success? ==> r.value == st.(Normals := st.Normals + [PointOf(line, parse).value]))
  {
    if StartsWith(line, "v ") {
      assert !StartsWith(line, "vn ") by { assert line[1] == ' '; }
    }
  }

  /** A face line fills the front of the buffer with its components, fails
      past twelve of them, and appends the buffer's triangles
      (Model.cs:80-91). */
  lemma FaceLine(st: Reading, line: string, materials: map<string, ObjMaterial>,
                 parse: string -> real, parseInt: string -> int)
    requires |st.Face| == 12 && StartsWith(line, "f ")
    ensures FaceLineRead(st, line, ObjLine(st, line, materials, parse, parseInt), parseInt)
  {
    assert !StartsWith(line, "v ") && !StartsWith(line, "vn ") by { assert line[0] == 'f'; }
  }

  /** An "s " line sets smooth shading exactly for "s 1" (Model.cs:92-93). */
  lemma SmoothLine(st: Reading, line: string, materials: map<string, ObjMaterial>,
                   parse: string -> real, parseInt: string -> int)
    requires |st.Face| == 12 && StartsWith(line, "s ")
    ensures ObjLine(st, line, materials, parse, parseInt) == Success(st.(Smooth := line == "s 1"))
  {
    assert !StartsWith(line, "v ") && !StartsWith(line, "vn ") && !StartsWith(line, "f ") by { assert line[0] == 's'; }
  }

  /** "usemtl (null)" changes nothing; any other material name must be
      registered, and becomes the sub-object's material (Model.cs:94-98). */
  lemma UseMtlLine(st: Reading, line: string, materials: map<string, ObjMaterial>,
                   parse: string -> real, parseInt: string -> int)
    requires |st.Face| == 12 && StartsWith(line, "usemtl ")
    ensures var r := ObjLine(st, line, materials, parse, parseInt);
      line[7..] == "(null)" ==> r == Success(st)
    ensures var r := ObjLine(st, line, materials, parse, parseInt);
      line[7..] != "(null)" ==>
        (r.Success? <==> line[7..] in materials) && (r.Success? ==> r.value == st.(Material := materials[line[7..]]))
  {
    assert !StartsWith(line, "v ") && !StartsWith(line, "vn ") && !StartsWith(line, "f ") && !StartsWith(line, "s ")
      by { assert line[0] == 'u'; }
  }

  /** Every other line is ignored (Model.cs:71-99). */
  lemma OtherLine(st: Reading, line: string, materials: map<string, ObjMaterial>,
                  parse: string -> real, parseInt: string -> int)
    requires |st.Face| == 12
    requires !StartsWith(line, "v ") && !StartsWith(line, "vn ") && !StartsWith(line, "f ")
    requires !StartsWith(line, "s ") && !StartsWith(line, "usemtl ")
    ensures ObjLine(st, line, materials, parse, parseInt) == Success(st)
  {
  }

  /** A face line's effect: its components, at most twelve, overwrite the
      front of the buffer, and the triangles of the buffer are appended. */
  ghost predicate FaceLineRead(st: Reading, line: string, r: Result<Reading>, parseInt: string -> int)
    requires |st.Face| == 12
  {
    var s := SplitOn(line, ' ');
    var c := Components(s[1..], parseInt);
    && (r.Success? <==> |c| <= 12)
    && (r.Success? ==>
          |r.value.Face| == 12 && r.value.Face[..|c|] == c && r.value.Face[|c|..] == st.Face[|c|..]
          && r.value == st.(Faces := st.Faces + Emit(r.value.Face, |s|), Face := r.value.Face))
  }

  lemma Triangles(m: int, n: int)
    requires n == m + 9 || n == m + 18
    ensures n % 9 == m % 9
  {
  }

  /** The lines of a sub-object read in order from `st`; the first line that
      fails stops the reading. */
  function ReadLines(st: Reading, block: seq<string>, materials: map<string, ObjMaterial>,
                     parse: string -> real, parseInt: string -> int): (r: Result<Reading>)
    requires |st.Face| == 12
    ensures r.Success? ==> |r.value.Face| == 12
    ensures r.Success? ==> st.Faces <= r.value.Faces && |r.value.Faces| % 9 == |st.Faces| % 9
    ensures r.Success? ==> st.Points <= r.value.Points && st.Normals <= r.value.Normals
    decreases |block|
  {
    if block == [] then Success(st)
    else match ObjLine(st, block[0], materials, parse, parseInt)
      case Failure(e) => Failure(e)
      case Success(st') => ReadLines(st', block[1..], materials, parse, parseInt)
  }

  /** Reading a block one line further: the first line's effect, then the
      rest. */
  lemma ReadLinesStep(st: Reading, lines: seq<string>, i: nat, e: nat, materials: map<string, ObjMaterial>,
                      parse: string -> real, parseInt: string -> int)
    requires |st.Face| == 12 && i < e <= |lines|
    ensures ReadLines(st, lines[i..e], materials, parse, parseInt) ==
      match ObjLine(st, lines[i], materials, parse, parseInt)
      case Failure(err) => Failure(err)
      case Success(st') => ReadLines(st', lines[i + 1..e], materials, parse, parseInt)
  {
    assert lines[i..e][0] == lines[i] && lines[i..e][1..] == lines[i + 1..e];
  }

  /** The components of a prefix of the tokens are a prefix of theirs. */
  lemma {:induction false} ComponentsPrefix(tokens: seq<string>, n: nat, parseInt: string -> int)
    requires n <= |tokens|
    ensures Components(tokens[..n], parseInt) <= Components(tokens, parseInt)
    decreases |tokens| - n
  {
    if n < |tokens| {
      ComponentsPrefix(tokens[..|tokens| - 1], n, parseInt);
      assert tokens[..|tokens| - 1][..n] == tokens[..n];
    } else {
      assert tokens[..n] == tokens;
    }
  }

  /** The loop of Model.cs:82-83: every slash-separated component of every
      vertex token is written to the next slot of the face buffer; a face
      with more than twelve components runs off the buffer and fails. On
      success the components overwrite the front of the buffer and the rest
      is left as it was. */
  method FillFace(face: array<int>, s: seq<string>, parseInt: string -> int) returns (ok: bool)
    requires face.Length == 12 && |s| >= 1
    modifies face
    ensures var c := Components(s[1..], parseInt);
      ok <==> |c| <= 12
    ensures var c := Components(s[1..], parseInt);
      ok ==> face[..|c|] == c && face[|c|..] == old(face[..])[|c|..]
  {
    ghost var old_face := face[..];
    var j := 0;
    for i := 1 to |s|
      invariant j == |Components(s[1..i], parseInt)| <= 12
      invariant face[..j] == Components(s[1..i], parseInt) && face[j..] == old_face[j..]
    {
      var ds := SplitOn(s[i], '/');
      assert s[1..i + 1][..i - 1] == s[1..i] && s[1..i + 1][i - 1] == s[i];
      ghost var done := face[..j];
      var j' := WriteComponents(face, j, ds, parseInt);
      if j' < 0 {
        ComponentsPrefix(s[1..], i, parseInt);
        assert s[1..][..i] == s[1..i + 1];
        return false;
      }
      assert face[..j'] == face[..j] + face[j..j'];
      j := j';
    }
    assert s[1..|s|] == s[1..];
    ok := true;
  }

  /** The inner loop of Model.cs:83: the components of one vertex token are
      written to the buffer from slot j on; it fails, giving -1, when they
      run past the end. On success it gives the slot after the last one
      written, and no other slot changes. */
  method WriteComponents(face: array<int>, j: nat, ds: seq<string>, parseInt: string -> int) returns (j': int)
    requires face.Length == 12 && j <= 12
    modifies face
    ensures j' >= 0 <==> j + |ds| <= 12
    ensures j' >= 0 ==> j' == j + |ds| && face[..j] == old(face[..j]) && face[j..j'] == Indices(ds, parseInt)
                        && face[j'..] == old(face[j'..])
  {
    ghost var before := face[..];
    j' := j;
    for m := 0 to |ds|
      invariant j' == j + m <= 12
      invariant face[..j] == before[..j] && face[j..j'] == Indices(ds[..m], parseInt) && face[j'..] == before[j'..]
    {
      if j' >= 12 {
        return -1;
      }
      face[j'] := ComponentIndex(ds[m], parseInt);
      assert Indices(ds[..m + 1], parseInt) == Indices(ds[..m], parseInt) + [ComponentIndex(ds[m], parseInt)];
      j' := j' + 1;
    }
    assert ds[..|ds|] == ds;
  }

  /** The loops of Model.cs:85-90: the face buffer's triangles are appended
      to the face list. */
  method AppendTriangles(fcs: seq<int>, face: array<int>, count: int) returns (r: seq<int>)
    requires face.Length == 12
    ensures r == fcs + Emit(face[..], count)
  {
    r := fcs;
    if count == 4 {
      for i := 0 to 9
        invariant r == fcs + face[..i]
      {
        r := r + [face[i]];
      }
    } else {
      for i := 0 to 6
        invariant r == fcs + face[..i]
      {
        r := r + [face[i]];
      }
      for i := 9 to 12
        invariant r == fcs + face[..6] + face[9..i]
      {
        r := r + [face[i]];
      }
      for i := 3 to 12
        invariant r == fcs + face[..6] + face[9..12] + face[3..i]
      {
        r := r + [face[i]];
      }
    }
  }

  /** One pass of the SubObject constructor's loop (Model.cs:71-99), the
      face buffer being an array the passes share. */
  method ReadObjLine(st: Reading, face: array<int>, line: string, materials: map<string, ObjMaterial>,
                     parse: string -> real, parseInt: string -> int) returns (r: Result<Reading>)
    requires face.Length == 12 && face[..] == st.Face
    modifies face
    ensures r == ObjLine(st, line, materials, parse, parseInt)
    ensures r.Success? ==> face[..] == r.value.Face
  {
    if StartsWith(line, "f ") {
      FaceLine(st, line, materials, parse, parseInt);
      var s := SplitOn(line, ' ');
      var ok := FillFace(face, s, parseInt);
      if !ok {
        return Failure("IndexOutOfRangeException");
      }
      var faces := AppendTriangles(st.Faces, face, |s|);
      ghost var c := Components(s[1..], parseInt);
      ghost var want := ObjLine(st, line, materials, parse, parseInt);
      assert face[..] == c + st.Face[|c|..] == want.value.Face by {
        assert face[..] == face[..|c|] + face[|c|..];
        assert want.value.Face == want.value.Face[..|c|] + want.value.Face[|c|..];
      }
      r := Success(st.(Faces := faces, Face := face[..]));
    } else {
      r := ObjLine(st, line, materials, parse, parseInt);
    }
  }

  /** The SubObject constructor (Model.cs:59-103), `nameLine` being the
      "o " line already read: it reads the lines up to the next "o " line or
      the end of the file, hands that line back, and adds the points and
      normals it meets to the model's lists. */
  method ReadSubObject(reader: LineReader, nameLine: string, materials: map<string, ObjMaterial>,
                       points: seq<Point3>, normals: seq<Point3>, parse: string -> real, parseInt: string -> int)
    returns (r: Result<SubObject>, next: Option<string>, points': seq<Point3>, normals': seq<Point3>)
    requires reader.Valid() && |nameLine| >= 2
    modifies reader`Pos
    ensures reader.Valid()
    ensures var e := BlockEnd(reader.Lines, old(reader.Pos), "o ");
      var rd := ReadLines(Start(points, normals), reader.Lines[old(reader.Pos)..e], materials, parse, parseInt);
      && (rd.Failure? ==> r == Failure(rd.error))
      && (rd.Success? ==>
            && r == Success(SubObject(nameLine[2..], rd.value.Material, rd.value.Faces, rd.value.Smooth))
            && points' == rd.value.Points && normals' == rd.value.Normals
            && next == At(reader.Lines, e) && reader.Pos == (if e < |reader.Lines| then e + 1 else e))
  {
    ghost var start := reader.Pos;
    ghost var e := BlockEnd(reader.Lines, start, "o ");
    next, points', normals' := None, points, normals;
    var face := new int[12](_ => 0);
    var st := Start(points, normals);
    while true
      invariant reader.Valid() && start <= reader.Pos <= e
      invariant |st.Face| == 12 && face[..] == st.Face
      invariant ReadLines(Start(points, normals), reader.Lines[start..e], materials, parse, parseInt)
             == ReadLines(st, reader.Lines[reader.Pos..e], materials, parse, parseInt)
      decreases |reader.Lines| - reader.Pos
    {
      ghost var p := reader.Pos;
      var line := reader.ReadLine();
      if line.None? || StartsWith(line.value, "o ") {
        assert p == e;
        assert reader.Lines[p..e] == [];
        next := line;
        break;
      }
      ReadLinesStep(st, reader.Lines, p, e, materials, parse, parseInt);
      var rd := ReadObjLine(st, face, line.value, materials, parse, parseInt);
      if rd.Failure? {
        r := Failure(rd.error);
        return;
      }
      st := rd.value;
    }
    r := Success(SubObject(nameLine[2..], st.Material, st.Faces, st.Smooth));
    points', normals' := st.Points, st.Normals;
  }

  /** A mount sub-object as the model keeps it: the name of its turret's
      model and its mount class. */
  datatype LoadedMount = LoadedMount(Model: string, Class: Objects.MountClass)

  /** What ObjModel.Load keeps (Model.cs:178-182): the sub-objects it draws,
      the mounts, and the points and normals all of them index. */
  datatype ObjData = ObjData(SubObjects: seq<SubObject>, Mounts: seq<LoadedMount>,
                             Points: seq<Point3>, Normals: seq<Point3>)

  predicate IsDigit(c: char)
  {
    '0' <= c <= '9'
  }

  /** The longest run of digits at the front of s. */
  function LeadingDigits(s: string): (r: string)
    ensures r <= s && forall k | 0 <= k < |r| :: IsDigit(r[k])
    ensures |r| < |s| ==> !IsDigit(s[|r|])
  {
    if s != [] && IsDigit(s[0]) then [s[0]] + LeadingDigits(s[1..]) else []
  }

  /** The group the expression ^mount_(\d+) captures in a mount's name
      (Model.cs:150, 203): the digits after "mount_", empty when the match
      fails. */
  function MountId(name: string): (r: string)
    requires StartsWith(name, "mount_")
    ensures name[..6] + r <= name && forall k | 0 <= k < |r| :: IsDigit(r[k])
    ensures 6 + |r| < |name| ==> !IsDigit(name[6 + |r|])
  {
    LeadingDigits(name[6..])
  }

  /** A mount's range of traverse, in degrees, as the largest angle it may
      turn away from its centre (Model.cs:156-157): 180 degrees is a quarter
      turn either way, 360 and more is half a turn, and anything else is
      half the range converted to radians. The special case for 180 agrees
      with the general rule, and the result never exceeds half a turn. */
  function RangeToMaxTurn(n: real): (r: real)
    ensures r == (if n < 360.0 then n else 360.0) * (PI / 360.0)
    ensures 0.0 <= n ==> 0.0 <= r <= PI
    ensures n <= 360.0 ==> r * 2.0 == n * DegreesToRadians
    // a full circle gives exactly the half-turn Mount.TurnTowards tests for
    ensures n >= 360.0 ==> r == PI
  {
    if n == 180.0 then PI / 2.0 else if n >= 360.0 then PI else n * (DegreesToRadians * 0.5)
  }

  /** Math.PI cast to float, as a double: the single-precision value nearest
      to it, 13176795/2^22, which lies above Math.PI. */
  const SinglePI: real := 3.1415927410125732421875

  /** The MaxTurn the game actually stores: RangeToMaxTurn's value cast to
      float (`single`, round-to-nearest single precision, known here only
      at Math.PI). A full circle then stores SinglePI, not Math.PI. */
  function StoredMaxTurn(n: real, single: real -> real): (r: real)
    requires single(PI) == SinglePI
    ensures n >= 360.0 ==> r == SinglePI && r != PI
  {
    single(RangeToMaxTurn(n))
  }

  /** What a mount loaded with a range of 360 degrees (the default) does as
      written: its stored MaxTurn is neither 0 nor Math.PI, so
      Mount.TurnTowards takes the limited-arc branch, and the arc it clamps
      every desired angle into is the sliver within SinglePI - Math.PI
      (under 1e-7 radians) of the direction opposite the mount's centre: the
      turret can only point backwards. */
  lemma FullRangeStoredAimsBackwards(n: real, single: real -> real, c: Objects.MountClass, want: real)
    requires single(PI) == SinglePI && n >= 360.0 && c.MaxTurn == StoredMaxTurn(n, single)
    requires 0.0 <= c.CenterAngle < TwoPI && 0.0 <= want < TwoPI
    ensures c.MaxTurn != 0.0 && c.MaxTurn != PI
    ensures var d := Objects.Abs(Objects.ArcTarget(c, want) - Objects.Opposite(c));
      d <= SinglePI - PI || d >= TwoPI - (SinglePI - PI)
  {
    var lo := NormalizeAngle(c.CenterAngle - c.MaxTurn);
    var hi := NormalizeAngle(c.CenterAngle + c.MaxTurn);
    if c.CenterAngle < SinglePI {
      assert lo == c.CenterAngle - SinglePI + TwoPI;
    } else {
      assert lo == c.CenterAngle - SinglePI;
    }
    if c.CenterAngle + SinglePI < TwoPI {
      assert hi == c.CenterAngle + SinglePI;
    } else {
      assert hi == c.CenterAngle + SinglePI - TwoPI;
    }
  }

  /** As intended, a mount loaded with a range of 360 degrees or more has
      MaxTurn == Math.PI, so Mount.TurnTowards turns it freely towards any
      desired angle, the shorter way round, by at most its step. */
  lemma FullRangeTraverses(n: real, c: Objects.MountClass, offset: real, desired: real, maxStep: real)
    requires n >= 360.0 && c.MaxTurn == RangeToMaxTurn(n) && maxStep >= 0.0
    ensures var turn := Objects.ClampTurn(Objects.WrapTurn(NormalizeAngle(desired) - (c.CenterAngle + offset)), maxStep);
      Objects.TurnedOffset(c, offset, desired, maxStep) == Objects.WrapOffset(offset + turn) &&
      Objects.Abs(turn) <= maxStep
  {
    Objects.FullTraverseStep(c, offset, desired, maxStep);
  }

  /** An angle in degrees converted to radians. */
  function Radians(degrees: real): real
  {
    degrees * DegreesToRadians
  }

  /** The mount class of sub-object `name` (Model.cs:150-158): its mount
      element is the first "mount" child of the model's data whose id is
      the name's number; the model attribute names the turret's model, and
      centre, range and speed are given in degrees, with defaults 0, 360 and
      1080. Without data, without such an element or without a model
      attribute the game throws. */
  function MountOf(name: string, data: Option<Element>, faces: seq<int>, points: nat, parse: string -> real): (r: Result<LoadedMount>)
    requires StartsWith(name, "mount_")
    ensures data.None? ==> r.Failure?
    ensures data.Some? ==>
      var node := SelectChild(data.value.Children, "mount", MountId(name));
      && (r.Success? <==> node.Some? && "model" in node.value.Node.Attributes && CornersInRange(faces, points))
      && (node.Some? && "model" in node.value.Node.Attributes && !CornersInRange(faces, points) ==>
            r == Failure("ArgumentOutOfRangeException"))
      && (r.Success? ==>
            var n := node.value.Node;
            && r.value.Model == n.Attributes["model"]
            && r.value.Class.CenterAngle == Radians(FloatAt(n, "center", 0.0, parse))
            && r.value.Class.MaxTurn == RangeToMaxTurn(FloatAt(n, "range", 360.0, parse))
            && r.value.Class.TurnSpeed == Radians(FloatAt(n, "speed", 1080.0, parse)))
  {
    if data.None? then Failure("NullReferenceException")
    else
      match SelectChild(data.value.Children, "mount", MountId(name))
      case None => Failure("ArgumentNullException")
      case Some(e) =>
        match Attr(Some(e.Node), "model", None)
        case None => Failure("ArgumentNullException")
        case Some(model) =>
          if !CornersInRange(faces, points) then Failure("ArgumentOutOfRangeException")
          else
            Success(LoadedMount(model, Objects.MountClass(
              Radians(FloatAt(e.Node, "center", 0.0, parse)),
              RangeToMaxTurn(FloatAt(e.Node, "range", 360.0, parse)),
              Radians(FloatAt(e.Node, "speed", 1080.0, parse)))))
  }

  /** Every corner's point index (the first of each triple) names one of
      the `points` points read so far, as the loop averaging a mount's
      corners into its render offset needs. */
  predicate CornersInRange(faces: seq<int>, points: nat)
  {
    forall k | 0 <= k < |faces| && k % 3 == 0 :: 0 <= faces[k] < points
  }

  /** The sub-objects a model draws are never exhaust ports or mounts, and
      each face list holds whole triangles of three index triples. */
  ghost predicate WellRead(d: ObjData)
  {
    forall so | so in d.SubObjects ::
      && !StartsWith(so.Name, "exhaust_port_") && !StartsWith(so.Name, "mount_")
      && |so.Faces| % 9 == 0
  }

  /** What ObjModel.Load does with a sub-object it has read
      (Model.cs:148-170): exhaust ports are dropped, mounts become mount
      classes and everything else is drawn. */
  function AddSubObject(acc: ObjData, so: SubObject, data: Option<Element>, parse: string -> real): (r: Result<ObjData>)
    ensures StartsWith(so.Name, "exhaust_port_") ==> r == Success(acc)
    ensures !StartsWith(so.Name, "exhaust_port_") && StartsWith(so.Name, "mount_") ==>
      (r.Success? <==> MountOf(so.Name, data, so.Faces, |acc.Points|, parse).Success?)
      && (r.Success? ==> r.value == acc.(Mounts := acc.Mounts + [MountOf(so.Name, data, so.Faces, |acc.Points|, parse).value]))
    ensures !StartsWith(so.Name, "exhaust_port_") && !StartsWith(so.Name, "mount_") ==>
      r == Success(acc.(SubObjects := acc.SubObjects + [so]))
    ensures r.Success? && WellRead(acc) && |so.Faces| % 9 == 0 ==> WellRead(r.value)
  {
    if StartsWith(so.Name, "exhaust_port_") then Success(acc)
    else if StartsWith(so.Name, "mount_") then
      match MountOf(so.Name, data, so.Faces, |acc.Points|, parse)
      case Failure(e) => Failure(e)
      case Success(m) => Success(acc.(Mounts := acc.Mounts + [m]))
    else Success(acc.(SubObjects := acc.SubObjects + [so]))
  }

  /** The sub-objects of an OBJ file from line i, an "o " line or the end of
      the file, on: each one's lines are read into the shared point and
      normal lists and it is then kept, dropped or made a mount. The first
      failure ends the reading. Sub-objects read earlier are kept as they
      were. */
  function ReadObjects(lines: seq<string>, i: nat, acc: ObjData, materials: map<string, ObjMaterial>,
                       data: Option<Element>, parse: string -> real, parseInt: string -> int): (r: Result<ObjData>)
    requires i <= |lines| && (i < |lines| ==> StartsWith(lines[i], "o "))
    ensures r.Success? ==> acc.SubObjects <= r.value.SubObjects && acc.Mounts <= r.value.Mounts
    ensures r.Success? ==> acc.Points <= r.value.Points && acc.Normals <= r.value.Normals
    ensures r.Success? && WellRead(acc) ==> WellRead(r.value)
    decreases |lines| - i
  {
    if i == |lines| then Success(acc)
    else
      var e := BlockEnd(lines, i + 1, "o ");
      match ReadLines(Start(acc.Points, acc.Normals), lines[i + 1..e], materials, parse, parseInt)
      case Failure(err) => Failure(err)
      case Success(st) =>
        var so := SubObject(lines[i][2..], st.Material, st.Faces, st.Smooth);
        match AddSubObject(acc.(Points := st.Points, Normals := st.Normals), so, data, parse)
        case Failure(err) => Failure(err)
        case Success(acc') => ReadObjects(lines, e, acc', materials, data, parse, parseInt)
  }

  /** ObjModel.Load (Model.cs:140-182) on the lines of an OBJ file, `files`
      giving the lines of the material libraries it names. The loop of the
      source is written as two: up to the first "o " line it only loads the
      "mtllib " libraries, and from there on every line it meets is an
      "o " line, the SubObject constructor having read all the others. The
      result is the reading of the sub-objects with the materials as the
      libraries left them, and every library the header names is recorded
      as loaded. */
  method LoadObj(lines: seq<string>, data: Option<Element>, registry: Registry, files: string -> seq<string>,
                 parse: string -> real, parseInt: string -> int) returns (r: Result<ObjData>)
    requires registry.Valid()
    modifies registry`Materials, registry`Loaded
    ensures registry.Valid()
    ensures forall k | 0 <= k < BlockEnd(lines, 0, "o ") && StartsWith(lines[k], "mtllib ") ::
      Skips(registry.Loaded, GetText(lines[k]))
    ensures registry.LibsOf() == HeaderFold(lines, BlockEnd(lines, 0, "o "), old(registry.LibsOf()), files, parse)
    ensures r == ReadObjects(lines, BlockEnd(lines, 0, "o "), ObjData([], [], [], []), registry.Materials, data, parse, parseInt)
    ensures r.Success? ==> WellRead(r.value)
  {
    var reader := new LineReader(lines);
    var line := LoadHeader(reader, registry, files, parse);
    r := LoadSubObjects(reader, line, BlockEnd(lines, 0, "o "), registry.Materials, data, parse, parseInt);
  }

  /** The lines before the first "o " line (Model.cs:143-146, 172-175): each
      "mtllib " line loads the library named after its first space. It
      gives back the first "o " line, or null at the end of the file, and
      every library named is then recorded as loaded. */
  method LoadHeader(reader: LineReader, registry: Registry, files: string -> seq<string>, parse: string -> real)
    returns (line: Option<string>)
    requires reader.Valid() && reader.Pos == 0 && registry.Valid()
    modifies reader`Pos, registry`Materials, registry`Loaded
    ensures reader.Valid() && registry.Valid()
    ensures var h := BlockEnd(reader.Lines, 0, "o ");
      line == At(reader.Lines, h) && reader.Pos == (if h < |reader.Lines| then h + 1 else h)
    ensures HeaderLoaded(registry.Loaded, reader.Lines, BlockEnd(reader.Lines, 0, "o "))
    ensures registry.LibsOf() == HeaderFold(reader.Lines, BlockEnd(reader.Lines, 0, "o "), old(registry.LibsOf()), files, parse)
  {
    ghost var lines := reader.Lines;
    ghost var h := BlockEnd(lines, 0, "o ");
    ghost var libs0 := registry.LibsOf();
    ghost var i: nat := 0;
    line := reader.ReadLine();
    while line.Some? && !StartsWith(line.value, "o ")
      invariant reader.Valid() && registry.Valid()
      invariant i <= h && line == At(lines, i) && reader.Pos == (if i < |lines| then i + 1 else |lines|)
      invariant HeaderLoaded(registry.Loaded, lines, i)
      invariant registry.LibsOf() == HeaderFold(lines, i, libs0, files, parse)
      decreases |lines| - i
    {
      HeaderLine(line.value, lines, i, registry, files, parse);
      line := reader.ReadLine();
      i := i + 1;
    }
    assert i == h;
  }

  /** One line before the first "o " line (Model.cs:173): an "mtllib " line
      loads the library named after its first space, which is then
      recorded as loaded; libraries recorded before stay recorded. */
  method HeaderLine(line: string, ghost lines: seq<string>, ghost i: nat, registry: Registry,
                    files: string -> seq<string>, parse: string -> real)
    requires i < |lines| && line == lines[i] && registry.Valid() && HeaderLoaded(registry.Loaded, lines, i)
    modifies registry`Materials, registry`Loaded
    ensures registry.Valid() && HeaderLoaded(registry.Loaded, lines, i + 1)
    ensures forall p | Skips(old(registry.Loaded), p) :: Skips(registry.Loaded, p)
    ensures StartsWith(line, "mtllib ") ==> Skips(registry.Loaded, GetText(line))
    ensures !StartsWith(line, "mtllib ") ==> registry.Materials == old(registry.Materials) && registry.Loaded == old(registry.Loaded)
    ensures StartsWith(line, "mtllib ") && !Skips(old(registry.Loaded), GetText(line)) ==>
      registry.PropsOf() == old(registry.PropsOf()) + DefsFrom(files(GetText(line)), 0, parse)
    ensures StartsWith(line, "mtllib ") && Skips(old(registry.Loaded), GetText(line)) ==>
      registry.Materials == old(registry.Materials)
    ensures registry.LibsOf() == HeaderLib(old(registry.LibsOf()), line, files, parse)
  {
    if StartsWith(line, "mtllib ") {
      var path := GetText(line);
      registry.LoadLibraryOnce(path, files(path), parse);
    }
  }

  /** Every library the "mtllib " lines among the first i lines name is
      recorded as loaded. */
  ghost predicate HeaderLoaded(loaded: Option<seq<string>>, lines: seq<string>, i: nat)
  {
    forall k | 0 <= k < i && k < |lines| && StartsWith(lines[k], "mtllib ") :: Skips(loaded, GetText(lines[k]))
  }

  /** One header line on Libs: an "mtllib " line loads the library named
      after its first space, as LoadLibraryOnce does; any other line
      changes nothing. */
  function HeaderLib(libs: Libs, line: string, files: string -> seq<string>, parse: string -> real): Libs
  {
    if StartsWith(line, "mtllib ") then LoadOnce(libs, GetText(line), files(GetText(line)), parse) else libs
  }

  /** The libraries and materials after the first n header lines, from libs. */
  function HeaderFold(lines: seq<string>, n: nat, libs: Libs, files: string -> seq<string>,
                      parse: string -> real): Libs
    requires n <= |lines|
  {
    if n == 0 then libs else HeaderLib(HeaderFold(lines, n - 1, libs, files, parse), lines[n - 1], files, parse)
  }

  /** The libraries the "mtllib " lines among the first n lines name. */
  function HeaderPaths(lines: seq<string>, n: nat): set<string>
    requires n <= |lines|
  {
    if n == 0 then {}
    else HeaderPaths(lines, n - 1) + (if StartsWith(lines[n - 1], "mtllib ") then {GetText(lines[n - 1])} else {})
  }

  /** Line k is an "mtllib " line naming the library p. */
  predicate NamesLib(lines: seq<string>, k: int, p: string)
  {
    0 <= k < |lines| && StartsWith(lines[k], "mtllib ") && GetText(lines[k]) == p
  }

  /** HeaderPaths holds exactly the libraries the first n lines name. */
  lemma {:induction false} HeaderPathsNamed(lines: seq<string>, n: nat, p: string)
    requires n <= |lines|
    ensures p in HeaderPaths(lines, n) <==> exists k | 0 <= k < n :: NamesLib(lines, k, p)
  {
    if n > 0 {
      HeaderPathsNamed(lines, n - 1, p);
      assert p in HeaderPaths(lines, n) <==> p in HeaderPaths(lines, n - 1) || NamesLib(lines, n - 1, p);
      if p in HeaderPaths(lines, n) {
        var k := if NamesLib(lines, n - 1, p) then n - 1 else var k' :| 0 <= k' < n - 1 && NamesLib(lines, k', p); k';
        assert 0 <= k < n && NamesLib(lines, k, p);
      } else {
        forall k | 0 <= k < n
          ensures !NamesLib(lines, k, p)
        {
          if k < n - 1 {
            assert !(exists k' | 0 <= k' < n - 1 :: NamesLib(lines, k', p));
          }
        }
      }
    }
  }

  /** After the first n header lines a library is recorded as loaded
      exactly when it was before or one of those lines names it. */
  lemma {:induction false} HeaderRecords(lines: seq<string>, n: nat, libs: Libs, files: string -> seq<string>,
                                         parse: string -> real, p: string)
    requires n <= |lines|
    ensures Skips(HeaderFold(lines, n, libs, files, parse).Loaded, p) <==>
      Skips(libs.Loaded, p) || p in HeaderPaths(lines, n)
  {
    if n > 0 {
      HeaderRecords(lines, n - 1, libs, files, parse, p);
      LibRecords(HeaderFold(lines, n - 1, libs, files, parse), lines[n - 1], files, parse, p);
    }
  }

  /** One header line records a library exactly when it was recorded
      before or the line names it. */
  lemma LibRecords(libs: Libs, line: string, files: string -> seq<string>, parse: string -> real, p: string)
    ensures Skips(HeaderLib(libs, line, files, parse).Loaded, p) <==>
      Skips(libs.Loaded, p) || (StartsWith(line, "mtllib ") && GetText(line) == p)
  {
    if StartsWith(line, "mtllib ") && !Skips(libs.Loaded, GetText(line)) {
      var q := GetText(line);
      if libs.Loaded.Some? {
        assert RecordedAll(libs.Loaded, q).value == libs.Loaded.value + [q];
      }
    }
  }

  /** Loading the header never unregisters a material, and registers every
      material of every library the header names that was not loaded
      before it. */
  lemma {:induction false} HeaderRegisters(lines: seq<string>, n: nat, libs: Libs, files: string -> seq<string>,
                                           parse: string -> real, name: string)
    requires n <= |lines|
    ensures name in libs.Props ==> name in HeaderFold(lines, n, libs, files, parse).Props
    ensures forall p | p in HeaderPaths(lines, n) && !Skips(libs.Loaded, p) && name in DefsFrom(files(p), 0, parse) ::
      name in HeaderFold(lines, n, libs, files, parse).Props
  {
    if n > 0 {
      HeaderRegisters(lines, n - 1, libs, files, parse, name);
      var prev := HeaderFold(lines, n - 1, libs, files, parse);
      if StartsWith(lines[n - 1], "mtllib ") {
        var q := GetText(lines[n - 1]);
        HeaderRecords(lines, n - 1, libs, files, parse, q);
      }
    }
  }

  /** Every material the header registers was registered before or is
      defined by a library one of its "mtllib " lines names. */
  lemma {:induction false} HeaderOnly(lines: seq<string>, n: nat, libs: Libs, files: string -> seq<string>,
                                      parse: string -> real, name: string)
    requires n <= |lines|
    ensures name in HeaderFold(lines, n, libs, files, parse).Props ==>
      name in libs.Props || exists p | p in HeaderPaths(lines, n) :: name in DefsFrom(files(p), 0, parse)
  {
    if n > 0 {
      HeaderOnly(lines, n - 1, libs, files, parse, name);
      if StartsWith(lines[n - 1], "mtllib ") {
        assert GetText(lines[n - 1]) in HeaderPaths(lines, n);
      }
    }
  }

  /** The sub-objects from the "o " line at index i, already read, to the end
      of the file (Model.cs:144-171). */
  method LoadSubObjects(reader: LineReader, line: Option<string>, ghost i: nat, materials: map<string, ObjMaterial>,
                        data: Option<Element>, parse: string -> real, parseInt: string -> int) returns (r: Result<ObjData>)
    requires reader.Valid() && i <= |reader.Lines| && line == At(reader.Lines, i)
    requires reader.Pos == (if i < |reader.Lines| then i + 1 else i)
    requires i < |reader.Lines| ==> StartsWith(reader.Lines[i], "o ")
    modifies reader`Pos
    ensures r == ReadObjects(reader.Lines, i, ObjData([], [], [], []), materials, data, parse, parseInt)
  {
    ghost var lines := reader.Lines;
    ghost var i0 := i;
    var line := line;
    var acc := ObjData([], [], [], []);
    ghost var i := i;
    while line.Some?
      invariant reader.Valid() && i0 <= i <= |lines| && line == At(lines, i)
      invariant reader.Pos == (if i < |lines| then i + 1 else |lines|)
      invariant i < |lines| ==> StartsWith(lines[i], "o ")
      invariant ReadObjects(lines, i0, ObjData([], [], [], []), materials, data, parse, parseInt)
             == ReadObjects(lines, i, acc, materials, data, parse, parseInt)
      decreases |lines| - i
    {
      var so, next, pts, nrms := ReadSubObject(reader, line.value, materials, acc.Points, acc.Normals, parse, parseInt);
      if so.Failure? {
        return Failure(so.error);
      }
      var added := AddSubObject(acc.(Points := pts, Normals := nrms), so.value, data, parse);
      if added.Failure? {
        return Failure(added.error);
      }
      acc := added.value;
      line := next;
      i := BlockEnd(lines, i + 1, "o ");
    }
    r := Success(acc);
  }
}
