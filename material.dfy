/** Material.cs: the material registry (Material.Get, Material.Current) and
    the MTL reader of ObjMaterial. The GL calls Apply and Unapply make are
    recorded as a trace of calls; number parsing is a parameter. */
module Materials {
  import opened Wrappers
  import opened Text

  /** ObjMaterial.Color. */
  datatype Color = Color(R: real, G: real, B: real)

  /** What an ObjMaterial reads from its block of the library. */
  datatype Props = Props(Ambient: Color, Diffuse: Color, Specular: Color, Emit: Color,
                         Alpha: real, Shininess: real, Model: int,
                         TextureName: Option<string>, UsesTexture: bool)

  /** The values an ObjMaterial starts with (Material.cs:43-48); the fields the
      constructor does not set keep the zero of their type. */
  const Defaults: Props :=
    Props(Color(0.2, 0.2, 0.2), Color(0.8, 0.8, 0.8), Color(1.0, 1.0, 1.0), Color(0.0, 0.0, 0.0),
          1.0, 0.0, 1, None, false)

  const NewMtl: string := "newmtl "

  /** A material as the game holds it: a reference with a name and the
      properties read from its block. */
  class ObjMaterial {
    const Name: string
    const Props: Props

    constructor (name: string, props: Props)
      ensures Name == name && Props == props
    {
      Name := name;
      Props := props;
    }
  }

  /** ObjMaterial.GetText (Material.cs:135): everything after the first space,
      or the whole line when it has none. */
  function GetText(line: string): string
  {
    line[IndexOf(line, ' ') + 1..]
  }

  /** GetText gives a suffix of the line: the whole line when it has no
      space, and otherwise what follows its first space. */
  lemma GetTextShape(line: string)
    ensures var r := GetText(line);
      && |r| <= |line| && r == line[|line| - |r|..]
      && (' ' !in line ==> r == line)
      && (' ' in line ==> |r| < |line| && line[|line| - |r| - 1] == ' ' && ' ' !in line[..|line| - |r| - 1])
  {
  }

  /** A word without spaces, a space, and the rest: GetText gives the rest. */
  lemma GetTextAfterWord(w: string, t: string)
    requires ' ' !in w
    ensures GetText(w + " " + t) == t
  {
    var line := w + " " + t;
    assert line[|w|] == ' ';
    assert forall j | 0 <= j < |w| :: line[j] == w[j];
    forall k | |w| < k <= |line| ensures ' ' in line[..k] {
      assert line[..k][|w|] == ' ';
    }
    assert IndexOf(line, ' ') == |w|;
    assert line[|w| + 1..] == t;
  }

  /** ObjMaterial.GetValue (Material.cs:134). */
  function GetValue(line: string, parse: string -> real): real
  {
    parse(GetText(line))
  }

  /** ObjMaterial.GetColor (Material.cs:125-132): the three numbers after
      the keyword, or a grey of the first when there are not exactly three.
      The line holds a space: the keywords that lead here end in one. */
  function GetColor(line: string, parse: string -> real): (r: Color)
    requires |SplitOn(line, ' ')| >= 2
    ensures |SplitOn(line, ' ')| == 4 ==>
      r == Color(parse(SplitOn(line, ' ')[1]), parse(SplitOn(line, ' ')[2]), parse(SplitOn(line, ' ')[3]))
    ensures |SplitOn(line, ' ')| != 4 ==> r.R == r.G == r.B == parse(SplitOn(line, ' ')[1])
  {
    var c := SplitOn(line, ' ');
    if |c| == 4 then Color(parse(c[1]), parse(c[2]), parse(c[3]))
    else var v := parse(c[1]); Color(v, v, v)
  }

  /** A colour line written "Kd r g b" reads back as (r, g, b), and one
      written "Kd v" as the grey (v, v, v). */
  lemma GetColorOfLine(key: string, vs: seq<string>, parse: string -> real)
    requires |vs| == 1 || |vs| == 3
    requires ' ' !in key && forall v | v in vs :: ' ' !in v
    ensures var line := JoinOn([key] + vs, ' ');
      |SplitOn(line, ' ')| >= 2 &&
      GetColor(line, parse) == if |vs| == 3 then Color(parse(vs[0]), parse(vs[1]), parse(vs[2]))
                               else Color(parse(vs[0]), parse(vs[0]), parse(vs[0]))
  {
    var ts := [key] + vs;
    assert forall t | t in ts :: ' ' !in t;
    SplitJoin(ts, ' ');
    assert JoinOn(ts, ' ') == key + [' '] + JoinOn(ts[1..], ' ');
    assert JoinOn(ts, ' ')[|key|] == ' ';
  }

  /** The (int) cast of a float: truncation toward zero. */
  function Trunc(x: real): (r: int)
    ensures x >= 0.0 ==> r as real <= x < r as real + 1.0
    ensures x < 0.0 ==> r as real - 1.0 < x <= r as real
  {
    if x >= 0.0 then x.Floor else -((-x).Floor)
  }

  /** One line of a material's block (Material.cs:53-62), in the order the
      keywords are tried. */
  function ApplyLine(p: Props, line: string, parse: string -> real): (r: Props)
    ensures StartsWith(line, "Ka ") ==> |SplitOn(line, ' ')| >= 2 && r == p.(Ambient := GetColor(line, parse))
    ensures StartsWith(line, "Kd ") ==> |SplitOn(line, ' ')| >= 2 && r == p.(Diffuse := GetColor(line, parse))
    ensures StartsWith(line, "Ks ") ==> |SplitOn(line, ' ')| >= 2 && r == p.(Specular := GetColor(line, parse))
    ensures StartsWith(line, "d ") || StartsWith(line, "Tr ") ==> r == p.(Alpha := GetValue(line, parse))
    ensures StartsWith(line, "Ns ") ==> r == p.(Shininess := GetValue(line, parse) * (128.0 / 1000.0))
    ensures StartsWith(line, "illum") ==> r == p.(Model := Trunc(GetValue(line, parse)))
    ensures StartsWith(line, "map_Kd") ==> r == p.(TextureName := Some(GetText(line)), UsesTexture := true)
    // a line with none of the keywords changes nothing
    ensures (!StartsWith(line, "Ka ") && !StartsWith(line, "Kd ") && !StartsWith(line, "Ks ") &&
             !StartsWith(line, "d ") && !StartsWith(line, "Tr ") && !StartsWith(line, "Ns ") &&
             !StartsWith(line, "illum") && !StartsWith(line, "map_Kd")) ==> r == p
  {
    if StartsWith(line, "Ka ") then assert line[2] == ' '; SplitOnHolds(line, ' '); p.(Ambient := GetColor(line, parse))
    else if StartsWith(line, "Kd ") then assert line[2] == ' '; SplitOnHolds(line, ' '); p.(Diffuse := GetColor(line, parse))
    else if StartsWith(line, "Ks ") then assert line[2] == ' '; SplitOnHolds(line, ' '); p.(Specular := GetColor(line, parse))
    else if StartsWith(line, "d ") || StartsWith(line, "Tr ") then p.(Alpha := GetValue(line, parse))
    else if StartsWith(line, "Ns ") then p.(Shininess := GetValue(line, parse) * (128.0 / 1000.0))
    else if StartsWith(line, "illum") then p.(Model := Trunc(GetValue(line, parse)))
    else if StartsWith(line, "map_Kd") then p.(TextureName := Some(GetText(line)), UsesTexture := true)
    else p
  }

  /** The properties of a material whose block is `block`: the defaults, then
      each line in turn. */
  function Fold(block: seq<string>, parse: string -> real): Props
  {
    if block == [] then Defaults
    else ApplyLine(Fold(block[..|block| - 1], parse), block[|block| - 1], parse)
  }

  /** Folding one line further applies that line. */
  lemma FoldStep(lines: seq<string>, i: nat, j: nat, parse: string -> real)
    requires i <= j < |lines|
    ensures Fold(lines[i..j + 1], parse) == ApplyLine(Fold(lines[i..j], parse), lines[j], parse)
  {
    var block := lines[i..j + 1];
    assert block[..|block| - 1] == lines[i..j] && block[|block| - 1] == lines[j];
    assert Fold(block, parse) == ApplyLine(Fold(block[..|block| - 1], parse), block[|block| - 1], parse);
  }

  predicate SetsAlpha(line: string)
  {
    StartsWith(line, "d ") || StartsWith(line, "Tr ")
  }

  /** The alpha named by the last "d " or "Tr " line of a block, or 1. */
  function LastAlpha(block: seq<string>, parse: string -> real): real
  {
    if block == [] then 1.0
    else if SetsAlpha(block[|block| - 1]) then GetValue(block[|block| - 1], parse)
    else LastAlpha(block[..|block| - 1], parse)
  }

  /** A material's alpha is the one its last "d " or "Tr " line names; any
      earlier one is overridden, and no such line leaves it at 1. */
  lemma {:induction false} AlphaIsLast(block: seq<string>, parse: string -> real)
    ensures Fold(block, parse).Alpha == LastAlpha(block, parse)
  {
    if block != [] {
      AlphaIsLast(block[..|block| - 1], parse);
      LineEffect(Fold(block[..|block| - 1], parse), block[|block| - 1], parse);
    }
  }

  /** Which fields a line can touch: only a "d " or "Tr " line sets the
      alpha, and only a "map_Kd" line turns texturing on. */
  lemma LineEffect(p: Props, line: string, parse: string -> real)
    ensures !SetsAlpha(line) ==> ApplyLine(p, line, parse).Alpha == p.Alpha
    ensures ApplyLine(p, line, parse).UsesTexture <==> p.UsesTexture || StartsWith(line, "map_Kd")
  {
    if StartsWith(line, "Ka ") || StartsWith(line, "Kd ") || StartsWith(line, "Ks ") {
      assert line[0] == 'K' && line[2] == ' ';
      SplitOnHolds(line, ' ');
      assert !SetsAlpha(line) && !StartsWith(line, "map_Kd");
    } else if SetsAlpha(line) {
      assert line[0] == 'd' || line[0] == 'T';
      assert !StartsWith(line, "map_Kd");
    } else if StartsWith(line, "Ns ") || StartsWith(line, "illum") {
      assert line[0] == 'N' || line[0] == 'i';
      assert !StartsWith(line, "map_Kd");
    }
  }

  /** Some line of the block sets a texture. */
  predicate HasMapLine(block: seq<string>)
  {
    exists k | 0 <= k < |block| :: StartsWith(block[k], "map_Kd")
  }

  lemma HasMapLineSnoc(block: seq<string>)
    requires block != []
    ensures HasMapLine(block) <==>
      HasMapLine(block[..|block| - 1]) || StartsWith(block[|block| - 1], "map_Kd")
  {
    var init := block[..|block| - 1];
    if HasMapLine(init) {
      var k :| 0 <= k < |init| && StartsWith(init[k], "map_Kd");
      assert block[k] == init[k];
    }
    if HasMapLine(block) {
      var k :| 0 <= k < |block| && StartsWith(block[k], "map_Kd");
      if k < |init| {
        assert init[k] == block[k];
      }
    }
  }

  /** A material uses a texture exactly when its block has a "map_Kd" line. */
  lemma {:induction false} TextureIffMapLine(block: seq<string>, parse: string -> real)
    ensures Fold(block, parse).UsesTexture <==> HasMapLine(block)
  {
    if block != [] {
      var line := block[|block| - 1];
      TextureIffMapLine(block[..|block| - 1], parse);
      HasMapLineSnoc(block);
      LineEffect(Fold(block[..|block| - 1], parse), line, parse);
    }
  }

  /** A block that has reached line p, which is or is not the next "newmtl "
      line, ends there or goes on. */
  lemma BlockEndAt(lines: seq<string>, start: nat, p: nat, prefix: string)
    requires start <= |lines| && start <= p <= BlockEnd(lines, start, prefix)
    ensures p < |lines| && !StartsWith(lines[p], prefix) ==> p < BlockEnd(lines, start, prefix)
    ensures p == |lines| || StartsWith(lines[p], prefix) ==> p == BlockEnd(lines, start, prefix)
  {
  }

  /** The ObjMaterial constructor (Material.cs:42-64): the material named by
      `nameLine`, read from the lines that follow up to the next "newmtl "
      line or the end of the file; that line (or null) is handed back. */
  method ReadMaterial(reader: LineReader, nameLine: string, parse: string -> real)
      returns (m: ObjMaterial, next: Option<string>)
    requires reader.Valid() && StartsWith(nameLine, NewMtl)
    modifies reader`Pos
    ensures reader.Valid() && fresh(m)
    ensures var e := BlockEnd(reader.Lines, old(reader.Pos), NewMtl);
      && m.Name == nameLine[7..]
      && m.Props == Fold(reader.Lines[old(reader.Pos)..e], parse)
      && next == At(reader.Lines, e)
      && reader.Pos == if e < |reader.Lines| then e + 1 else e
  {
    ghost var start := reader.Pos;
    ghost var e := BlockEnd(reader.Lines, start, NewMtl);
    var props := Defaults;
    while true
      invariant reader.Valid() && start <= reader.Pos <= e
      invariant props == Fold(reader.Lines[start..reader.Pos], parse)
      decreases |reader.Lines| - reader.Pos
    {
      ghost var p := reader.Pos;
      BlockEndAt(reader.Lines, start, p, NewMtl);
      var line := reader.ReadLine();
      if line.None? || StartsWith(line.value, NewMtl) {
        next := line;
        break;
      }
      FoldStep(reader.Lines, start, p, parse);
      props := ApplyLine(props, line.value, parse);
    }
    m := new ObjMaterial(nameLine[7..], props);
  }

  /** The materials a library defines from line i on, by name; a later
      definition of a name replaces an earlier one. */
  function DefsFrom(lines: seq<string>, i: nat, parse: string -> real): map<string, Props>
    requires i <= |lines|
    decreases |lines| - i
  {
    if i == |lines| then map[]
    else if StartsWith(lines[i], NewMtl) then
      var e := BlockEnd(lines, i + 1, NewMtl);
      map[lines[i][7..] := Fold(lines[i + 1..e], parse)] + DefsFrom(lines, e, parse)
    else DefsFrom(lines, i + 1, parse)
  }

  /** Line k of the file starts the definition of material n. */
  predicate Defines(lines: seq<string>, k: int, n: string)
  {
    0 <= k < |lines| && StartsWith(lines[k], NewMtl) && lines[k][7..] == n
  }

  /** The names a library defines are the names on its "newmtl " lines. */
  lemma {:induction false} DefsNames(lines: seq<string>, i: nat, parse: string -> real, n: string)
    requires i <= |lines|
    ensures n in DefsFrom(lines, i, parse) <==> exists k | i <= k :: Defines(lines, k, n)
    decreases |lines| - i
  {
    if i < |lines| {
      if StartsWith(lines[i], NewMtl) {
        var e := BlockEnd(lines, i + 1, NewMtl);
        DefsNames(lines, e, parse, n);
        if n == lines[i][7..] {
          assert Defines(lines, i, n);
        }
        if exists k | i <= k :: Defines(lines, k, n) {
          var k :| i <= k && Defines(lines, k, n);
          if k != i {
            assert e <= k;
            assert n in DefsFrom(lines, e, parse);
          }
        }
      } else {
        DefsNames(lines, i + 1, parse, n);
        if exists k | i <= k :: Defines(lines, k, n) {
          var k :| i <= k && Defines(lines, k, n);
          assert i + 1 <= k;
        }
      }
    }
  }

  /** The properties stored under a name come from its last definition. */
  lemma {:induction false} LastDefinitionWins(lines: seq<string>, i: nat, parse: string -> real, n: string, k: nat)
    requires i <= k && Defines(lines, k, n)
    requires forall j | k < j :: !Defines(lines, j, n)
    ensures n in DefsFrom(lines, i, parse)
    ensures DefsFrom(lines, i, parse)[n] == Fold(lines[k + 1..BlockEnd(lines, k + 1, NewMtl)], parse)
    decreases |lines| - i
  {
    if StartsWith(lines[i], NewMtl) {
      var e := BlockEnd(lines, i + 1, NewMtl);
      if i == k {
        DefsNames(lines, e, parse, n);
      } else {
        assert e <= k;
        LastDefinitionWins(lines, e, parse, n, k);
      }
    } else {
      LastDefinitionWins(lines, i + 1, parse, n, k);
    }
  }

  /** A call Apply or Unapply makes on the GL state. */
  datatype GlCall = Apply(m: ObjMaterial) | Unapply(m: ObjMaterial)

  /** The material a trace of calls leaves applied, starting from none; None
      when the trace applies a material while another is applied, or
      unapplies one that is not. */
  function Replay(calls: seq<GlCall>): Option<ObjMaterial?>
  {
    if calls == [] then Some(null)
    else match Replay(calls[..|calls| - 1])
      case None => None
      case Some(cur) => Step(cur, calls[|calls| - 1])
  }

  /** One call made while `cur` is applied. */
  function Step(cur: ObjMaterial?, call: GlCall): Option<ObjMaterial?>
  {
    match call
    case Apply(m) => if cur == null then Some(m) else None
    case Unapply(m) => var none: ObjMaterial? := null; if cur == m then Some(none) else None
  }

  /** The calls the Current setter makes when switching from a to b
      (Material.cs:19-23). */
  function Switch(a: ObjMaterial?, b: ObjMaterial?): seq<GlCall>
  {
    if a == b then []
    else (if a != null then [Unapply(a)] else []) + (if b != null then [Apply(b)] else [])
  }

  /** Switching from the applied material to another leaves exactly the new
      one applied: materials are never applied on top of each other. */
  lemma SwitchReplays(calls: seq<GlCall>, a: ObjMaterial?, b: ObjMaterial?)
    requires Replay(calls) == Some(a)
    ensures Replay(calls + Switch(a, b)) == Some(b)
  {
    if a != b {
      if a != null {
        var c1 := calls + [Unapply(a)];
        assert c1[..|c1| - 1] == calls;
        if b != null {
          var c2 := c1 + [Apply(b)];
          assert c2[..|c2| - 1] == c1;
          assert calls + Switch(a, b) == c2;
        } else {
          assert calls + Switch(a, b) == c1;
        }
      } else {
        var c2 := calls + [Apply(b)];
        assert c2[..|c2| - 1] == calls;
        assert calls + Switch(a, b) == c2;
      }
    } else {
      assert calls + Switch(a, b) == calls;
    }
  }

  /** The static state of Material and ObjMaterial: the materials by name,
      the current material, the libraries recorded as loaded, and the GL
      calls made so far. */
  class Registry {
    var Materials: map<string, ObjMaterial>
    var Current: ObjMaterial?
    var Loaded: Option<seq<string>>
    var Calls: seq<GlCall>

    ghost predicate Valid()
      reads this, Materials.Values
    {
      && (forall n | n in Materials :: Materials[n].Name == n)
      && Replay(Calls) == Some(Current)
    }

    constructor ()
      ensures Valid() && Materials == map[] && Current == null && Loaded == None && Calls == []
    {
      Materials := map[];
      Current := null;
      Loaded := None;
      Calls := [];
    }

    /** Material.Get (Material.cs:27): the dictionary indexer, which throws
        for a name that was never registered. */
    function Get(name: string): (r: Result<ObjMaterial>)
      reads this
      ensures r.Success? <==> name in Materials
      ensures r.Success? ==> r.value == Materials[name]
    {
      if name in Materials then Success(Materials[name]) else Failure("KeyNotFoundException: " + name)
    }

    /** The Current setter (Material.cs:16-25). */
    method SetCurrent(value: ObjMaterial?)
      requires Valid()
      modifies this`Current, this`Calls
      ensures Valid() && Current == value
      ensures Calls == old(Calls) + Switch(old(Current), value)
      ensures old(Current) == value ==> Calls == old(Calls)
    {
      SwitchReplays(Calls, Current, value);
      if Current != value {
        if Current != null {
          Calls := Calls + [Unapply(Current)];
        }
        if value != null {
          Calls := Calls + [Apply(value)];
        }
        Current := value;
      }
    }

    /** The properties of the registered materials, by name. */
    function PropsOf(): (r: map<string, Props>)
      reads this
      ensures r.Keys == Materials.Keys
    {
      map n | n in Materials :: Materials[n].Props
    }

    /** The libraries recorded as loaded and the registered materials'
        properties. */
    function LibsOf(): (r: Libs)
      reads this
      ensures r.Loaded == Loaded && r.Props.Keys == Materials.Keys
    {
      Libs(Loaded, PropsOf())
    }

    /** ObjMaterial.LoadLibrary (Material.cs:75-90), `file` being the lines
        of the library. Only the first path ever loaded is remembered, so
        only loading that one again is skipped; otherwise every material the
        file defines is registered under its name, replacing any earlier
        one. */
    method LoadLibrary(path: string, file: seq<string>, parse: string -> real)
      requires Valid()
      modifies this`Materials, this`Loaded
      ensures Valid() && Loaded == Recorded(old(Loaded), path)
      ensures Skips(old(Loaded), path) ==> Materials == old(Materials)
      ensures !Skips(old(Loaded), path) ==> PropsOf() == old(PropsOf()) + DefsFrom(file, 0, parse)
      ensures forall n | n in Materials :: (n in old(Materials) && Materials[n] == old(Materials[n])) || fresh(Materials[n])
    {
      if Loaded.None? {
        Loaded := Some([path]);
      } else if path in Loaded.value {
        return;
      }
      var reader := new LineReader(file);
      var line := reader.ReadLine();
      ReadAll(reader, line, parse);
    }

    /** LoadLibrary as it is evidently meant to work: every path loaded is
        remembered, so any library is read at most once. */
    method LoadLibraryOnce(path: string, file: seq<string>, parse: string -> real)
      requires Valid()
      modifies this`Materials, this`Loaded
      ensures Valid() && Loaded == RecordedAll(old(Loaded), path)
      ensures Skips(old(Loaded), path) ==> Materials == old(Materials)
      ensures !Skips(old(Loaded), path) ==> PropsOf() == old(PropsOf()) + DefsFrom(file, 0, parse)
      ensures LibsOf() == LoadOnce(old(LibsOf()), path, file, parse)
      ensures forall n | n in Materials :: (n in old(Materials) && Materials[n] == old(Materials[n])) || fresh(Materials[n])
    {
      if Loaded.None? {
        Loaded := Some([path]);
      } else if path in Loaded.value {
        return;
      } else {
        Loaded := Some(Loaded.value + [path]);
      }
      var reader := new LineReader(file);
      var line := reader.ReadLine();
      ReadAll(reader, line, parse);
    }

    /** The loop of LoadLibrary (Material.cs:80-88), `line` being the first
        line of the file: lines before a "newmtl " line are skipped, and each
        material is registered as it is read. */
    method ReadAll(reader: LineReader, line: Option<string>, parse: string -> real)
      requires reader.Valid() && line == At(reader.Lines, 0)
      requires reader.Pos == if |reader.Lines| > 0 then 1 else 0
      requires forall n | n in Materials :: Materials[n].Name == n
      modifies reader`Pos, this`Materials
      ensures forall n | n in Materials :: Materials[n].Name == n
      ensures PropsOf() == old(PropsOf()) + DefsFrom(reader.Lines, 0, parse)
      ensures forall n | n in Materials :: (n in old(Materials) && Materials[n] == old(Materials[n])) || fresh(Materials[n])
    {
      var line := line;
      ghost var file := reader.Lines;
      ghost var i: nat := 0;
      ghost var props0 := PropsOf();
      ghost var mats0 := Materials;
      assert DefsFrom(file, |file|, parse) == map[];
      while true
        invariant reader.Valid() && reader.Lines == file
        invariant i <= |file| && line == At(file, i)
        invariant reader.Pos == if i < |file| then i + 1 else i
        invariant forall n | n in Materials :: Materials[n].Name == n
        invariant PropsOf() + DefsFrom(file, i, parse) == props0 + DefsFrom(file, 0, parse)
        invariant forall n | n in Materials :: (n in mats0 && Materials[n] == mats0[n]) || fresh(Materials[n])
        decreases |file| - i
      {
        if line.None? {
          assert PropsOf() + map[] == PropsOf();
          break;
        }
        if StartsWith(line.value, NewMtl) {
          line, i := AddMaterial(reader, line.value, parse, i);
        } else {
          line := reader.ReadLine();
          i := i + 1;
        }
      }
    }

    /** One pass of LoadLibrary's loop at a "newmtl " line, the i-th of the
        file: the material is read and registered under its name. */
    method AddMaterial(reader: LineReader, nameLine: string, parse: string -> real, ghost i: nat)
        returns (line: Option<string>, ghost e: nat)
      requires reader.Valid() && i < |reader.Lines| && nameLine == reader.Lines[i]
      requires StartsWith(nameLine, NewMtl) && reader.Pos == i + 1
      requires forall n | n in Materials :: Materials[n].Name == n
      modifies reader`Pos, this`Materials
      ensures reader.Valid() && i < e <= |reader.Lines| && line == At(reader.Lines, e)
      ensures reader.Pos == if e < |reader.Lines| then e + 1 else e
      ensures forall n | n in Materials :: Materials[n].Name == n
      ensures PropsOf() + DefsFrom(reader.Lines, e, parse) == old(PropsOf()) + DefsFrom(reader.Lines, i, parse)
      ensures forall n | n in Materials :: (n in old(Materials) && Materials[n] == old(Materials[n])) || fresh(Materials[n])
    {
      var m;
      ghost var before := PropsOf();
      m, line := ReadMaterial(reader, nameLine, parse);
      e := BlockEnd(reader.Lines, i + 1, NewMtl);
      Materials := Materials[m.Name := m];
      assert PropsOf() == before[m.Name := m.Props];
      UnionStep(before, m.Name, m.Props, DefsFrom(reader.Lines, e, parse));
    }
  }

  /** What the registry knows of the libraries: the paths recorded as
      loaded and the registered materials' properties by name. */
  datatype Libs = Libs(Loaded: Option<seq<string>>, Props: map<string, Props>)

  /** LoadLibraryOnce(path, file) on Libs: a path loaded before changes
      nothing; any other is recorded, and the materials the file defines
      are registered over the earlier ones. */
  function LoadOnce(libs: Libs, path: string, file: seq<string>, parse: string -> real): (r: Libs)
    ensures Skips(r.Loaded, path)
    ensures Skips(libs.Loaded, path) ==> r == libs
    ensures !Skips(libs.Loaded, path) ==> r.Props == libs.Props + DefsFrom(file, 0, parse)
    ensures forall p | Skips(libs.Loaded, p) :: Skips(r.Loaded, p)
  {
    if Skips(libs.Loaded, path) then libs
    else Libs(RecordedAll(libs.Loaded, path), libs.Props + DefsFrom(file, 0, parse))
  }

  /** LoadLibrary returns early: the path is in the list of loaded ones. */
  predicate Skips(loaded: Option<seq<string>>, path: string)
  {
    loaded.Some? && path in loaded.value
  }

  /** The list of loaded libraries after LoadLibrary as written
      (Material.cs:76-77): the first path starts it and nothing is added
      later. */
  function Recorded(loaded: Option<seq<string>>, path: string): (r: Option<seq<string>>)
    ensures r.Some? && (loaded.Some? ==> r == loaded)
  {
    if loaded.None? then Some([path]) else loaded
  }

  /** The list after a load that remembers every path. */
  function RecordedAll(loaded: Option<seq<string>>, path: string): (r: Option<seq<string>>)
    ensures r.Some? && path in r.value
    ensures loaded.Some? ==> loaded.value <= r.value
  {
    if loaded.None? then Some([path])
    else if path in loaded.value then loaded
    else Some(loaded.value + [path])
  }

  /** The list after loading the given paths in order, as written and as
      meant. */
  function RecordedSeq(paths: seq<string>): Option<seq<string>>
  {
    if paths == [] then None else Recorded(RecordedSeq(paths[..|paths| - 1]), paths[|paths| - 1])
  }

  function RecordedAllSeq(paths: seq<string>): Option<seq<string>>
  {
    if paths == [] then None else RecordedAll(RecordedAllSeq(paths[..|paths| - 1]), paths[|paths| - 1])
  }

  /** As written, after any run of loads only the very first path is
      skipped when loaded again. */
  lemma {:induction false} OnlyFirstSkipped(paths: seq<string>, p: string)
    ensures Skips(RecordedSeq(paths), p) <==> paths != [] && p == paths[0]
  {
    if |paths| > 1 {
      OnlyFirstSkipped(paths[..|paths| - 1], p);
    }
  }

  /** So a second library is read again each time it is loaded. */
  lemma SecondLibraryReread()
    ensures !Skips(RecordedSeq(["a.mtl", "b.mtl"]), "b.mtl")
  {
    OnlyFirstSkipped(["a.mtl", "b.mtl"], "b.mtl");
  }

  /** As meant, a load is skipped exactly when the path was loaded before. */
  lemma {:induction false} EveryLoadRemembered(paths: seq<string>, p: string)
    ensures Skips(RecordedAllSeq(paths), p) <==> p in paths
  {
    if paths != [] {
      var init := paths[..|paths| - 1];
      EveryLoadRemembered(init, p);
      assert paths == init + [paths[|paths| - 1]];
    }
  }

  /** Registering one definition and then the rest is registering them all. */
  lemma UnionStep(before: map<string, Props>, n: string, p: Props, rest: map<string, Props>)
    ensures before[n := p] + rest == before + (map[n := p] + rest)
  {
  }
}
