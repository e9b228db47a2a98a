/** The pieces of the .NET library the OBJ and MTL readers lean on:
    String.StartsWith, IndexOf, Split on one character, and a TextReader
    over the lines of a file. */
module Text {
  import opened Wrappers

  predicate StartsWith(s: string, prefix: string)
  {
    |prefix| <= |s| && s[..|prefix|] == prefix
  }

  /** String.IndexOf(c): the first position of c, or -1. */
  function IndexOf(s: string, c: char): (k: int)
    ensures -1 <= k < |s|
    ensures k >= 0 ==> s[k] == c && c !in s[..k]
    ensures k == -1 <==> c !in s
  {
    if s == [] then -1
    else if s[0] == c then 0
    else
      var k := IndexOf(s[1..], c);
      if k == -1 then -1
      else assert s[..k + 1] == [s[0]] + s[1..][..k]; k + 1
  }

  /** String.Split(c): the pieces between the occurrences of c, empty pieces
      included. */
  function SplitOn(s: string, c: char): (r: seq<string>)
    ensures |r| >= 1
    ensures forall t | t in r :: c !in t
  {
    if s == [] then [""]
    else if s[0] == c then [""] + SplitOn(s[1..], c)
    else var rest := SplitOn(s[1..], c); assert rest[0] in rest; [[s[0]] + rest[0]] + rest[1..]
  }

  /** String.Join(c, pieces). */
  function JoinOn(ts: seq<string>, c: char): string
    requires |ts| >= 1
  {
    if |ts| == 1 then ts[0] else ts[0] + [c] + JoinOn(ts[1..], c)
  }

  /** Splitting and joining again gives back the string. */
  lemma {:induction false} JoinSplit(s: string, c: char)
    ensures JoinOn(SplitOn(s, c), c) == s
  {
    if s == [] {
    } else if s[0] == c {
      JoinSplit(s[1..], c);
      assert SplitOn(s, c)[1..] == SplitOn(s[1..], c);
      assert s == [] + [c] + s[1..];
    } else {
      var rest := SplitOn(s[1..], c);
      JoinSplit(s[1..], c);
      if |rest| == 1 {
        assert JoinOn(rest, c) == rest[0];
        assert s == [s[0]] + s[1..];
      } else {
        assert JoinOn(rest, c) == rest[0] + [c] + JoinOn(rest[1..], c);
        assert SplitOn(s, c)[1..] == rest[1..];
        assert s == [s[0]] + s[1..];
      }
    }
  }

  /** Joining pieces free of c and splitting again gives back the pieces. */
  lemma {:induction false} SplitJoin(ts: seq<string>, c: char)
    requires |ts| >= 1 && forall t | t in ts :: c !in t
    ensures SplitOn(JoinOn(ts, c), c) == ts
    decreases |ts|
  {
    if |ts| == 1 {
      SplitWord(ts[0], [], c);
      assert ts[0] + [] == ts[0];
    } else {
      assert ts[0] in ts;
      SplitJoin(ts[1..], c);
      var tail := [c] + JoinOn(ts[1..], c);
      assert tail[1..] == JoinOn(ts[1..], c);
      assert SplitOn(tail, c) == [""] + ts[1..];
      SplitWord(ts[0], tail, c);
      assert JoinOn(ts, c) == ts[0] + tail;
      assert ts[0] + "" == ts[0];
      assert ts == [ts[0]] + ts[1..];
    }
  }

  /** A piece without c is glued to the first piece of what follows it. */
  lemma {:induction false} SplitWord(w: string, s: string, c: char)
    requires c !in w
    ensures SplitOn(w + s, c) == [w + SplitOn(s, c)[0]] + SplitOn(s, c)[1..]
    decreases |w|
  {
    var S := SplitOn(s, c);
    if w == [] {
      assert w + s == s && w + S[0] == S[0];
      assert S == [S[0]] + S[1..];
    } else {
      var ws := w + s;
      assert ws[0] == w[0] && ws[1..] == w[1..] + s;
      SplitWord(w[1..], s, c);
      assert [w[0]] + (w[1..] + S[0]) == w + S[0];
    }
  }

  /** A string holding c splits into at least two pieces. */
  lemma {:induction false} SplitOnHolds(s: string, c: char)
    requires c in s
    ensures |SplitOn(s, c)| >= 2
  {
    if s[0] != c {
      SplitOnHolds(s[1..], c);
    }
  }

  /** The index of the first line at or after i that starts with `prefix`,
      or the end of the file: where a block that starts at i ends. */
  function BlockEnd(lines: seq<string>, i: nat, prefix: string): (e: nat)
    requires i <= |lines|
    ensures i <= e <= |lines|
    ensures forall k | i <= k < e :: !StartsWith(lines[k], prefix)
    ensures e < |lines| ==> StartsWith(lines[e], prefix)
    decreases |lines| - i
  {
    if i == |lines| || StartsWith(lines[i], prefix) then i else BlockEnd(lines, i + 1, prefix)
  }

  /** The line at index i of a file, or null past its end. */
  function At(lines: seq<string>, i: nat): (r: Option<string>)
    ensures r.Some? <==> i < |lines|
  {
    if i < |lines| then Some(lines[i]) else None
  }

  /** A TextReader over the lines of a file. */
  class LineReader {
    const Lines: seq<string>
    var Pos: nat

    ghost predicate Valid()
      reads this
    {
      Pos <= |Lines|
    }

    constructor (lines: seq<string>)
      ensures Valid() && Lines == lines && Pos == 0
    {
      Lines := lines;
      Pos := 0;
    }

    /** TextReader.ReadLine: the next line, or null at the end of the file. */
    method ReadLine() returns (line: Option<string>)
      requires Valid()
      modifies this`Pos
      ensures Valid()
      ensures line == At(Lines, old(Pos))
      ensures Pos == if old(Pos) < |Lines| then old(Pos) + 1 else old(Pos)
    {
      if Pos < |Lines| {
        line := Some(Lines[Pos]);
        Pos := Pos + 1;
      } else {
        line := None;
      }
    }
  }
}
