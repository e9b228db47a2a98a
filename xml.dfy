/** The XML attribute helpers of Xml.cs. A C# string that may be null is an
    Option<string>; an XmlAttribute is its value, None when the attribute is
    missing; number parsing (float.Parse, int.Parse) is a parameter. */
module Xml {
  import opened Wrappers

  /** An XML element, as far as the helpers look at it: its attributes. */
  datatype Node = Node(Attributes: map<string, string>)

  /** An XML element: its local name, its attributes and its child
      elements. */
  datatype Element = Element(LocalName: string, Node: Node, Children: seq<Element>)

  predicate Matches(e: Element, name: string, id: string)
  {
    e.LocalName == name && Lookup(e.Node, "id") == Some(id)
  }

  /** The k-th child is the first that matches. */
  predicate FirstMatch(children: seq<Element>, k: int, name: string, id: string)
  {
    0 <= k < |children| && Matches(children[k], name, id)
    && forall j | 0 <= j < k :: !Matches(children[j], name, id)
  }

  /** SelectSingleNode("name[@id='id']") on an element: the first child
      called `name` whose id attribute is `id`, or null. */
  function SelectChild(children: seq<Element>, name: string, id: string): (r: Option<Element>)
    ensures r.None? <==> forall k | 0 <= k < |children| :: !Matches(children[k], name, id)
    ensures r.Some? ==> exists k :: FirstMatch(children, k, name, id) && children[k] == r.value
  {
    if children == [] then None
    else if Matches(children[0], name, id) then Some(children[0])
    else
      var r := SelectChild(children[1..], name, id);
      if r.Some? then
        var k :| FirstMatch(children[1..], k, name, id) && children[1..][k] == r.value;
        assert FirstMatch(children, k + 1, name, id);
        r
      else r
  }

  /** node.Attributes[attr]: the attribute, or null when the element has none
      by that name. */
  function Lookup(node: Node, attr: string): (r: Option<string>)
    ensures r.Some? <==> attr in node.Attributes
    ensures r.Some? ==> r.value == node.Attributes[attr]
  {
    if attr in node.Attributes then Some(node.Attributes[attr]) else None
  }

  /** Xml.Attr (Xml.cs:11-16): the attribute's value, or the default when the
      node is null or has no such attribute. */
  function Attr(node: Option<Node>, attr: string, defaultValue: Option<string>): (r: Option<string>)
    ensures node.Some? && attr in node.value.Attributes ==> r == Some(node.value.Attributes[attr])
    ensures node.None? || attr !in node.value.Attributes ==> r == defaultValue
  {
    if node.None? then defaultValue
    else match Lookup(node.value, attr)
      case None => defaultValue
      case Some(v) => Some(v)
  }

  /** Xml.Float on an attribute (Xml.cs:20-23). */
  function Float(attr: Option<string>, defaultValue: real, parse: string -> real): (r: real)
    ensures attr.None? ==> r == defaultValue
    ensures attr.Some? ==> r == parse(attr.value)
  {
    match attr
    case None => defaultValue
    case Some(v) => parse(v)
  }

  /** Xml.Float on a node and an attribute name (Xml.cs:24-27). Unlike Attr
      it dereferences the node, so the node cannot be null. */
  function FloatAt(node: Node, attr: string, defaultValue: real, parse: string -> real): (r: real)
    ensures attr !in node.Attributes ==> r == defaultValue
    ensures attr in node.Attributes ==> r == parse(node.Attributes[attr])
  {
    Float(Lookup(node, attr), defaultValue, parse)
  }

  /** Xml.Int on an attribute (Xml.cs:29-32). */
  function Int(attr: Option<string>, defaultValue: int, parse: string -> int): (r: int)
    ensures attr.None? ==> r == defaultValue
    ensures attr.Some? ==> r == parse(attr.value)
  {
    match attr
    case None => defaultValue
    case Some(v) => parse(v)
  }

  /** Xml.Int on a node and an attribute name (Xml.cs:33-36). */
  function IntAt(node: Node, attr: string, defaultValue: int, parse: string -> int): (r: int)
    ensures attr !in node.Attributes ==> r == defaultValue
    ensures attr in node.Attributes ==> r == parse(node.Attributes[attr])
  {
    Int(Lookup(node, attr), defaultValue, parse)
  }

  /** Xml.IsEmpty (Xml.cs:38-40): null, a missing attribute or "". The
      attribute and string overloads coincide once a missing attribute is
      None. */
  predicate IsEmpty(str: Option<string>)
  {
    str.None? || str.value == ""
  }

  /** str.ToLower() on the letters A to Z. */
  function Lower(s: string): (r: string)
    ensures |r| == |s|
    ensures forall i | 0 <= i < |s| ::
      r[i] == if 'A' <= s[i] <= 'Z' then (s[i] - 'A' + 'a') as char else s[i]
  {
    if s == [] then []
    else [if 'A' <= s[0] <= 'Z' then (s[0] - 'A' + 'a') as char else s[0]] + Lower(s[1..])
  }

  /** Xml.IsTrue (Xml.cs:42-44): anything but null, a missing attribute,
      "", "0" and "false" in lower case. */
  predicate IsTrue(str: Option<string>)
  {
    str.Some? && str.value != "" && str.value != "0" && Lower(str.value) != "false"
  }

  /** "false" written in any mix of upper and lower case. */
  predicate SpellsFalse(s: string)
  {
    |s| == 5 && forall i | 0 <= i < 5 :: s[i] == "false"[i] || s[i] == "FALSE"[i]
  }

  /** Lower-casing gives "false" exactly for the spellings of "false". */
  lemma LowerFalse(s: string)
    ensures Lower(s) == "false" <==> SpellsFalse(s)
  {
    if SpellsFalse(s) {
      forall i | 0 <= i < 5 ensures Lower(s)[i] == "false"[i] {}
    }
    if Lower(s) == "false" {
      forall i | 0 <= i < 5 ensures s[i] == "false"[i] || s[i] == "FALSE"[i] {
        assert Lower(s)[i] == "false"[i];
      }
    }
  }

  /** The strings IsTrue rejects are null, "", "0" and the spellings of
      "false", and no others. */
  lemma IsTrueExactly(str: Option<string>)
    ensures !IsTrue(str) <==> str.None? || str.value in {"", "0"} || SpellsFalse(str.value)
  {
    if str.Some? {
      LowerFalse(str.value);
    }
  }

  /** Whatever IsTrue accepts is not empty. */
  lemma TrueIsNotEmpty(str: Option<string>)
    ensures IsTrue(str) ==> !IsEmpty(str)
  {
  }

  /** The characters the regular expression class \s matches: the ASCII
      white space, NEL and the Unicode space separators. */
  predicate IsSpace(c: char)
  {
    c in {'\U{0020}', '\U{0009}', '\U{000A}', '\U{000B}', '\U{000C}', '\U{000D}', '\U{0085}', '\U{00A0}',
          '\U{1680}', '\U{2000}', '\U{2001}', '\U{2002}', '\U{2003}', '\U{2004}', '\U{2005}', '\U{2006}',
          '\U{2007}', '\U{2008}', '\U{2009}', '\U{200A}', '\U{2028}', '\U{2029}', '\U{202F}', '\U{205F}',
          '\U{3000}'}
  }

  predicate NoSpace(s: string)
  {
    forall i | 0 <= i < |s| :: !IsSpace(s[i])
  }

  /** s without its leading run of white space. */
  function SkipSpace(s: string): (r: string)
    ensures |r| <= |s| && r == s[|s| - |r|..]
    ensures r == [] || !IsSpace(r[0])
    ensures forall i | 0 <= i < |s| - |r| :: IsSpace(s[i])
  {
    if s != [] && IsSpace(s[0]) then SkipSpace(s[1..]) else s
  }

  /** The non-space characters of s, in order. */
  function Letters(s: string): string
  {
    if s == [] then [] else (if IsSpace(s[0]) then [] else [s[0]]) + Letters(s[1..])
  }

  function Concat(ts: seq<string>): string
  {
    if ts == [] then [] else ts[0] + Concat(ts[1..])
  }

  /** Regex.Split(s) on \s+: the pieces between maximal runs of white space,
      with an empty first piece when s starts with white space and an empty
      last one when it ends with it. */
  function Split(s: string): (r: seq<string>)
    ensures |r| >= 1
    decreases |s|
  {
    if s == [] then [""]
    else if IsSpace(s[0]) then [""] + Split(SkipSpace(s))
    else var rest := Split(s[1..]); [[s[0]] + rest[0]] + rest[1..]
  }

  /** Xml.List (Xml.cs:46-48): nothing for an empty or missing value,
      otherwise the white-space separated pieces. */
  function List(data: Option<string>): (r: seq<string>)
    ensures IsEmpty(data) <==> r == []
  {
    if IsEmpty(data) then [] else Split(data.value)
  }

  /** Every piece is free of white space. */
  lemma {:induction false} SplitNoSpace(s: string)
    ensures forall t | t in Split(s) :: NoSpace(t)
    decreases |s|
  {
    if s == [] {
    } else if IsSpace(s[0]) {
      SplitNoSpace(SkipSpace(s));
    } else {
      var rest := Split(s[1..]);
      SplitNoSpace(s[1..]);
      forall t | t in Split(s) ensures NoSpace(t) {
        if t != [s[0]] + rest[0] {
          assert t in rest[1..];
        } else {
          assert rest[0] in rest;
        }
      }
    }
  }

  /** The pieces between the first and the last are not empty. */
  lemma {:induction false} SplitInnerNonEmpty(s: string)
    ensures forall i | 0 < i < |Split(s)| - 1 :: Split(s)[i] != ""
    decreases |s|
  {
    if s == [] {
    } else if IsSpace(s[0]) {
      var t := SkipSpace(s);
      SplitInnerNonEmpty(t);
      assert Split(s)[1..] == Split(t);
      if |Split(t)| > 1 {
        // t does not start with white space, so its first piece is not empty
        SplitHead(t);
      }
    } else {
      SplitInnerNonEmpty(s[1..]);
      assert Split(s)[1..] == Split(s[1..])[1..];
    }
  }

  /** Together the pieces hold every other character of the input, in
      order. */
  lemma {:induction false} SplitLetters(s: string)
    ensures Concat(Split(s)) == Letters(s)
    decreases |s|
  {
    if s == [] {
    } else if IsSpace(s[0]) {
      var t := SkipSpace(s);
      SplitLetters(t);
      LettersOfSpace(s, |s| - |t|);
      ConcatCons("", Split(t));
    } else {
      var rest := Split(s[1..]);
      SplitLetters(s[1..]);
      assert rest == [rest[0]] + rest[1..];
      ConcatCons(rest[0], rest[1..]);
      ConcatCons([s[0]] + rest[0], rest[1..]);
    }
  }

  /** The first piece of a string that starts with a non-space is not empty. */
  lemma SplitHead(s: string)
    requires s != [] && !IsSpace(s[0])
    ensures Split(s)[0] != ""
  {
  }

  lemma ConcatCons(t: string, ts: seq<string>)
    ensures Concat([t] + ts) == t + Concat(ts)
  {
    assert ([t] + ts)[1..] == ts;
  }

  /** A leading run of k spaces contributes nothing to Letters. */
  lemma {:induction false} LettersOfSpace(s: string, k: nat)
    requires k <= |s| && forall i | 0 <= i < k :: IsSpace(s[i])
    ensures Letters(s) == Letters(s[k..])
    decreases k
  {
    if k > 0 {
      LettersOfSpace(s[1..], k - 1);
      assert s[1..][k - 1..] == s[k..];
    }
  }

  /** Pieces joined by single spaces. */
  function JoinSpace(ts: seq<string>): string
    requires |ts| >= 1
  {
    if |ts| == 1 then ts[0] else ts[0] + " " + JoinSpace(ts[1..])
  }

  /** Round trip: non-empty pieces without white space, joined by single
      spaces, split back into the same pieces. */
  lemma {:induction false} SplitJoin(ts: seq<string>)
    requires |ts| >= 1
    requires forall i | 0 <= i < |ts| :: ts[i] != "" && NoSpace(ts[i])
    ensures Split(JoinSpace(ts)) == ts
    decreases |ts|
  {
    if |ts| == 1 {
      SplitWord(ts[0], []);
      assert ts[0] + [] == ts[0];
      assert Split([]) == [""];
    } else {
      var rest := JoinSpace(ts[1..]);
      SplitJoin(ts[1..]);
      JoinStarts(ts[1..]);
      var tail := " " + rest;
      assert tail[0] == ' ' && IsSpace(tail[0]);
      assert tail[1..] == rest;
      assert SkipSpace(tail) == SkipSpace(rest) == rest;
      assert Split(tail) == [""] + Split(rest);
      SplitWord(ts[0], tail);
      assert JoinSpace(ts) == ts[0] + tail;
      assert Split(tail)[0] == "" && Split(tail)[1..] == ts[1..];
      assert ts[0] + "" == ts[0];
      assert ts == [ts[0]] + ts[1..];
    }
  }

  /** A word followed by something: the word is glued to the first piece of
      what follows. */
  lemma {:induction false} SplitWord(w: string, s: string)
    requires NoSpace(w)
    ensures Split(w + s) == [w + Split(s)[0]] + Split(s)[1..]
    decreases |w|
  {
    var S := Split(s);
    if w == [] {
      assert w + s == s && w + S[0] == S[0];
      assert S == [S[0]] + S[1..];
    } else {
      var ws := w + s;
      assert ws[0] == w[0] && !IsSpace(ws[0]);
      assert ws[1..] == w[1..] + s;
      SplitWord(w[1..], s);
      var rest := Split(ws[1..]);
      assert Split(ws) == [[ws[0]] + rest[0]] + rest[1..];
      assert rest[0] == w[1..] + S[0];
      assert rest[1..] == S[1..];
      assert [w[0]] + (w[1..] + S[0]) == w + S[0];
    }
  }

  lemma JoinStarts(ts: seq<string>)
    requires |ts| >= 1 && ts[0] != "" && NoSpace(ts[0])
    ensures JoinSpace(ts) != [] && JoinSpace(ts)[0] == ts[0][0]
  {
  }
}
