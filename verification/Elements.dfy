/**
 The WebDriverAgent element tree: integer parsing, the depth-first walk, the type filter
 and the numbering of the survivors (internal/driver/wda/elements.go and Look in
 internal/core/screen_capture.go).
 */
module Elements {
  import opened GoInt

  // ---------------------------------------------------------------- integer parsing

  /** How many characters of s, from position i on, are digits without a gap. */
  function DigitRun(s: string, i: nat): (n: nat)
    requires i <= |s|
    ensures i + n <= |s|
    ensures forall k | i <= k < i + n :: IsDigit(s[k])
    ensures i + n < |s| ==> !IsDigit(s[i + n])
    decreases |s| - i
  {
    if i < |s| && IsDigit(s[i]) then 1 + DigitRun(s, i + 1) else 0
  }

  function SignLength(s: string): (n: nat)
    ensures n <= |s|
  {
    if s != "" && s[0] == '-' then 1 else 0
  }

  /** The integer an optional minus sign and the longest run of digits after it denote. */
  function PrefixValue(s: string): int {
    var i := SignLength(s);
    var v: int := DigitsValue(s[i..i + DigitRun(s, i)]);
    if i == 1 then -v else v
  }

  lemma WrapStep(v: int, d: int)
    ensures Wrap64(Wrap64(v) * 10 + d) == Wrap64(v * 10 + d)
  {
    var j := Wrap64Congruent(v);
    var k := Wrap64Congruent(v * 10 + d);
    assert Wrap64(v) * 10 + d == Wrap64(v * 10 + d) + (k - 10 * j) * TWO64;
    Wrap64Unique(Wrap64(v) * 10 + d, Wrap64(v * 10 + d), k - 10 * j);
  }

  lemma WrapNegate(v: int)
    ensures Wrap64(-Wrap64(v)) == Wrap64(-v)
  {
    var j := Wrap64Congruent(v);
    var k := Wrap64Congruent(-v);
    assert -Wrap64(v) == Wrap64(-v) + (k + j) * TWO64;
    Wrap64Unique(-Wrap64(v), Wrap64(-v), k + j);
  }

  lemma NextDigit(s: string, start: nat, i: nat)
    requires start <= i < |s| && forall k | start <= k <= i :: IsDigit(s[k])
    ensures Wrap64(Wrap64(DigitsValue(s[start..i])) * 10 + DigitValue(s[i])) == Wrap64(DigitsValue(s[start..i + 1]))
  {
    assert s[start..i + 1][..i - start] == s[start..i];
    WrapStep(DigitsValue(s[start..i]), DigitValue(s[i]));
  }

  /** The hand-written parser, every operation on Go's wrapping int. */
  method Atoi(s: string) returns (r: int)
    ensures r == Wrap64(PrefixValue(s))
  {
    if s == "" {
      return 0;
    }
    var n := 0;
    var neg := false;
    var i := 0;
    if i < |s| && s[i] == '-' {
      neg := true;
      i := i + 1;
    }
    ghost var start := i;
    ghost var run := DigitRun(s, start);
    while i < |s|
      invariant start == SignLength(s) && start <= i <= start + run
      invariant n == Wrap64(DigitsValue(s[start..i]))
    {
      var c := s[i];
      if c < '0' || c > '9' {
        break;
      }
      NextDigit(s, start, i);
      n := Wrap64(n * 10 + DigitValue(c));
      i := i + 1;
    }
    assert i == start + run;
    if neg {
      WrapNegate(DigitsValue(s[start..start + run]));
      return Wrap64(-n);
    }
    return n;
  }

  lemma {:induction false} DigitRunOfPrefix(s: string, t: string, i: nat)
    requires i <= |s| && (t == "" || !IsDigit(t[0]))
    ensures DigitRun(s + t, i) == DigitRun(s, i)
    decreases |s| - i
  {
    if i < |s| {
      DigitRunOfPrefix(s, t, i + 1);
    }
  }

  /** Text after the number that does not start with a digit is ignored. */
  lemma TrailingTextIgnored(s: string, t: string)
    requires s != "" && (t == "" || !IsDigit(t[0]))
    ensures PrefixValue(s + t) == PrefixValue(s)
  {
    var i := SignLength(s);
    DigitRunOfPrefix(s, t, i);
    assert (s + t)[i..i + DigitRun(s, i)] == s[i..i + DigitRun(s, i)];
  }

  /** Every text is an optional minus sign, digits, and a rest that does not start with one; the rest does not count. */
  lemma PrefixValueExactly(digits: string, rest: string)
    requires forall c | c in digits :: IsDigit(c)
    requires rest == "" || !IsDigit(rest[0])
    ensures PrefixValue("-" + digits + rest) == -(DigitsValue(digits) as int)
    ensures digits != "" || rest == "" || rest[0] != '-' ==> PrefixValue(digits + rest) == DigitsValue(digits)
  {
    TrailingTextIgnored("-" + digits, rest);
    ParsesNegative(digits);
    if digits != "" {
      TrailingTextIgnored(digits, rest);
      ParsesDigits(digits);
    } else if rest == "" || rest[0] != '-' {
      assert digits + rest == rest && SignLength(rest) == 0 && DigitRun(rest, 0) == 0;
      assert rest[0..0] == "";
    }
  }

  lemma {:induction false} AllDigitsRun(s: string, i: nat)
    requires i <= |s| && forall k | i <= k < |s| :: IsDigit(s[k])
    ensures DigitRun(s, i) == |s| - i
    decreases |s| - i
  {
    if i < |s| {
      AllDigitsRun(s, i + 1);
    }
  }

  lemma ParsesDecimal(n: int)
    ensures PrefixValue(Decimal(n)) == n
  {
    DecimalNatValue(if n < 0 then -n else n);
    if n < 0 {
      ParsesNegative(DecimalNat(-n));
    } else {
      ParsesDigits(DecimalNat(n));
    }
  }

  lemma ParsesDigits(digits: string)
    requires digits != "" && forall c | c in digits :: IsDigit(c)
    ensures PrefixValue(digits) == DigitsValue(digits)
  {
    assert digits[0] in digits;
    assert digits[0..] == digits;
    ReadsToTheEnd(digits);
  }

  lemma ParsesNegative(digits: string)
    requires forall c | c in digits :: IsDigit(c)
    ensures PrefixValue("-" + digits) == -(DigitsValue(digits) as int)
  {
    var s := "-" + digits;
    assert s[1..] == digits;
    ReadsToTheEnd(s);
  }

  lemma ReadsToTheEnd(s: string)
    requires forall k | SignLength(s) <= k < |s| :: IsDigit(s[k])
    ensures PrefixValue(s) == var v: int := DigitsValue(s[SignLength(s)..]); if SignLength(s) == 1 then -v else v
  {
    var i := SignLength(s);
    AllDigitsRun(s, i);
    assert s[i..i + DigitRun(s, i)] == s[i..];
  }

  /** Parsing inverts printing on every int64, the minimum included. */
  lemma PrintThenParse(n: int64, rest: string)
    requires rest == "" || !IsDigit(rest[0])
    ensures Wrap64(PrefixValue(Decimal(n) + rest)) == n
  {
    ParsesDecimal(n);
    TrailingTextIgnored(Decimal(n), rest);
  }

  // ---------------------------------------------------------------- the element tree

  datatype XmlNode = XmlNode(name: string, attrs: seq<(string, string)>, children: seq<XmlNode>)
  {
    /** The value of the first attribute with that name, "" if there is none. */
    function Attr(key: string): string {
      AttrIn(attrs, key)
    }

    predicate Named() {
      name != "" && name != "AppiumAUT"
    }
  }

  function AttrIn(attrs: seq<(string, string)>, key: string): string {
    if attrs == [] then "" else if attrs[0].0 == key then attrs[0].1 else AttrIn(attrs[1..], key)
  }

  datatype Frame = Frame(x: int64, y: int64, w: int64, h: int64)
  datatype Point = Point(x: int64, y: int64)
  datatype WDAElement = WDAElement(kind: string, text: string, frame: Frame, center: Point)

  function CenterOf(f: Frame): Point {
    Point(Wrap64(f.x + Quotient(f.w, 2)), Wrap64(f.y + Quotient(f.h, 2)))
  }

  function LowerChar(c: char): char {
    if 'A' <= c <= 'Z' then (c as int + 32) as char else c
  }

  function ToLower(s: string): string {
    seq(|s|, i requires 0 <= i < |s| => LowerChar(s[i]))
  }

  const XCUI := "XCUIElementType"

  function MapTypeName(name: string): string {
    if name == XCUI + "Button" then "button"
    else if name == XCUI + "TextField" || name == XCUI + "SecureTextField" then "textfield"
    else if name == XCUI + "Switch" then "switch"
    else if name == XCUI + "Link" then "link"
    else if name == XCUI + "Cell" then "cell"
    else if name == XCUI + "StaticText" then "text"
    else if XCUI <= name then ToLower(name[|XCUI|..])
    else ToLower(name)
  }

  function LabelOf(node: XmlNode): string {
    if node.Attr("name") != "" then node.Attr("name")
    else if node.Attr("label") != "" then node.Attr("label")
    else node.Attr("value")
  }

  function FrameOf(node: XmlNode): Frame {
    Frame(Wrap64(PrefixValue(node.Attr("x"))), Wrap64(PrefixValue(node.Attr("y"))),
          Wrap64(PrefixValue(node.Attr("width"))), Wrap64(PrefixValue(node.Attr("height"))))
  }

  function ElementOf(node: XmlNode): WDAElement {
    WDAElement(MapTypeName(node.name), LabelOf(node), FrameOf(node), CenterOf(FrameOf(node)))
  }

  method NodeToElement(node: XmlNode) returns (el: WDAElement)
    ensures el == ElementOf(node)
  {
    var x := Atoi(node.Attr("x"));
    var y := Atoi(node.Attr("y"));
    var w := Atoi(node.Attr("width"));
    var h := Atoi(node.Attr("height"));
    var text := node.Attr("name");
    if text == "" {
      text := node.Attr("label");
    }
    if text == "" {
      text := node.Attr("value");
    }
    el := WDAElement(MapTypeName(node.name), text, Frame(x, y, w, h),
                     Point(Wrap64(x + Quotient(w, 2)), Wrap64(y + Quotient(h, 2))));
  }

  lemma {:induction false} AttrIsFirst(attrs: seq<(string, string)>, key: string, i: nat)
    requires i < |attrs| && attrs[i].0 == key && forall j | 0 <= j < i :: attrs[j].0 != key
    ensures AttrIn(attrs, key) == attrs[i].1
  {
    if i > 0 {
      AttrIsFirst(attrs[1..], key, i - 1);
    }
  }

  lemma {:induction false} AttrIsAbsent(attrs: seq<(string, string)>, key: string)
    requires forall j | 0 <= j < |attrs| :: attrs[j].0 != key
    ensures AttrIn(attrs, key) == ""
  {
    if attrs != [] {
      AttrIsAbsent(attrs[1..], key);
    }
  }

  /** lower is s with each of A to Z replaced by the small letter. */
  ghost predicate Lowered(lower: string, s: string) {
    && |lower| == |s|
    && forall i | 0 <= i < |s| ::
         if 'A' <= s[i] <= 'Z' then lower[i] as int - 'a' as int == s[i] as int - 'A' as int else lower[i] == s[i]
  }

  const SHORT_NAMES := map[
    "XCUIElementTypeButton" := "button",
    "XCUIElementTypeTextField" := "textfield",
    "XCUIElementTypeSecureTextField" := "textfield",
    "XCUIElementTypeSwitch" := "switch",
    "XCUIElementTypeLink" := "link",
    "XCUIElementTypeCell" := "cell",
    "XCUIElementTypeStaticText" := "text"]

  /** Seven types have names of their own; others lose the prefix, if they have it, and their capitals. */
  lemma TypeNamesExactly(name: string)
    ensures name in SHORT_NAMES ==> MapTypeName(name) == SHORT_NAMES[name]
    ensures forall rest | name !in SHORT_NAMES && name == "XCUIElementType" + rest :: Lowered(MapTypeName(name), rest)
    ensures name !in SHORT_NAMES && !("XCUIElementType" <= name) ==> Lowered(MapTypeName(name), name)
  {
    assert XCUI + "Button" == "XCUIElementTypeButton" && XCUI + "TextField" == "XCUIElementTypeTextField";
    assert XCUI + "SecureTextField" == "XCUIElementTypeSecureTextField" && XCUI + "Switch" == "XCUIElementTypeSwitch";
    assert XCUI + "Link" == "XCUIElementTypeLink" && XCUI + "Cell" == "XCUIElementTypeCell";
    assert XCUI + "StaticText" == "XCUIElementTypeStaticText";
    forall rest | name == "XCUIElementType" + rest
      ensures name[|XCUI|..] == rest
    {}
  }

  /** The text is the first of name, label and value that is not empty; the sides are the four attributes by name. */
  lemma ElementFromAttributes(node: XmlNode)
    ensures var el := ElementOf(node);
            && (node.Attr("name") != "" ==> el.text == node.Attr("name"))
            && (node.Attr("name") == "" && node.Attr("label") != "" ==> el.text == node.Attr("label"))
            && (node.Attr("name") == node.Attr("label") == "" ==> el.text == node.Attr("value"))
            && el.frame.x == Wrap64(PrefixValue(node.Attr("x"))) && el.frame.y == Wrap64(PrefixValue(node.Attr("y")))
            && el.frame.w == Wrap64(PrefixValue(node.Attr("width")))
            && el.frame.h == Wrap64(PrefixValue(node.Attr("height")))
    ensures forall x: int64, y: int64, w: int64, h: int64
              | node.Attr("x") == Decimal(x) && node.Attr("y") == Decimal(y)
                && node.Attr("width") == Decimal(w) && node.Attr("height") == Decimal(h) ::
              ElementOf(node).frame == Frame(x, y, w, h)
  {
    forall n: int64
      ensures Wrap64(PrefixValue(Decimal(n))) == n
    {
      ParsesDecimal(n);
    }
  }

  /** The named nodes, each before its descendants. */
  function NamedNodes(node: XmlNode): seq<XmlNode>
    decreases node, 0
  {
    (if node.Named() then [node] else []) + NamedNodesAll(node.children)
  }

  function NamedNodesAll(nodes: seq<XmlNode>): seq<XmlNode>
    decreases nodes
  {
    if nodes == [] then []
    else NamedNodesAll(nodes[..|nodes| - 1]) + NamedNodes(nodes[|nodes| - 1])
  }

  function ElementsOf(nodes: seq<XmlNode>): (r: seq<WDAElement>)
    ensures |r| == |nodes|
  {
    seq(|nodes|, i requires 0 <= i < |nodes| => ElementOf(nodes[i]))
  }

  lemma ElementsOfConcat(a: seq<XmlNode>, b: seq<XmlNode>)
    ensures ElementsOf(a + b) == ElementsOf(a) + ElementsOf(b)
  {}

  /** The slice that the walk appends to through a pointer, with the nodes its items come from. */
  class ElementList {
    var items: seq<WDAElement>
    ghost var nodes: seq<XmlNode>

    ghost predicate Valid()
      reads this
    {
      items == ElementsOf(nodes)
    }

    constructor ()
      ensures Valid() && nodes == []
    {
      items, nodes := [], [];
    }

    method Append(node: XmlNode)
      requires Valid()
      modifies this
      ensures Valid() && nodes == old(nodes) + [node]
    {
      var el := NodeToElement(node);
      ElementsOfConcat(nodes, [node]);
      items, nodes := items + [el], nodes + [node];
    }
  }

  method CollectElements(node: XmlNode, out: ElementList)
    requires out.Valid()
    modifies out
    ensures out.Valid() && out.nodes == old(out.nodes) + NamedNodes(node)
    decreases node
  {
    if node.name != "" && node.name != "AppiumAUT" {
      out.Append(node);
    }
    ghost var start := out.nodes;
    for i := 0 to |node.children|
      invariant out.Valid() && out.nodes == start + NamedNodesAll(node.children[..i])
    {
      CollectElements(node.children[i], out);
      assert node.children[..i + 1][..i] == node.children[..i];
    }
    assert node.children[..|node.children|] == node.children;
  }

  // ---------------------------------------------------------------- document order

  type Path = seq<nat>

  predicate HasPath(node: XmlNode, p: Path)
    decreases |p|
  {
    p == [] || (p[0] < |node.children| && HasPath(node.children[p[0]], p[1..]))
  }

  function At(node: XmlNode, p: Path): XmlNode
    requires HasPath(node, p)
    decreases |p|
  {
    if p == [] then node else At(node.children[p[0]], p[1..])
  }

  /** Document order on paths: an ancestor first, then siblings from left to right. */
  predicate Before(p: Path, q: Path) {
    q != [] && (p == [] || p[0] < q[0] || (p[0] == q[0] && Before(p[1..], q[1..])))
  }

  /** The paths of the named nodes in the order the walk meets them. */
  function NamedPaths(node: XmlNode): seq<Path>
    decreases node, 0
  {
    (if node.Named() then [[]] else []) + NamedPathsBelow(node.children)
  }

  function NamedPathsBelow(nodes: seq<XmlNode>): seq<Path>
    decreases nodes
  {
    if nodes == [] then []
    else
      var last := |nodes| - 1;
      NamedPathsBelow(nodes[..last]) + Under(last, NamedPaths(nodes[last]))
  }

  function Under(i: nat, paths: seq<Path>): (r: seq<Path>)
    ensures |r| == |paths| && forall k | 0 <= k < |r| :: r[k] == [i] + paths[k]
  {
    seq(|paths|, k requires 0 <= k < |paths| => [i] + paths[k])
  }

  ghost predicate Increasing(paths: seq<Path>) {
    forall i, j | 0 <= i < j < |paths| :: Before(paths[i], paths[j])
  }

  ghost predicate InForest(nodes: seq<XmlNode>, p: Path) {
    p != [] && p[0] < |nodes| && HasPath(nodes[p[0]], p[1..])
  }

  lemma {:induction false} PathsIncrease(node: XmlNode)
    ensures Increasing(NamedPaths(node))
    decreases node, 0
  {
    PathsBelowIncrease(node.children);
  }

  lemma {:induction false} PathsBelowIncrease(nodes: seq<XmlNode>)
    ensures Increasing(NamedPathsBelow(nodes))
    ensures forall p | p in NamedPathsBelow(nodes) :: p != [] && p[0] < |nodes|
    decreases nodes
  {
    if nodes != [] {
      var last := |nodes| - 1;
      PathsBelowIncrease(nodes[..last]);
      PathsIncrease(nodes[last]);
      var low, high := NamedPathsBelow(nodes[..last]), Under(last, NamedPaths(nodes[last]));
      forall i, j | 0 <= i < j < |low + high|
        ensures Before((low + high)[i], (low + high)[j])
      {
        if i < |low| <= j {
          assert low[i] in low;
        } else if |low| <= i {
          var p, q := NamedPaths(nodes[last])[i - |low|], NamedPaths(nodes[last])[j - |low|];
          assert ([last] + p)[1..] == p && ([last] + q)[1..] == q;
        }
      }
    }
  }

  lemma {:induction false} PathsComplete(node: XmlNode, p: Path)
    ensures p in NamedPaths(node) <==> HasPath(node, p) && At(node, p).Named()
    decreases node, 0
  {
    PathsBelowComplete(node.children, p);
    if p == [] {
      assert node.Named() ==> NamedPaths(node)[0] == [];
    } else {
      assert p in NamedPaths(node) <==> p in NamedPathsBelow(node.children);
    }
  }

  lemma {:induction false} PathsBelowComplete(nodes: seq<XmlNode>, p: Path)
    ensures p in NamedPathsBelow(nodes) <==> InForest(nodes, p) && At(nodes[p[0]], p[1..]).Named()
    decreases nodes
  {
    if nodes != [] {
      var last := |nodes| - 1;
      PathsBelowComplete(nodes[..last], p);
      var high := Under(last, NamedPaths(nodes[last]));
      if p != [] && p[0] == last {
        PathsComplete(nodes[last], p[1..]);
        assert p == [last] + p[1..];
        if p[1..] in NamedPaths(nodes[last]) {
          var k :| 0 <= k < |high| && NamedPaths(nodes[last])[k] == p[1..];
          assert high[k] == p;
        }
        if p in high {
          var k :| 0 <= k < |high| && high[k] == p;
          assert NamedPaths(nodes[last])[k] == p[1..];
        }
      } else {
        assert p !in high;
      }
    }
  }

  /** The k-th node of the walk sits at the k-th named path. */
  lemma {:induction false} WalkFollowsPaths(node: XmlNode)
    ensures |NamedNodes(node)| == |NamedPaths(node)|
    ensures forall k | 0 <= k < |NamedNodes(node)| ::
              HasPath(node, NamedPaths(node)[k]) && NamedNodes(node)[k] == At(node, NamedPaths(node)[k])
    decreases node, 0
  {
    WalkBelowFollowsPaths(node.children);
    var own := if node.Named() then 1 else 0;
    forall k | own <= k < |NamedNodes(node)|
      ensures HasPath(node, NamedPaths(node)[k]) && NamedNodes(node)[k] == At(node, NamedPaths(node)[k])
    {
      assert NamedPaths(node)[k] == NamedPathsBelow(node.children)[k - own];
      assert NamedNodes(node)[k] == NamedNodesAll(node.children)[k - own];
    }
  }

  lemma {:induction false} WalkBelowFollowsPaths(nodes: seq<XmlNode>)
    ensures |NamedNodesAll(nodes)| == |NamedPathsBelow(nodes)|
    ensures forall k | 0 <= k < |NamedNodesAll(nodes)| ::
              var p := NamedPathsBelow(nodes)[k];
              InForest(nodes, p) && NamedNodesAll(nodes)[k] == At(nodes[p[0]], p[1..])
    decreases nodes
  {
    if nodes != [] {
      var last := |nodes| - 1;
      WalkBelowFollowsPaths(nodes[..last]);
      WalkFollowsPaths(nodes[last]);
      var low := NamedPathsBelow(nodes[..last]);
      forall k | |low| <= k < |NamedNodesAll(nodes)|
        ensures var p := NamedPathsBelow(nodes)[k];
                InForest(nodes, p) && NamedNodesAll(nodes)[k] == At(nodes[p[0]], p[1..])
      {
        var q := NamedPaths(nodes[last])[k - |low|];
        assert NamedPathsBelow(nodes)[k] == [last] + q && ([last] + q)[1..] == q;
      }
    }
  }

  /** The walk meets exactly the named nodes, each once, in document order. */
  lemma WalkIsDocumentOrder(node: XmlNode) returns (paths: seq<Path>)
    ensures |paths| == |NamedNodes(node)| && Increasing(paths)
    ensures forall p :: p in paths <==>
              HasPath(node, p) && At(node, p).name != "" && At(node, p).name != "AppiumAUT"
    ensures forall k | 0 <= k < |paths| :: HasPath(node, paths[k]) && NamedNodes(node)[k] == At(node, paths[k])
  {
    paths := NamedPaths(node);
    PathsIncrease(node);
    WalkFollowsPaths(node);
    forall p
      ensures p in paths <==>
                HasPath(node, p) && At(node, p).name != "" && At(node, p).name != "AppiumAUT"
    {
      PathsComplete(node, p);
    }
  }

  // ---------------------------------------------------------------- filter and numbering

  /** What the filter keeps; an empty list of kinds keeps everything. */
  function Kept(elements: seq<WDAElement>, kinds: seq<string>): seq<WDAElement> {
    if elements == [] then []
    else
      var last := elements[|elements| - 1];
      Kept(elements[..|elements| - 1], kinds) + (if kinds == [] || last.kind in kinds then [last] else [])
  }

  lemma {:induction false} KeptAll(elements: seq<WDAElement>)
    ensures Kept(elements, []) == elements
  {
    if elements != [] {
      KeptAll(elements[..|elements| - 1]);
    }
  }

  /** The filter keeps the elements of the kinds asked for, each as often as it is there, in order. */
  lemma {:induction false} KeptExactly(elements: seq<WDAElement>, kinds: seq<string>)
    ensures forall e :: multiset(Kept(elements, kinds))[e] ==
              if kinds == [] || e.kind in kinds then multiset(elements)[e] else 0
    ensures forall n | 0 <= n <= |elements| :: Kept(elements[..n], kinds) <= Kept(elements, kinds)
  {
    if elements != [] {
      var last := |elements| - 1;
      assert elements == elements[..last] + [elements[last]];
      KeptExactly(elements[..last], kinds);
      forall n | 0 <= n <= |elements|
        ensures Kept(elements[..n], kinds) <= Kept(elements, kinds)
      {
        if n <= last {
          assert elements[..last][..n] == elements[..n];
        } else {
          assert elements[..n] == elements;
        }
      }
    }
  }

  method FilterInteractive(elements: seq<WDAElement>, kinds: seq<string>) returns (out: seq<WDAElement>)
    ensures out == Kept(elements, kinds)
  {
    if |kinds| == 0 {
      KeptAll(elements);
      return elements;
    }
    var allowed: set<string> := {};
    for k := 0 to |kinds|
      invariant forall s :: s in allowed <==> s in kinds[..k]
    {
      allowed := allowed + {kinds[k]};
    }
    out := [];
    for i := 0 to |elements|
      invariant out == Kept(elements[..i], kinds)
    {
      if elements[i].kind in allowed {
        out := out + [elements[i]];
      }
      assert elements[..i + 1][..i] == elements[..i];
    }
    assert elements[..|elements|] == elements;
  }

  /** The walk that would drop unwanted kinds as it goes. */
  function WantedNodes(node: XmlNode, kinds: seq<string>): seq<XmlNode>
    decreases node, 0
  {
    (if node.Named() && Wanted(node, kinds) then [node] else []) + WantedNodesAll(node.children, kinds)
  }

  function WantedNodesAll(nodes: seq<XmlNode>, kinds: seq<string>): seq<XmlNode>
    decreases nodes
  {
    if nodes == [] then []
    else WantedNodesAll(nodes[..|nodes| - 1], kinds) + WantedNodes(nodes[|nodes| - 1], kinds)
  }

  predicate Wanted(node: XmlNode, kinds: seq<string>) {
    kinds == [] || MapTypeName(node.name) in kinds
  }

  function KeptNodes(nodes: seq<XmlNode>, kinds: seq<string>): seq<XmlNode> {
    if nodes == [] then []
    else
      var last := nodes[|nodes| - 1];
      KeptNodes(nodes[..|nodes| - 1], kinds) + (if Wanted(last, kinds) then [last] else [])
  }

  lemma {:induction false} KeptElements(nodes: seq<XmlNode>, kinds: seq<string>)
    ensures Kept(ElementsOf(nodes), kinds) == ElementsOf(KeptNodes(nodes, kinds))
  {
    if nodes != [] {
      var n := |nodes| - 1;
      KeptElements(nodes[..n], kinds);
      assert ElementsOf(nodes)[..n] == ElementsOf(nodes[..n]);
      assert ElementsOf([nodes[n]]) == [ElementOf(nodes[n])];
      ElementsOfConcat(KeptNodes(nodes[..n], kinds), if Wanted(nodes[n], kinds) then [nodes[n]] else []);
    }
  }

  lemma {:induction false} KeptConcat(a: seq<XmlNode>, b: seq<XmlNode>, kinds: seq<string>)
    ensures KeptNodes(a + b, kinds) == KeptNodes(a, kinds) + KeptNodes(b, kinds)
  {
    if b == [] {
      assert a + b == a;
    } else {
      var n := |b| - 1;
      KeptConcat(a, b[..n], kinds);
      assert (a + b)[..|a + b| - 1] == a + b[..n];
    }
  }

  lemma {:induction false} KeptIsWanted(node: XmlNode, kinds: seq<string>)
    ensures KeptNodes(NamedNodes(node), kinds) == WantedNodes(node, kinds)
    decreases node, 0
  {
    KeptIsWantedAll(node.children, kinds);
    if node.Named() {
      KeptConcat([node], NamedNodesAll(node.children), kinds);
      assert [node][..0] == [];
    } else {
      assert NamedNodes(node) == NamedNodesAll(node.children);
    }
  }

  lemma {:induction false} KeptIsWantedAll(nodes: seq<XmlNode>, kinds: seq<string>)
    ensures KeptNodes(NamedNodesAll(nodes), kinds) == WantedNodesAll(nodes, kinds)
    decreases nodes
  {
    if nodes != [] {
      var last := |nodes| - 1;
      KeptIsWantedAll(nodes[..last], kinds);
      KeptIsWanted(nodes[last], kinds);
      KeptConcat(NamedNodesAll(nodes[..last]), NamedNodes(nodes[last]), kinds);
    }
  }

  /** Filtering the finished list keeps what filtering during the walk would have kept. */
  lemma FilterAfterIsFilterDuring(node: XmlNode, kinds: seq<string>)
    ensures Kept(ElementsOf(NamedNodes(node)), kinds) == ElementsOf(WantedNodes(node, kinds))
  {
    KeptElements(NamedNodes(node), kinds);
    KeptIsWanted(node, kinds);
  }

  datatype ElementInfo = ElementInfo(id: nat, kind: string, text: string, frame: Frame, center: Point)

  /** Look's numbering of the interactive elements. */
  method NumberElements(elements: seq<WDAElement>) returns (infos: seq<ElementInfo>)
    ensures |infos| == |elements|
    ensures forall i | 0 <= i < |infos| ::
              && infos[i].id == i + 1 && infos[i].kind == elements[i].kind && infos[i].text == elements[i].text
              && infos[i].frame == elements[i].frame && infos[i].center == CenterOf(elements[i].frame)
  {
    infos := [];
    for i := 0 to |elements|
      invariant |infos| == i
      invariant forall j | 0 <= j < i ::
          && infos[j].id == j + 1 && infos[j].kind == elements[j].kind && infos[j].text == elements[j].text
          && infos[j].frame == elements[j].frame && infos[j].center == CenterOf(elements[j].frame)
    {
      var f := elements[i].frame;
      var cx := Wrap64(f.x + Quotient(f.w, 2));
      var cy := Wrap64(f.y + Quotient(f.h, 2));
      infos := infos + [ElementInfo(i + 1, elements[i].kind, elements[i].text, f, Point(cx, cy))];
    }
  }

  /** Look's element path from the tree to the numbered survivors. */
  method InteractiveInfos(root: XmlNode, kinds: seq<string>) returns (infos: seq<ElementInfo>)
    ensures |infos| == |WantedNodes(root, kinds)|
    ensures forall i | 0 <= i < |infos| ::
              var el := ElementOf(WantedNodes(root, kinds)[i]);
              infos[i] == ElementInfo(i + 1, el.kind, el.text, el.frame, el.center)
  {
    var list := new ElementList();
    CollectElements(root, list);
    var all := list.items;
    assert list.nodes == NamedNodes(root);
    var kept := FilterInteractive(all, kinds);
    FilterAfterIsFilterDuring(root, kinds);
    infos := NumberElements(kept);
  }

  ghost predicate Inside(f: Frame, p: Point) {
    f.x <= p.x < f.x + f.w && f.y <= p.y < f.y + f.h
  }

  /** The centre is inside the frame exactly when the frame has pixels and its middle is an int64. */
  lemma CenterInside(f: Frame)
    ensures Inside(f, CenterOf(f)) <==>
              f.w > 0 && f.h > 0 && f.x + f.w / 2 < TWO63 && f.y + f.h / 2 < TWO63
  {
    MiddleInside(f.x, f.w);
    MiddleInside(f.y, f.h);
  }

  /** The centre is half the size from the corner, rounded toward it, while it is an int64. */
  lemma CenterIsMiddle(f: Frame)
    ensures IsInt64(f.x + Quotient(f.w, 2)) ==>
              var d := CenterOf(f).x - f.x; if f.w >= 0 then 2 * d <= f.w <= 2 * d + 1 else 2 * d - 1 <= f.w <= 2 * d
    ensures IsInt64(f.y + Quotient(f.h, 2)) ==>
              var d := CenterOf(f).y - f.y; if f.h >= 0 then 2 * d <= f.h <= 2 * d + 1 else 2 * d - 1 <= f.h <= 2 * d
  {}

  lemma MiddleInside(x: int64, w: int64)
    ensures x <= Wrap64(x + Quotient(w, 2)) < x + w <==> w > 0 && x + w / 2 < TWO63
  {
    var m: int := Quotient(w, 2);
    if w > 0 && x + m >= TWO63 {
      assert m < TWO63;
      Wrap64Unique(x + m, x + m - TWO64, 1);
    }
  }
}
