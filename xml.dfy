/**
  The canonical node tree that every command builder produces, and the
  serializer that renders it as XML text.

  A node has a (possibly namespace-prefixed) name, an ordered attribute list
  and one of three contents: nothing, a scalar text value, or an ordered list
  of child elements. Text and children exclude each other by construction.
  A node with no value and no children renders self-closing.
*/
module Xml {
  import opened Wrappers

  /** A scalar value: descriptors supply both strings and numbers. */
  datatype Scalar = Str(text: string) | Num(number: nat)

  datatype Attr = Attr(name: string, value: string)

  datatype Content =
    | Empty
    | Text(scalar: Scalar)
    | Elements(kids: seq<Node>)

  datatype Node = Node(name: string, attrs: seq<Attr>, content: Content)

  /** An element with a text value and no attributes. */
  function Leaf(name: string, text: string): Node {
    Node(name, [], Text(Str(text)))
  }

  /** An element with no attributes and no content. */
  function Bare(name: string): Node {
    Node(name, [], Empty)
  }

  function Branch(name: string, kids: seq<Node>): Node {
    Node(name, [], Elements(kids))
  }

  /** One leaf per text, all with the same name, in the order of the texts. */
  function Leaves(name: string, texts: seq<string>): (r: seq<Node>)
    ensures |r| == |texts|
    ensures forall i :: 0 <= i < |r| ==> r[i] == Leaf(name, texts[i])
  {
    if texts == [] then [] else [Leaf(name, texts[0])] + Leaves(name, texts[1..])
  }

  /** The children of a node; a node with text or nothing has none. */
  function Kids(n: Node): seq<Node> {
    if n.content.Elements? then n.content.kids else []
  }

  /** The value of the first attribute called `name`. */
  function AttrValue(attrs: seq<Attr>, name: string): (r: Option<string>)
    ensures r.Some? <==> exists i :: 0 <= i < |attrs| && attrs[i].name == name
    ensures r.Some? ==> Attr(name, r.value) in attrs
  {
    if attrs == [] then None
    else if attrs[0].name == name then Some(attrs[0].value)
    else AttrValue(attrs[1..], name)
  }

  /** The first child called `name`. */
  function Child(n: Node, name: string): (r: Option<Node>)
    ensures r.Some? ==> r.value in Kids(n) && r.value.name == name
    ensures r.None? ==> forall k :: k in Kids(n) ==> k.name != name
  {
    FirstNamed(Kids(n), name)
  }

  function FirstNamed(ns: seq<Node>, name: string): (r: Option<Node>)
    ensures r.Some? ==> r.value in ns && r.value.name == name
    ensures r.None? ==> forall k :: k in ns ==> k.name != name
  {
    if ns == [] then None
    else if ns[0].name == name then Some(ns[0])
    else FirstNamed(ns[1..], name)
  }

  /** A tag opens with the element's name followed by its first attribute. */
  lemma FirstAttrInside(n: Node)
    requires |n.attrs| > 0
    ensures Infix("<" + n.name + AttrText(n.attrs[0]), Render(n))
  {
    var head := "<" + n.name + AttrText(n.attrs[0]);
    var rest := RenderAttrs(n.attrs[1..]);
    assert RenderAttrs(n.attrs) == AttrText(n.attrs[0]) + rest;
    assert OpenTag(n) == head + rest;
    PrefixInfix(head, rest);
    OpenTagInside(n);
    InfixTrans(head, OpenTag(n), Render(n));
  }

  /** The first node called `name` in `a + b` is the first in `a`, or else the first in `b`. */
  lemma {:induction false} FirstNamedAppend(a: seq<Node>, b: seq<Node>, name: string)
    ensures FirstNamed(a + b, name) == if FirstNamed(a, name).Some? then FirstNamed(a, name) else FirstNamed(b, name)
  {
    if a != [] {
      assert (a + b)[0] == a[0];
      assert (a + b)[1..] == a[1..] + b;
      FirstNamedAppend(a[1..], b, name);
    } else {
      assert a + b == b;
    }
  }

  lemma FirstNamedSingle(x: Node, name: string)
    ensures FirstNamed([x], name) == if x.name == name then Some(x) else None
  {
    assert [x][1..] == [];
  }

  /** The first node called `name` among four consecutive runs of nodes, run by run. */
  lemma FirstNamedRuns(a: seq<Node>, b: seq<Node>, c: seq<Node>, e: seq<Node>, name: string)
    ensures FirstNamed(a + b + c + e, name)
            == if FirstNamed(a, name).Some? then FirstNamed(a, name)
               else if FirstNamed(b, name).Some? then FirstNamed(b, name)
               else if FirstNamed(c, name).Some? then FirstNamed(c, name)
               else FirstNamed(e, name)
  {
    FirstNamedAppend(a + b + c, e, name);
    FirstNamedAppend(a + b, c, name);
    FirstNamedAppend(a, b, name);
  }

  // ---------------------------------------------------------------------
  // Numbers as text

  predicate IsDigits(s: string) {
    forall i :: 0 <= i < |s| ==> '0' <= s[i] <= '9'
  }

  function DigitChar(d: nat): (c: char)
    requires d < 10
    ensures '0' <= c <= '9'
  {
    ('0' as int + d) as char
  }

  /** The decimal representation of `n`, most significant digit first. */
  function Decimal(n: nat): (s: string)
    ensures |s| > 0 && IsDigits(s)
    ensures |s| > 1 ==> s[0] != '0'
  {
    if n < 10 then [DigitChar(n)] else Decimal(n / 10) + [DigitChar(n % 10)]
  }

  /** The number a string of decimal digits stands for. */
  function DecimalValue(s: string): nat
    requires IsDigits(s)
  {
    if s == [] then 0
    else DecimalValue(s[..|s| - 1]) * 10 + (s[|s| - 1] as int - '0' as int)
  }

  /** Reading back the decimal text of a number gives the number. */
  lemma {:induction false} DecimalRoundTrip(n: nat)
    ensures DecimalValue(Decimal(n)) == n
  {
    if n >= 10 {
      var s := Decimal(n);
      assert s[..|s| - 1] == Decimal(n / 10);
      DecimalRoundTrip(n / 10);
    }
  }

  /** Distinct numbers have distinct decimal texts. */
  lemma DecimalInjective(m: nat, n: nat)
    requires Decimal(m) == Decimal(n)
    ensures m == n
  {
    DecimalRoundTrip(m);
    DecimalRoundTrip(n);
  }

  // ---------------------------------------------------------------------
  // Serializer

  function ScalarText(v: Scalar): string {
    match v
    case Str(t) => t
    case Num(n) => Decimal(n)
  }

  /** Attributes in list order, each as ` name="value"`. */
  function RenderAttrs(attrs: seq<Attr>): string {
    if attrs == [] then ""
    else " " + attrs[0].name + "=\"" + attrs[0].value + "\"" + RenderAttrs(attrs[1..])
  }

  /** One attribute as it appears in a tag: ` name="value"`. */
  function AttrText(a: Attr): string {
    " " + a.name + "=\"" + a.value + "\""
  }

  /** The start of an element's tag, up to (not including) `>` or `/>`. */
  function OpenTag(n: Node): string {
    "<" + n.name + RenderAttrs(n.attrs)
  }

  /** The start tag of an element with no attributes. */
  function StartTag(name: string): string {
    "<" + name + ">"
  }

  function CloseTag(name: string): string {
    "</" + name + ">"
  }

  function Render(n: Node): string
    decreases n
  {
    match n.content
    case Empty => OpenTag(n) + "/>"
    case Text(v) => OpenTag(n) + ">" + ScalarText(v) + CloseTag(n.name)
    case Elements(kids) =>
      if kids == [] then OpenTag(n) + "/>"
      else OpenTag(n) + ">" + RenderAll(kids) + CloseTag(n.name)
  }

  function RenderAll(ns: seq<Node>): string
    decreases ns
  {
    if ns == [] then "" else Render(ns[0]) + RenderAll(ns[1..])
  }

  /** An element with one child renders as its open tag, the child, and its close tag. */
  lemma SingleText(n: Node)
    requires n.content.Elements? && |n.content.kids| == 1
    ensures Render(n) == OpenTag(n) + ">" + Render(n.content.kids[0]) + CloseTag(n.name)
  {
    var kids := n.content.kids;
    assert kids[1..] == [];
    assert RenderAll(kids) == Render(kids[0]) + "";
    assert Render(kids[0]) + "" == Render(kids[0]);
  }

  /** The self-closing form is produced exactly for nodes with no value and no children. */
  lemma SelfClosing(n: Node)
    ensures (n.content.Empty? || n.content == Elements([])) <==>
            Render(n) == OpenTag(n) + "/>"
  {
    var o := OpenTag(n);
    match n.content
    case Empty =>
    case Text(v) =>
      var r := Render(n);
      assert r[|o|] == '>';
      assert (o + "/>")[|o|] == '/';
    case Elements(kids) =>
      if kids != [] {
        var r := Render(n);
        assert r[|o|] == '>';
        assert (o + "/>")[|o|] == '/';
      }
  }

  lemma {:induction false} RenderAllAppend(a: seq<Node>, b: seq<Node>)
    ensures RenderAll(a + b) == RenderAll(a) + RenderAll(b)
  {
    if a != [] {
      assert (a + b)[1..] == a[1..] + b;
      RenderAllAppend(a[1..], b);
    } else {
      assert a + b == b;
    }
  }

  // ---------------------------------------------------------------------
  // Substrings and descendants

  /** `a` occurs in `b` as a contiguous piece. */
  predicate Infix(a: string, b: string) {
    exists i, j :: 0 <= i <= j <= |b| && b[i..j] == a
  }

  lemma InfixMiddle(p: string, x: string, s: string)
    ensures Infix(x, p + x + s)
  {
    var b := p + x + s;
    assert b[|p|..|p| + |x|] == x;
  }

  lemma InfixTrans(a: string, b: string, c: string)
    requires Infix(a, b) && Infix(b, c)
    ensures Infix(a, c)
  {
    var i, j :| 0 <= i <= j <= |b| && b[i..j] == a;
    var k, l :| 0 <= k <= l <= |c| && c[k..l] == b;
    assert c[k + i..k + j] == a by {
      forall t | 0 <= t < j - i
        ensures c[k + i..k + j][t] == a[t]
      {
        assert a[t] == b[i + t] == c[k + i + t];
      }
    }
  }

  lemma SelfInfix(s: string)
    ensures Infix(s, s)
  {
    assert s[0..|s|] == s;
  }

  lemma PrefixInfix(a: string, b: string)
    ensures Infix(a, a + b)
  {
    assert (a + b)[0..|a|] == a;
  }

  lemma SuffixInfix(a: string, b: string)
    ensures Infix(b, a + b)
  {
    assert (a + b)[|a|..|a + b|] == b;
  }

  lemma PrefixOfFour(a: string, b: string, c: string, e: string)
    ensures Infix(a, a + b + c + e)
  {
    assert a + b + c + e == a + (b + c + e);
    PrefixInfix(a, b + c + e);
  }

  /** A rendering starts with the element's open tag. */
  lemma OpenTagInside(n: Node)
    ensures Infix(OpenTag(n), Render(n))
  {
    match n.content
    case Empty => PrefixInfix(OpenTag(n), "/>");
    case Text(v) => PrefixOfFour(OpenTag(n), ">", ScalarText(v), CloseTag(n.name));
    case Elements(kids) =>
      if kids == [] {
        PrefixInfix(OpenTag(n), "/>");
      } else {
        PrefixOfFour(OpenTag(n), ">", RenderAll(kids), CloseTag(n.name));
      }
  }
  /** Every descendant of `n` (itself included) called `name`, in document order. */
  function Collect(n: Node, name: string): seq<Node>
    decreases n
  {
    (if n.name == name then [n] else [])
    + (if n.content.Elements? then CollectAll(n.content.kids, name) else [])
  }

  function CollectAll(ns: seq<Node>, name: string): seq<Node>
    decreases ns
  {
    if ns == [] then [] else Collect(ns[0], name) + CollectAll(ns[1..], name)
  }

  lemma {:induction false} CollectAllAppend(a: seq<Node>, b: seq<Node>, name: string)
    ensures CollectAll(a + b, name) == CollectAll(a, name) + CollectAll(b, name)
  {
    if a != [] {
      assert (a + b)[1..] == a[1..] + b;
      CollectAllAppend(a[1..], b, name);
    } else {
      assert a + b == b;
    }
  }

  lemma LeafListed(name: string, texts: seq<string>, t: string)
    requires t in texts
    ensures Leaf(name, t) in Leaves(name, texts)
  {
    var i :| 0 <= i < |texts| && texts[i] == t;
    assert Leaves(name, texts)[i] == Leaf(name, t);
  }

  /** Leaves called `name` collect to themselves. */
  lemma {:induction false} CollectLeaves(name: string, texts: seq<string>)
    ensures CollectAll(Leaves(name, texts), name) == Leaves(name, texts)
  {
    if texts != [] {
      CollectLeaves(name, texts[1..]);
    }
  }

  /** Nodes without children and with another name contribute nothing. */
  lemma {:induction false} CollectFlatOthers(ns: seq<Node>, name: string)
    requires forall i :: 0 <= i < |ns| ==> ns[i].name != name && !ns[i].content.Elements?
    ensures CollectAll(ns, name) == []
  {
    if ns != [] {
      CollectFlatOthers(ns[1..], name);
    }
  }

  lemma CollectAllRuns(a: seq<Node>, b: seq<Node>, c: seq<Node>, e: seq<Node>, name: string)
    ensures CollectAll(a + b + c + e, name) == CollectAll(a, name) + CollectAll(b, name) + CollectAll(c, name) + CollectAll(e, name)
  {
    CollectAllAppend(a + b + c, e, name);
    CollectAllAppend(a + b, c, name);
    CollectAllAppend(a, b, name);
  }

  /** Nodes without children and with this name collect to themselves. */
  lemma {:induction false} CollectFlatSame(ns: seq<Node>, name: string)
    requires forall i :: 0 <= i < |ns| ==> ns[i].name == name && !ns[i].content.Elements?
    ensures CollectAll(ns, name) == ns
  {
    if ns != [] {
      CollectFlatSame(ns[1..], name);
      assert ns == [ns[0]] + ns[1..];
    }
  }

  lemma CollectSingle(n: Node, name: string)
    ensures CollectAll([n], name) == Collect(n, name)
  {
    assert [n][1..] == [];
  }

  /** Each node `m` found by Collect is rendered, as a whole, inside the rendering of `n`. */
  lemma {:induction false} CollectedRendersInside(n: Node, name: string, m: Node)
    requires m in Collect(n, name)
    ensures Infix(Render(m), Render(n))
    decreases n
  {
    if n.name == name && m == n {
      assert Render(n)[0..|Render(n)|] == Render(n);
    } else {
      var kids := n.content.kids;
      assert m in CollectAll(kids, name);
      CollectedAllRendersInside(kids, name, m);
      InfixMiddle(OpenTag(n) + ">", RenderAll(kids), CloseTag(n.name));
      InfixTrans(Render(m), RenderAll(kids), Render(n));
    }
  }

  lemma {:induction false} CollectedAllRendersInside(ns: seq<Node>, name: string, m: Node)
    requires m in CollectAll(ns, name)
    ensures Infix(Render(m), RenderAll(ns))
    decreases ns
  {
    assert RenderAll(ns) == Render(ns[0]) + RenderAll(ns[1..]);
    if m in Collect(ns[0], name) {
      CollectedRendersInside(ns[0], name, m);
      PrefixInfix(Render(ns[0]), RenderAll(ns[1..]));
      InfixTrans(Render(m), Render(ns[0]), RenderAll(ns));
    } else {
      CollectedAllRendersInside(ns[1..], name, m);
      SuffixInfix(Render(ns[0]), RenderAll(ns[1..]));
      InfixTrans(Render(m), RenderAll(ns[1..]), RenderAll(ns));
    }
  }

  /** Each node of a list is rendered, as a whole, inside the rendering of the list. */
  lemma MemberRendersInside(ns: seq<Node>, k: Node)
    requires k in ns
    ensures Infix(Render(k), RenderAll(ns))
  {
    var i :| 0 <= i < |ns| && ns[i] == k;
    assert ns == ns[..i] + [k] + ns[i + 1..];
    RenderAllAppend(ns[..i] + [k], ns[i + 1..]);
    RenderAllAppend(ns[..i], [k]);
    assert RenderAll([k]) == Render(k) by {
      assert [k][1..] == [];
    }
    InfixMiddle(RenderAll(ns[..i]), Render(k), RenderAll(ns[i + 1..]));
  }

  /** A child's rendering lies inside its parent's. */
  lemma ChildRendersInside(n: Node, k: Node)
    requires k in Kids(n)
    ensures Infix(Render(k), Render(n))
  {
    MemberRendersInside(Kids(n), k);
    InfixMiddle(OpenTag(n) + ">", RenderAll(Kids(n)), CloseTag(n.name));
    InfixTrans(Render(k), RenderAll(Kids(n)), Render(n));
  }

  lemma LeafText(name: string, text: string)
    ensures Render(Leaf(name, text)) == StartTag(name) + text + CloseTag(name)
  {
  }

  /** An element without attributes and with children: start tag, children, close tag. */
  lemma BranchText(name: string, kids: seq<Node>)
    requires kids != []
    ensures Render(Branch(name, kids)) == StartTag(name) + RenderAll(kids) + CloseTag(name)
  {
    assert OpenTag(Branch(name, kids)) + ">" == StartTag(name);
  }

  /** A node collected from a child is collected from its parent. */
  lemma CollectKid(n: Node, k: Node, name: string, m: Node)
    requires k in Kids(n) && m in Collect(k, name)
    ensures m in Collect(n, name)
  {
    CollectAllMember(Kids(n), k, name, m);
  }

  /** A child is collected, under its own name, from its parent. */
  lemma KidCollected(n: Node, m: Node)
    requires m in Kids(n)
    ensures m in Collect(n, m.name)
  {
    assert m in Collect(m, m.name);
    CollectKid(n, m, m.name, m);
  }

  lemma {:induction false} CollectAllMember(ns: seq<Node>, k: Node, name: string, m: Node)
    requires k in ns && m in Collect(k, name)
    ensures m in CollectAll(ns, name)
  {
    if ns[0] != k {
      CollectAllMember(ns[1..], k, name, m);
    }
  }
}
