/**
  A reader for the text the serializer writes. It is the partner of
  Xml.Render: reading a rendered well-formed tree gives the tree back, up to
  the two distinctions the text cannot carry (a number versus its decimal
  string, and an element with no children versus an empty one). From that
  round trip follows that two trees render to the same text exactly when
  they agree up to those distinctions.
*/
module XmlReader {
  import opened Wrappers
  import opened Xml

  // ---------------------------------------------------------------------
  // What the serializer needs of names and values to be readable

  /** Characters allowed in element and attribute names. */
  predicate NameChar(c: char) {
    c != ' ' && c != '/' && c != '>' && c != '<' && c != '=' && c != '"'
  }

  predicate IsName(s: string) {
    |s| > 0 && forall i :: 0 <= i < |s| ==> NameChar(s[i])
  }

  predicate Excludes(s: string, c: char) {
    forall i :: 0 <= i < |s| ==> s[i] != c
  }

  predicate WellFormedAttrs(attrs: seq<Attr>) {
    forall a :: a in attrs ==> IsName(a.name) && Excludes(a.value, '"')
  }

  /** Names are names, attribute values hold no quote, text holds no `<`. */
  predicate WellFormed(n: Node)
    decreases n
  {
    && IsName(n.name)
    && WellFormedAttrs(n.attrs)
    && (n.content.Text? ==> Excludes(ScalarText(n.content.scalar), '<'))
    && (n.content.Elements? ==> forall k :: k in n.content.kids ==> WellFormed(k))
  }

  /** The tree the text of `n` stands for: numbers become their decimal strings
      and an element with an empty child list becomes an empty element. */
  function Canon(n: Node): Node
    decreases n
  {
    match n.content
    case Empty => n
    case Text(v) => Node(n.name, n.attrs, Text(Str(ScalarText(v))))
    case Elements(kids) =>
      if kids == [] then Node(n.name, n.attrs, Empty)
      else Node(n.name, n.attrs, Elements(CanonAll(kids)))
  }

  function CanonAll(ns: seq<Node>): (r: seq<Node>)
    decreases ns
    ensures |r| == |ns|
  {
    if ns == [] then [] else [Canon(ns[0])] + CanonAll(ns[1..])
  }

  // ---------------------------------------------------------------------
  // The reader

  /** The longest prefix of name characters, and what follows it. */
  function SpanName(s: string): (r: (string, string))
    ensures r.0 + r.1 == s
  {
    if s == [] || !NameChar(s[0]) then ([], s)
    else
      var (a, b) := SpanName(s[1..]);
      ([s[0]] + a, b)
  }

  /** The longest prefix without `stop`, and what follows it. */
  function SpanUntil(s: string, stop: char): (r: (string, string))
    ensures r.0 + r.1 == s
  {
    if s == [] || s[0] == stop then ([], s)
    else
      var (a, b) := SpanUntil(s[1..], stop);
      ([s[0]] + a, b)
  }

  /** Attributes written as ` name="value"`, as many as there are. */
  function ParseAttrs(s: string): (r: (seq<Attr>, string))
    ensures |r.1| <= |s|
    decreases |s|
  {
    if |s| >= 1 && s[0] == ' ' then
      var (name, r1) := SpanName(s[1..]);
      if |r1| >= 2 && r1[0] == '=' && r1[1] == '"' then
        var (value, r2) := SpanUntil(r1[2..], '"');
        if |r2| >= 1 then
          var (more, r3) := ParseAttrs(r2[1..]);
          ([Attr(name, value)] + more, r3)
        else ([], s)
      else ([], s)
    else ([], s)
  }

  /** `s` without a leading closing tag for `name`. */
  function DropClose(name: string, s: string): (r: Option<string>)
    ensures r.Some? ==> |r.value| < |s|
  {
    var c := CloseTag(name);
    if |s| >= |c| && s[..|c|] == c then Some(s[|c|..]) else None
  }

  /** Does `s` begin with the start of an element (not of a closing tag)? */
  predicate StartsElement(s: string) {
    |s| >= 2 && s[0] == '<' && s[1] != '/'
  }

  /** One element at the start of `s`, and what follows it. */
  function ParseElement(s: string): (r: Option<(Node, string)>)
    ensures r.Some? ==> |r.value.1| < |s|
    decreases |s|, 0
  {
    if |s| == 0 || s[0] != '<' then None
    else
      var (name, r1) := SpanName(s[1..]);
      var (attrs, r2) := ParseAttrs(r1);
      if name == [] then None else ParseContent(name, attrs, r2)
  }

  /** What follows an element's name and attributes: `/>`, or `>`, its content and its closing tag. */
  function ParseContent(name: string, attrs: seq<Attr>, s: string): (r: Option<(Node, string)>)
    ensures r.Some? ==> |r.value.1| < |s|
    decreases |s|, 0
  {
    if |s| >= 2 && s[0] == '/' && s[1] == '>' then
      Some((Node(name, attrs, Empty), s[2..]))
    else if |s| >= 1 && s[0] == '>' then
      var r3 := s[1..];
      if StartsElement(r3) then
        match ParseElements(r3)
        case None => None
        case Some((kids, r4)) =>
          match DropClose(name, r4)
          case None => None
          case Some(r5) => Some((Node(name, attrs, Elements(kids)), r5))
      else
        var (t, r4) := SpanUntil(r3, '<');
        match DropClose(name, r4)
        case None => None
        case Some(r5) => Some((Node(name, attrs, Text(Str(t))), r5))
    else None
  }

  /** Sibling elements at the start of `s`, up to the first thing that is not one. */
  function ParseElements(s: string): (r: Option<(seq<Node>, string)>)
    ensures r.Some? ==> |r.value.1| <= |s|
    decreases |s|, 1
  {
    if StartsElement(s) then
      match ParseElement(s)
      case None => None
      case Some((n, r1)) =>
        match ParseElements(r1)
        case None => None
        case Some((ns, r2)) => Some(([n] + ns, r2))
    else Some(([], s))
  }

  /** A whole document: one element and nothing after it. */
  function ParseDocument(s: string): Option<Node> {
    match ParseElement(s)
    case Some((n, rest)) => if rest == [] then Some(n) else None
    case None => None
  }

  // ---------------------------------------------------------------------
  // The round trip, piece by piece

  lemma {:induction false} SpanNameOf(a: string, t: string)
    requires forall i :: 0 <= i < |a| ==> NameChar(a[i])
    requires t == [] || !NameChar(t[0])
    ensures SpanName(a + t) == (a, t)
  {
    if a != [] {
      assert (a + t)[1..] == a[1..] + t;
      assert (a + t)[0] == a[0];
      SpanNameOf(a[1..], t);
      assert [a[0]] + a[1..] == a;
    } else {
      assert a + t == t;
    }
  }

  lemma {:induction false} SpanUntilOf(a: string, stop: char, t: string)
    requires Excludes(a, stop)
    requires |t| > 0 && t[0] == stop
    ensures SpanUntil(a + t, stop) == (a, t)
  {
    if a != [] {
      assert (a + t)[1..] == a[1..] + t;
      assert (a + t)[0] == a[0];
      SpanUntilOf(a[1..], stop, t);
      assert [a[0]] + a[1..] == a;
    } else {
      assert a + t == t;
    }
  }

  /** The text of a non-empty attribute list, split at its first attribute. */
  lemma RenderAttrsCons(attrs: seq<Attr>, t: string)
    requires attrs != []
    ensures RenderAttrs(attrs) + t
         == " " + (attrs[0].name + ("=\"" + (attrs[0].value + ("\"" + (RenderAttrs(attrs[1..]) + t)))))
  {
  }

  lemma {:induction false} ParseAttrsOf(attrs: seq<Attr>, t: string)
    requires WellFormedAttrs(attrs)
    requires t == [] || t[0] != ' '
    ensures ParseAttrs(RenderAttrs(attrs) + t) == (attrs, t)
  {
    if attrs == [] {
      assert RenderAttrs(attrs) + t == t;
    } else {
      var a := attrs[0];
      var more := RenderAttrs(attrs[1..]) + t;
      var w := a.value + ("\"" + more);
      var r1 := "=\"" + w;
      var s := RenderAttrs(attrs) + t;
      RenderAttrsCons(attrs, t);
      assert s == " " + (a.name + r1);
      assert s[0] == ' ' && s[1..] == a.name + r1;
      SpanNameOf(a.name, r1);
      assert r1[2..] == w;
      SpanUntilOf(a.value, '"', "\"" + more);
      assert ("\"" + more)[1..] == more;
      ParseAttrsOf(attrs[1..], t);
      assert [a] + attrs[1..] == attrs;
    }
  }

  lemma DropCloseOf(name: string, rest: string)
    ensures DropClose(name, CloseTag(name) + rest) == Some(rest)
  {
    var c := CloseTag(name);
    assert (c + rest)[..|c|] == c;
    assert (c + rest)[|c|..] == rest;
  }

  /** Reading an element's start tag hands what follows it to ParseContent. */
  lemma ParseOpen(n: Node, tail: string)
    requires IsName(n.name) && WellFormedAttrs(n.attrs)
    requires tail != [] && (tail[0] == '/' || tail[0] == '>')
    ensures ParseElement(OpenTag(n) + tail) == ParseContent(n.name, n.attrs, tail)
  {
    var s := OpenTag(n) + tail;
    var ra := RenderAttrs(n.attrs);
    assert s == "<" + (n.name + (ra + tail));
    assert s[1..] == n.name + (ra + tail);
    if ra != [] {
      assert (ra + tail)[0] == ' ';
    } else {
      assert ra + tail == tail;
    }
    SpanNameOf(n.name, ra + tail);
    ParseAttrsOf(n.attrs, tail);
  }

  /** Reading the rendering of a well-formed node, followed by anything, gives its canonical form. */
  lemma {:induction false} ParseRender(n: Node, rest: string)
    requires WellFormed(n)
    ensures ParseElement(Render(n) + rest) == Some((Canon(n), rest))
    decreases n, 1
  {
    match n.content
    case Empty =>
      ParseEmpty(n, rest);
    case Text(v) =>
      ParseText(n, rest);
    case Elements(kids) =>
      if kids == [] {
        ParseEmpty(n, rest);
      } else {
        ParseBranch(n, rest);
      }
  }

  lemma {:induction false} ParseBranch(n: Node, rest: string)
    requires WellFormed(n) && n.content.Elements? && n.content.kids != []
    ensures ParseElement(Render(n) + rest) == Some((Canon(n), rest))
    decreases n, 0
  {
    var kids := n.content.kids;
    var inner := RenderAll(kids);
    var close := CloseTag(n.name) + rest;
    var r3 := inner + close;
    var tail := ">" + r3;
    assert Render(n) == OpenTag(n) + ">" + inner + CloseTag(n.name);
    assert Render(n) + rest == OpenTag(n) + tail;
    ParseOpen(n, tail);
    RenderStartsElement(kids[0], RenderAll(kids[1..]) + close);
    RenderAllCons(kids, close);
    CloseIsNotElement(n.name, rest);
    ParseRenderAll(kids, close);
    DropCloseOf(n.name, rest);
    ParseContentBranch(n.name, n.attrs, r3, CanonAll(kids), close, rest);
  }

  lemma RenderAllCons(ns: seq<Node>, t: string)
    requires ns != []
    ensures RenderAll(ns) + t == Render(ns[0]) + (RenderAll(ns[1..]) + t)
  {
  }

  lemma CloseIsNotElement(name: string, rest: string)
    ensures !StartsElement(CloseTag(name) + rest)
  {
    assert (CloseTag(name) + rest)[1] == '/';
  }

  lemma ParseContentBranch(name: string, attrs: seq<Attr>, r3: string, kids: seq<Node>, r4: string, r5: string)
    requires StartsElement(r3)
    requires ParseElements(r3) == Some((kids, r4))
    requires DropClose(name, r4) == Some(r5)
    ensures ParseContent(name, attrs, ">" + r3) == Some((Node(name, attrs, Elements(kids)), r5))
  {
    assert (">" + r3)[1..] == r3;
  }

  lemma ParseEmpty(n: Node, rest: string)
    requires WellFormed(n)
    requires n.content.Empty? || n.content == Elements([])
    ensures ParseElement(Render(n) + rest) == Some((Canon(n), rest))
  {
    var tail := "/>" + rest;
    assert Render(n) + rest == OpenTag(n) + tail;
    ParseOpen(n, tail);
    assert tail[2..] == rest;
  }

  lemma ParseText(n: Node, rest: string)
    requires WellFormed(n) && n.content.Text?
    ensures ParseElement(Render(n) + rest) == Some((Canon(n), rest))
  {
    var text := ScalarText(n.content.scalar);
    var close := CloseTag(n.name) + rest;
    var tail := ">" + (text + close);
    assert Render(n) + rest == OpenTag(n) + tail;
    ParseOpen(n, tail);
    assert tail[1..] == text + close;
    if text == [] {
      assert tail[1..] == close;
    } else {
      assert tail[1..][0] == text[0];
    }
    assert !StartsElement(tail[1..]);
    SpanUntilOf(text, '<', close);
    DropCloseOf(n.name, rest);
  }

  lemma {:induction false} ParseRenderAll(ns: seq<Node>, rest: string)
    requires forall k :: k in ns ==> WellFormed(k)
    requires !StartsElement(rest)
    ensures ParseElements(RenderAll(ns) + rest) == Some((CanonAll(ns), rest))
    decreases ns, 2
  {
    if ns == [] {
      assert RenderAll(ns) + rest == rest;
    } else {
      var more := RenderAll(ns[1..]) + rest;
      assert RenderAll(ns) + rest == Render(ns[0]) + more;
      RenderStartsElement(ns[0], more);
      ParseRender(ns[0], more);
      ParseRenderAll(ns[1..], rest);
    }
  }

  /** A well-formed node's text begins like an element. */
  lemma RenderStartsElement(n: Node, rest: string)
    requires WellFormed(n)
    ensures StartsElement(Render(n) + rest)
  {
    var s := Render(n) + rest;
    assert s == "<" + (n.name + (RenderAttrs(n.attrs) + s[|n.name| + |RenderAttrs(n.attrs)| + 1..]));
    assert s[1] == n.name[0];
  }

  /** The reader inverts the serializer on well-formed trees. */
  lemma RoundTrip(n: Node)
    requires WellFormed(n)
    ensures ParseDocument(Render(n)) == Some(Canon(n))
  {
    ParseRender(n, "");
    assert Render(n) + "" == Render(n);
  }

  /** Canonicalising a tree does not change its text. */
  lemma {:induction false} RenderCanon(n: Node)
    ensures Render(Canon(n)) == Render(n)
    decreases n, 1
  {
    match n.content
    case Empty =>
    case Text(v) =>
    case Elements(kids) =>
      if kids != [] {
        RenderAllCanon(kids);
      }
  }

  lemma {:induction false} RenderAllCanon(ns: seq<Node>)
    ensures RenderAll(CanonAll(ns)) == RenderAll(ns)
    decreases ns, 0
  {
    if ns != [] {
      RenderCanon(ns[0]);
      RenderAllCanon(ns[1..]);
      assert CanonAll(ns)[1..] == CanonAll(ns[1..]);
    }
  }

  /** Two well-formed trees render to the same text exactly when their canonical forms agree. */
  lemma SameText(a: Node, b: Node)
    requires WellFormed(a) && WellFormed(b)
    ensures Render(a) == Render(b) <==> Canon(a) == Canon(b)
  {
    RoundTrip(a);
    RoundTrip(b);
    RenderCanon(a);
    RenderCanon(b);
  }
}
