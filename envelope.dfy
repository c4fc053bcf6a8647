/**
  The command envelope every request document shares: an `epp` root bound
  to the envelope namespace, holding either a bare `hello` or a `command`
  element with one operation element followed by the caller's client
  transaction id in `clTRID`.
*/
module Envelope {
  import opened Wrappers
  import opened Errors
  import opened Xml
  import opened XmlReader
  import opened Namespaces

  function CommandDocument(eppUri: string, op: Node, trid: string): Node {
    Node("epp", [Attr("xmlns", eppUri)], Elements([Branch("command", [op, Leaf("clTRID", trid)])]))
  }

  /** The operation element and transaction id a command document carries, if it is one. */
  function Unwrap(doc: Node): Option<(Node, string)> {
    if doc.name == "epp" && |Kids(doc)| == 1 && Kids(doc)[0].name == "command" then
      var parts := Kids(Kids(doc)[0]);
      if |parts| == 2 && parts[1].name == "clTRID" && parts[1].attrs == []
         && parts[1].content.Text? && parts[1].content.scalar.Str?
      then Some((parts[0], parts[1].content.scalar.text))
      else None
    else None
  }

  /** Unwrap recovers what CommandDocument wrapped. */
  lemma UnwrapCommand(eppUri: string, op: Node, trid: string)
    ensures Unwrap(CommandDocument(eppUri, op, trid)) == Some((op, trid))
  {
  }

  lemma BareText(name: string)
    ensures Render(Bare(name)) == "<" + name + "/>"
  {
  }

  /** The operation element and the clTRID leaf are rendered inside the document. */
  lemma CommandContains(eppUri: string, op: Node, trid: string)
    ensures Infix(Render(op), Render(CommandDocument(eppUri, op, trid)))
    ensures Infix("<clTRID>" + trid + "</clTRID>", Render(CommandDocument(eppUri, op, trid)))
  {
    var doc := CommandDocument(eppUri, op, trid);
    var tr := Leaf("clTRID", trid);
    var cmd := Branch("command", [op, tr]);
    ChildRendersInside(cmd, op);
    ChildRendersInside(cmd, tr);
    ChildRendersInside(doc, cmd);
    InfixTrans(Render(op), Render(cmd), Render(doc));
    InfixTrans(Render(tr), Render(cmd), Render(doc));
    ClTridText(trid);
  }

  lemma ClTridText(trid: string)
    ensures Render(Leaf("clTRID", trid)) == "<clTRID>" + trid + "</clTRID>"
  {
    LeafText("clTRID", trid);
    assert "<" + "clTRID" + ">" == "<clTRID>";
    assert "</" + "clTRID" + ">" == "</clTRID>";
  }

  /** The text of a command: the operation, when it was built, wrapped with the envelope namespace and `trid`. */
  function Command(reg: Registry, op: Result<Node, Error>, trid: string): (r: Result<string, Error>)
    ensures op.Failure? ==> r == Failure(op.error)
    ensures op.Success? ==> (r.Success? <==> "epp" in reg)
    ensures op.Success? && "epp" !in reg ==> r == Failure(ConfigurationError("epp"))
    ensures r.Success? ==> Infix(Render(op.value), r.value)
    ensures r.Success? ==> Infix("<clTRID>" + trid + "</clTRID>", r.value)
  {
    var o :- op;
    var uri :- Lookup(reg, "epp");
    CommandContains(uri, o, trid);
    Success(Render(CommandDocument(uri, o, trid)))
  }

  /** Every element collected from the operation element shows, as a whole, in the command's text. */
  lemma InCommand(reg: Registry, op: Node, trid: string, m: Node)
    requires Command(reg, Success(op), trid).Success?
    requires m in Collect(op, m.name)
    ensures Infix(Render(m), Command(reg, Success(op), trid).value)
  {
    CollectedRendersInside(op, m.name, m);
    InfixTrans(Render(m), Render(op), Command(reg, Success(op), trid).value);
  }

  /** A command document reads back as the same document over the operation's canonical form. */
  lemma DocumentReadsBack(eppUri: string, op: Node, trid: string)
    requires WellFormed(op) && Excludes(eppUri, '"') && Excludes(trid, '<')
    ensures ParseDocument(Render(CommandDocument(eppUri, op, trid))) == Some(CommandDocument(eppUri, Canon(op), trid))
  {
    DocumentWellFormed(eppUri, op, trid);
    RoundTrip(CommandDocument(eppUri, op, trid));
    DocumentCanon(eppUri, op, trid);
  }

  lemma DocumentWellFormed(eppUri: string, op: Node, trid: string)
    requires WellFormed(op) && Excludes(eppUri, '"') && Excludes(trid, '<')
    ensures WellFormed(CommandDocument(eppUri, op, trid))
  {
    var tr := Leaf("clTRID", trid);
    assert IsName("epp") && IsName("command") && IsName("clTRID") && IsName("xmlns");
    assert WellFormed(tr);
    assert WellFormed(Branch("command", [op, tr]));
  }

  /** Canonicalising a command document canonicalises its operation and leaves the rest alone. */
  lemma DocumentCanon(eppUri: string, op: Node, trid: string)
    ensures Canon(CommandDocument(eppUri, op, trid)) == CommandDocument(eppUri, Canon(op), trid)
  {
    var tr := Leaf("clTRID", trid);
    var cmd := Branch("command", [op, tr]);
    assert Canon(tr) == tr;
    assert CanonAll([tr]) == [tr] by {
      assert [tr][1..] == [];
    }
    assert [op, tr][1..] == [tr];
    assert CanonAll([op, tr]) == [Canon(op), tr];
    assert Canon(cmd) == Branch("command", [Canon(op), tr]);
    assert CanonAll([cmd]) == [Canon(cmd)];
  }

  /** Reading a command's text back gives the envelope namespace, the operation (canonically) and `trid`. */
  lemma CommandReadsBack(reg: Registry, op: Node, trid: string)
    requires "epp" in reg
    requires WellFormed(op) && Excludes(reg["epp"], '"') && Excludes(trid, '<')
    ensures Command(reg, Success(op), trid).Success?
    ensures var doc := ParseDocument(Command(reg, Success(op), trid).value);
            doc.Some? && doc.value.attrs == [Attr("xmlns", reg["epp"])] && Unwrap(doc.value) == Some((Canon(op), trid))
  {
    assert Command(reg, Success(op), trid).value == Render(CommandDocument(reg["epp"], op, trid));
    DocumentReadsBack(reg["epp"], op, trid);
    UnwrapCommand(reg["epp"], Canon(op), trid);
  }

  function HelloDocument(eppUri: string): Node {
    Node("epp", [Attr("xmlns", eppUri)], Elements([Bare("hello")]))
  }

  /** `hello` stands alone: a self-closing `<hello/>` directly under the root, with no command and no clTRID. */
  function Hello(reg: Registry): (r: Result<string, Error>)
    ensures r.Success? <==> "epp" in reg
    ensures r.Failure? ==> r.error == ConfigurationError("epp")
    ensures r.Success? ==> Infix("<hello/>", r.value)
  {
    var uri :- Lookup(reg, "epp");
    var doc := HelloDocument(uri);
    assert Bare("hello") in Collect(doc, "hello");
    CollectedRendersInside(doc, "hello", Bare("hello"));
    BareText("hello");
    Success(Render(doc))
  }

  /** Reading hello's text back gives a root whose only child is the empty `hello` element. */
  lemma HelloReadsBack(reg: Registry)
    requires "epp" in reg && Excludes(reg["epp"], '"')
    ensures var doc := ParseDocument(Hello(reg).value);
            doc.Some? && doc.value.name == "epp" && doc.value.attrs == [Attr("xmlns", reg["epp"])]
            && Kids(doc.value) == [Bare("hello")] && Unwrap(doc.value).None?
  {
    var doc := HelloDocument(reg["epp"]);
    assert IsName("epp") && IsName("hello") && IsName("xmlns");
    assert WellFormed(Bare("hello"));
    assert WellFormed(doc);
    RoundTrip(doc);
  }

  /** `logout` is a self-closing element inside the command envelope. */
  function Logout(reg: Registry, trid: string): (r: Result<string, Error>)
    ensures r.Success? <==> "epp" in reg
    ensures r.Failure? ==> r.error == ConfigurationError("epp")
    ensures r.Success? ==> Infix("<logout/>", r.value) && Infix("<clTRID>" + trid + "</clTRID>", r.value)
  {
    BareText("logout");
    Command(reg, Success(Bare("logout")), trid)
  }
}
