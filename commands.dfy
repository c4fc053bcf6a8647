/**
  The command builders: one per protocol verb (`login`, `logout`, `hello`
  live in Envelope) and per object verb. Each builder turns a descriptor
  into the operation element, binding the object's prefix to its namespace
  through the registry, and then wraps it in the command envelope.

  Validation of the descriptor happens before any namespace is looked up,
  so a descriptor error is reported even when the registry is incomplete.
*/
module Commands {
  import opened Wrappers
  import opened Errors
  import opened Xml
  import opened XmlReader
  import opened Namespaces
  import opened Fields
  import opened Envelope

  // ---------------------------------------------------------------------
  // Shared shapes

  /** `<type:verb xmlns:type="uri">`: an object element bound to its namespace through the registry. */
  function ObjectElement(reg: Registry, objectType: string, verb: string, kids: seq<Node>): (r: Result<Node, Error>)
    ensures r.Success? <==> objectType in reg
    ensures r.Failure? ==> r.error == ConfigurationError(objectType)
    ensures r.Success? ==> r.value.name == objectType + ":" + verb && Kids(r.value) == kids
    ensures r.Success? ==> r.value.attrs == [Attr("xmlns:" + objectType, reg[objectType])]
    ensures r.Success? ==> r.value.content == Elements(kids)
    ensures r.Success? && kids != [] ==>
              Infix("xmlns:" + objectType + "=\"" + reg[objectType] + "\"", Render(r.value))
  {
    var uri :- Lookup(reg, objectType);
    var obj := Node(objectType + ":" + verb, [Attr("xmlns:" + objectType, uri)], Elements(kids));
    var decl := "xmlns:" + objectType + "=\"" + uri + "\"";
    assert RenderAttrs(obj.attrs) == " " + decl;
    assert OpenTag(obj) == "<" + obj.name + " " + decl + "";
    InfixMiddle("<" + obj.name + " ", decl, "");
    OpenTagInside(obj);
    InfixTrans(decl, OpenTag(obj), Render(obj));
    Success(obj)
  }

  /** Whether an optional authInfo descriptor can be processed: absent, or carrying a password. */
  predicate AuthOk(a: Option<AuthInfo>) {
    a.None? || Password(a.value).Some?
  }

  /** The `type:authInfo` section when the descriptor has one. */
  function OptAuthInfo(a: Option<AuthInfo>, objectType: string): (r: Result<seq<Node>, Error>)
    ensures r.Success? <==> AuthOk(a)
    ensures r.Failure? ==> r.error == ValidationError(PW_REQUIRED)
    ensures r.Success? && a.Some? ==> r.value == [AuthInfoSection(a.value, objectType).value]
    ensures r.Success? && a.None? ==> r.value == []
  {
    if a.None? then Success([])
    else
      var section :- AuthInfoSection(a.value, objectType);
      Success([section])
  }

  function OptPeriod(p: Option<Period>): seq<Node> {
    if p.Some? then [ProcessDomainPeriod(p.value)] else []
  }

  /** What lies inside a node collected from the operation element lies inside the command text. */
  lemma ShownIn(s: string, m: Node, op: Node, text: string)
    requires Infix(s, Render(m)) && m in Collect(op, m.name) && Infix(Render(op), text)
    ensures Infix(s, text)
  {
    CollectedRendersInside(op, m.name, m);
    InfixTrans(s, Render(m), Render(op));
    InfixTrans(s, Render(op), text);
  }

  /** A leaf's whole text lies inside the command text when the leaf is collected from the operation element. */
  lemma LeafShownIn(name: string, t: string, op: Node, text: string)
    requires Leaf(name, t) in Collect(op, name) && Infix(Render(op), text)
    ensures Infix(StartTag(name) + t + CloseTag(name), text)
  {
    LeafText(name, t);
    SelfInfix(Render(Leaf(name, t)));
    ShownIn(Render(Leaf(name, t)), Leaf(name, t), op, text);
  }

  /** A node two levels below the operation element (in the object element) is collected from it. */
  lemma InObject(op: Node, obj: Node, m: Node)
    requires obj in Kids(op) && m in Kids(obj)
    ensures m in Collect(op, m.name)
  {
    KidCollected(obj, m);
    CollectKid(op, obj, m.name, m);
  }

  // ---------------------------------------------------------------------
  // callConvert

  /** The text of a processed field, rendered inside a wrapper element called `root`. */
  function CallConvert(field: Node, root: string): (r: string)
    ensures Infix(Render(field), r)
  {
    ChildRendersInside(Branch(root, [field]), field);
    Render(Branch(root, [field]))
  }

  /** A domain password record with roid converts to `<domain:pw roid="...">pw</domain:pw>`. */
  lemma ConvertDomainAuthInfo(p: string, roid: string, root: string)
    ensures Infix(RoidPwOpen("domain", roid) + ">" + p + CloseTag("domain:pw"),
                  CallConvert(ProcessAuthInfo(Structured(Some(p), Some(roid)), "domain").value, root))
  {
    var pw := ProcessAuthInfo(Structured(Some(p), Some(roid)), "domain").value;
    AuthInfoText(p, Some(roid), "domain");
    assert "domain" + ":pw" == "domain:pw";
  }

  /** A contact password record, with or without roid, and a bare password all convert to `<contact:pw>pw</contact:pw>`. */
  lemma ConvertContactAuthInfo(p: string, roid: Option<string>, root: string)
    ensures Infix(StartTag("contact:pw") + p + CloseTag("contact:pw"),
                  CallConvert(ProcessAuthInfo(Structured(Some(p), roid), "contact").value, root))
    ensures Infix(StartTag("contact:pw") + p + CloseTag("contact:pw"),
                  CallConvert(ProcessAuthInfo(Plain(p), "contact").value, root))
  {
    var pw := ProcessAuthInfo(Structured(Some(p), roid), "contact").value;
    AuthInfoText(p, roid, "contact");
    assert "contact" + ":pw" == "contact:pw";
    PlainIsStructured(p, "contact");
  }

  // ---------------------------------------------------------------------
  // login

  datatype LoginData = LoginData(login: string, password: string)

  /** `<login>` with the client id and its password. */
  function LoginOp(d: LoginData): Node {
    Branch("login", [Leaf("clID", d.login), Leaf("pw", d.password)])
  }

  function Login(reg: Registry, d: LoginData, trid: string): (r: Result<string, Error>)
    ensures r.Success? <==> "epp" in reg
    ensures r.Failure? ==> r.error == ConfigurationError("epp")
    ensures r.Success? ==> Infix(StartTag("login"), r.value)
    ensures r.Success? ==> Infix(StartTag("clID") + d.login + CloseTag("clID"), r.value)
    ensures r.Success? ==> Infix(StartTag("pw") + d.password + CloseTag("pw"), r.value)
    ensures r.Success? ==> Infix("<clTRID>" + trid + "</clTRID>", r.value)
  {
    var op := LoginOp(d);
    var text :- Command(reg, Success(op), trid);
    assert OpenTag(op) + ">" == StartTag("login");
    assert Render(op) == StartTag("login") + (RenderAll(Kids(op)) + CloseTag("login"));
    PrefixInfix(StartTag("login"), RenderAll(Kids(op)) + CloseTag("login"));
    InfixTrans(StartTag("login"), Render(op), text);
    InObjectLeaf(op, Leaf("clID", d.login));
    LeafShownIn("clID", d.login, op, text);
    InObjectLeaf(op, Leaf("pw", d.password));
    LeafShownIn("pw", d.password, op, text);
    Success(text)
  }

  lemma InObjectLeaf(op: Node, m: Node)
    requires m in Kids(op)
    ensures m in Collect(op, m.name)
  {
    KidCollected(op, m);
  }

  /** The login text reads back as a command whose operation is the login element itself. */
  lemma LoginReadsBack(reg: Registry, d: LoginData, trid: string)
    requires "epp" in reg && Excludes(reg["epp"], '"')
    requires Excludes(d.login, '<') && Excludes(d.password, '<') && Excludes(trid, '<')
    ensures var doc := ParseDocument(Login(reg, d, trid).value);
            doc.Some? && Unwrap(doc.value) == Some((LoginOp(d), trid))
  {
    var op := LoginOp(d);
    assert IsName("login") && IsName("clID") && IsName("pw");
    assert WellFormed(Leaf("clID", d.login)) && WellFormed(Leaf("pw", d.password));
    assert WellFormed(op);
    CommandReadsBack(reg, op, trid);
    var kids := [Leaf("clID", d.login), Leaf("pw", d.password)];
    assert kids[1..] == [Leaf("pw", d.password)];
    assert [Leaf("pw", d.password)][1..] == [];
    assert Canon(Leaf("pw", d.password)) == Leaf("pw", d.password);
    assert CanonAll([Leaf("pw", d.password)]) == [Leaf("pw", d.password)];
    assert Canon(Leaf("clID", d.login)) == Leaf("clID", d.login);
    assert CanonAll(kids) == kids;
    assert Canon(op) == op;
  }

  // ---------------------------------------------------------------------
  // checkDomain

  /** The domain names to check; a single name is the one-element list. */
  datatype CheckDomainData = CheckDomainData(names: seq<string>)

  /** `<check><domain:check>` holding one `domain:name` per checked name. */
  function CheckDomainOp(reg: Registry, d: CheckDomainData): (r: Result<Node, Error>)
    ensures r.Success? <==> "domain" in reg
    ensures r.Failure? ==> r.error == ConfigurationError("domain")
    ensures r.Success? ==> r.value.name == "check" && |Kids(r.value)| == 1 && Kids(r.value)[0].name == "domain:check"
    ensures r.Success? ==> Collect(r.value, "domain:name") == Leaves("domain:name", d.names)
  {
    var obj :- ObjectElement(reg, "domain", "check", Leaves("domain:name", d.names));
    var op := Branch("check", [obj]);
    assert Collect(op, "domain:name") == Leaves("domain:name", d.names) by {
      assert [obj][1..] == [];
      assert CollectAll([obj], "domain:name") == Collect(obj, "domain:name");
      CollectLeaves("domain:name", d.names);
    }
    Success(op)
  }

  function CheckDomain(reg: Registry, d: CheckDomainData, trid: string): (r: Result<string, Error>)
    ensures r.Success? <==> "domain" in reg && "epp" in reg
    ensures r.Failure? ==> r.error == ConfigurationError(if "domain" !in reg then "domain" else "epp")
    ensures r.Success? ==> forall n :: n in d.names ==> Infix(StartTag("domain:name") + n + CloseTag("domain:name"), r.value)
    ensures r.Success? ==> Infix("<clTRID>" + trid + "</clTRID>", r.value)
  {
    var op :- CheckDomainOp(reg, d);
    var text :- Command(reg, Success(op), trid);
    CheckedNamesShown(d.names, op, text);
    Success(text)
  }

  lemma CheckedNamesShown(names: seq<string>, op: Node, text: string)
    requires Collect(op, "domain:name") == Leaves("domain:name", names) && Infix(Render(op), text)
    ensures forall n :: n in names ==> Infix(StartTag("domain:name") + n + CloseTag("domain:name"), text)
  {
    forall n | n in names
      ensures Infix(StartTag("domain:name") + n + CloseTag("domain:name"), text)
    {
      var i :| 0 <= i < |names| && names[i] == n;
      assert Leaves("domain:name", names)[i] == Leaf("domain:name", n);
      LeafShownIn("domain:name", n, op, text);
    }
  }

  /** The text of a one-name check: `<check>` holds `domain:check`, whose first element is the `domain:name`. */
  lemma CheckDomainText(reg: Registry, name: string)
    requires "domain" in reg
    ensures var op := CheckDomainOp(reg, CheckDomainData([name])).value;
            |Kids(op)| == 1 && Kids(op)[0].name == "domain:check" &&
            Render(op) == StartTag("check") + Render(Kids(op)[0]) + CloseTag("check") &&
            Render(Kids(op)[0]) == OpenTag(Kids(op)[0]) + ">"
                                   + StartTag("domain:name") + name + CloseTag("domain:name")
                                   + CloseTag("domain:check")
  {
    var leaf := Leaf("domain:name", name);
    var obj := Node("domain:check", [Attr("xmlns:domain", reg["domain"])], Elements([leaf]));
    assert Leaves("domain:name", [name]) == [leaf];
    assert "domain" + ":" + "check" == "domain:check";
    assert "xmlns:" + "domain" == "xmlns:domain";
    assert ObjectElement(reg, "domain", "check", [leaf]).value == obj;
    assert CheckDomainOp(reg, CheckDomainData([name])).value == Branch("check", [obj]);
    SingleText(Branch("check", [obj]));
    SingleText(obj);
  }

  // ---------------------------------------------------------------------
  // transferDomain

  const TRANSFER_OPS: seq<string> := ["approve", "cancel", "query", "reject", "request"]

  /** `ops` separated by `, `. */
  function CommaList(ops: seq<string>): string {
    if ops == [] then "" else if |ops| == 1 then ops[0] else ops[0] + ", " + CommaList(ops[1..])
  }

  /** The error for an operation outside TRANSFER_OPS: it lists exactly those, in order. */
  const TRANSFER_OP_MESSAGE := "Transfer domain op must be one of the following: [" + CommaList(TRANSFER_OPS) + "]."

  lemma CommaCons(op: string, rest: seq<string>)
    requires rest != []
    ensures CommaList([op] + rest) == op + ", " + CommaList(rest)
  {
    assert ([op] + rest)[1..] == rest;
  }

  /** The message lists the five operations as the suite expects them. */
  lemma TransferOpsListed()
    ensures CommaList(TRANSFER_OPS) == "approve, cancel, query, reject, request"
  {
    ApproveListed();
  }

  lemma ApproveListed()
    ensures CommaList(["approve", "cancel", "query", "reject", "request"]) == "approve, cancel, query, reject, request"
  {
    CancelListed();
    CommaCons("approve", ["cancel", "query", "reject", "request"]);
    assert ["approve"] + ["cancel", "query", "reject", "request"] == ["approve", "cancel", "query", "reject", "request"];
  }

  lemma CancelListed()
    ensures CommaList(["cancel", "query", "reject", "request"]) == "cancel, query, reject, request"
  {
    QueryListed();
    CommaCons("cancel", ["query", "reject", "request"]);
    assert ["cancel"] + ["query", "reject", "request"] == ["cancel", "query", "reject", "request"];
  }

  lemma QueryListed()
    ensures CommaList(["query", "reject", "request"]) == "query, reject, request"
  {
    RejectListed();
    CommaCons("query", ["reject", "request"]);
    assert ["query"] + ["reject", "request"] == ["query", "reject", "request"];
  }

  lemma RejectListed()
    ensures CommaList(["reject", "request"]) == "reject, request"
  {
    CommaCons("reject", ["request"]);
    assert ["reject"] + ["request"] == ["reject", "request"];
  }

  datatype TransferDomainData = TransferDomainData(name: string, op: string, period: Option<Period>, authInfo: Option<AuthInfo>)

  /** Whether the descriptor has a password for the transfer. */
  predicate HasPassword(a: Option<AuthInfo>) {
    a.Some? && Password(a.value).Some?
  }

  /** `<transfer op="..."><domain:transfer>` with name, optional period and the mandatory authInfo. */
  function TransferDomainOp(reg: Registry, d: TransferDomainData): (r: Result<Node, Error>)
    ensures d.op !in TRANSFER_OPS ==> r == Failure(ValidationError(TRANSFER_OP_MESSAGE))
    ensures d.op in TRANSFER_OPS && !HasPassword(d.authInfo) ==> r == Failure(ValidationError(PW_REQUIRED))
    ensures r.Success? <==> d.op in TRANSFER_OPS && HasPassword(d.authInfo) && "domain" in reg
    ensures d.op in TRANSFER_OPS && HasPassword(d.authInfo) && "domain" !in reg ==>
              r == Failure(ConfigurationError("domain"))
    ensures r.Success? ==> r.value.name == "transfer" && r.value.attrs == [Attr("op", d.op)]
    ensures r.Success? ==>
              |Kids(r.value)| == 1 && Kids(r.value)[0].name == "domain:transfer" &&
              Child(Kids(r.value)[0], "domain:name") == Some(Leaf("domain:name", d.name)) &&
              AuthInfoSection(d.authInfo.value, "domain").value in Kids(Kids(r.value)[0]) &&
              (d.period.Some? ==> ProcessDomainPeriod(d.period.value) in Kids(Kids(r.value)[0]))
  {
    if d.op !in TRANSFER_OPS then Failure(ValidationError(TRANSFER_OP_MESSAGE))
    else if d.authInfo.None? then Failure(ValidationError(PW_REQUIRED))
    else
      var auth :- AuthInfoSection(d.authInfo.value, "domain");
      var obj :- ObjectElement(reg, "domain", "transfer", [Leaf("domain:name", d.name)] + OptPeriod(d.period) + [auth]);
      Success(Node("transfer", [Attr("op", d.op)], Elements([obj])))
  }

  function TransferDomain(reg: Registry, d: TransferDomainData, trid: string): (r: Result<string, Error>)
    ensures d.op !in TRANSFER_OPS ==> r == Failure(ValidationError(TRANSFER_OP_MESSAGE))
    ensures d.op in TRANSFER_OPS && !HasPassword(d.authInfo) ==> r == Failure(ValidationError(PW_REQUIRED))
    ensures r.Success? <==> d.op in TRANSFER_OPS && HasPassword(d.authInfo) && "domain" in reg && "epp" in reg
    ensures r.Success? ==> Infix("<transfer op=\"" + d.op + "\"", r.value)
    ensures r.Success? ==> Infix("<clTRID>" + trid + "</clTRID>", r.value)
  {
    var op :- TransferDomainOp(reg, d);
    var text :- Command(reg, Success(op), trid);
    TransferOpText(op, d.op);
    InfixTrans("<transfer op=\"" + d.op + "\"", Render(op), text);
    Success(text)
  }

  lemma TransferOpText(n: Node, op: string)
    requires n.name == "transfer" && n.attrs == [Attr("op", op)]
    ensures Infix("<transfer op=\"" + op + "\"", Render(n))
  {
    assert RenderAttrs(n.attrs) == " op=\"" + op + "\"";
    assert OpenTag(n) == "<transfer op=\"" + op + "\"";
    OpenTagInside(n);
  }

  /** What the reader needs of an authInfo descriptor: a password without `<`, a roid without `"`. */
  predicate ReadableAuthInfo(a: AuthInfo) {
    && (Password(a).Some? ==> Excludes(Password(a).value, '<'))
    && (a.Structured? && a.roid.Some? ==> Excludes(a.roid.value, '"'))
  }

  /** What the reader needs of a period descriptor: a unit without `"`. */
  predicate ReadablePeriod(p: Option<Period>) {
    p.Some? ==> Excludes(Unit(p.value), '"')
  }

  lemma DomainAuthWellFormed(a: AuthInfo)
    requires Password(a).Some? && ReadableAuthInfo(a)
    ensures WellFormed(AuthInfoSection(a, "domain").value)
  {
    var pw := ProcessAuthInfo(a, "domain").value;
    DomainAuthNames();
    assert WellFormedAttrs(pw.attrs);
    assert WellFormed(pw);
  }

  lemma DomainAuthNames()
    ensures "domain" + ":pw" == "domain:pw" && IsName("domain:pw")
    ensures "domain" + ":authInfo" == "domain:authInfo" && IsName("domain:authInfo")
    ensures IsName("roid")
  {
  }

  lemma PeriodWellFormed(p: Period)
    requires Excludes(Unit(p), '"')
    ensures WellFormed(ProcessDomainPeriod(p))
  {
    assert IsName("domain:period") && IsName("unit");
    var digits := Decimal(Count(p));
    assert forall i :: 0 <= i < |digits| ==> digits[i] != '<';
  }

  lemma TransferOpReadable(op: string)
    requires op in TRANSFER_OPS
    ensures Excludes(op, '"')
  {
  }

  /** Under the reader's requirements on the descriptor's strings, the transfer element is well formed. */
  lemma TransferOpWellFormed(reg: Registry, d: TransferDomainData)
    requires "domain" in reg && Excludes(reg["domain"], '"')
    requires d.op in TRANSFER_OPS && HasPassword(d.authInfo)
    requires Excludes(d.name, '<') && ReadableAuthInfo(d.authInfo.value) && ReadablePeriod(d.period)
    ensures WellFormed(TransferDomainOp(reg, d).value)
  {
    var auth := AuthInfoSection(d.authInfo.value, "domain").value;
    var name := Leaf("domain:name", d.name);
    var kids := [name] + OptPeriod(d.period) + [auth];
    var obj := Node("domain:transfer", [Attr("xmlns:domain", reg["domain"])], Elements(kids));
    TransferNames();
    assert TransferDomainOp(reg, d).value == Node("transfer", [Attr("op", d.op)], Elements([obj]));
    DomainAuthWellFormed(d.authInfo.value);
    if d.period.Some? {
      PeriodWellFormed(d.period.value);
    }
    assert WellFormed(name);
    assert forall k :: k in kids ==> WellFormed(k);
    TransferObjectWellFormed(reg["domain"], kids);
    TransferOpReadable(d.op);
  }

  lemma TransferObjectWellFormed(uri: string, kids: seq<Node>)
    requires Excludes(uri, '"') && forall k :: k in kids ==> WellFormed(k)
    ensures WellFormed(Node("domain:transfer", [Attr("xmlns:domain", uri)], Elements(kids)))
  {
    TransferNames();
  }

  lemma TransferNames()
    ensures IsName("transfer") && IsName("op") && IsName("domain:transfer") && IsName("xmlns:domain")
    ensures IsName("domain:name")
    ensures "domain" + ":" + "transfer" == "domain:transfer" && "xmlns:" + "domain" == "xmlns:domain"
  {
  }

  /** The transfer text reads back as a command whose operation is a `transfer` element with the requested op. */
  lemma TransferReadsBack(reg: Registry, d: TransferDomainData, trid: string)
    requires "epp" in reg && "domain" in reg && Excludes(reg["epp"], '"') && Excludes(reg["domain"], '"')
    requires d.op in TRANSFER_OPS && HasPassword(d.authInfo)
    requires Excludes(d.name, '<') && ReadableAuthInfo(d.authInfo.value) && ReadablePeriod(d.period)
    requires Excludes(trid, '<')
    ensures var doc := ParseDocument(TransferDomain(reg, d, trid).value);
            doc.Some? && Unwrap(doc.value).Some? &&
            Unwrap(doc.value).value.0.name == "transfer" &&
            Unwrap(doc.value).value.0.attrs == [Attr("op", d.op)] &&
            Unwrap(doc.value).value.1 == trid
  {
    var op := TransferDomainOp(reg, d).value;
    assert TransferDomain(reg, d, trid) == Command(reg, Success(op), trid);
    TransferOpWellFormed(reg, d);
    CommandReadsBack(reg, op, trid);
  }

  // ---------------------------------------------------------------------
  // createContact

  datatype CreateContactData = CreateContactData(
    id: string, postalInfo: seq<PostalInfo>, voice: Option<string>, fax: Option<string>, email: string,
    authInfo: Option<AuthInfo>, disclose: Option<Disclose>)

  function OptDisclose(d: Option<Disclose>, objectType: string): seq<Node> {
    if d.Some? then [ProcessDisclose(d.value, objectType)] else []
  }

  function CreateContactKids(d: CreateContactData, auth: seq<Node>): seq<Node> {
    [Leaf("contact:id", d.id)] + ProcessPostalInfos(d.postalInfo, "contact")
    + OptLeaf("contact:voice", d.voice) + OptLeaf("contact:fax", d.fax) + [Leaf("contact:email", d.email)]
    + auth + OptDisclose(d.disclose, "contact")
  }

  /** `<create><contact:create>`: id, postal info, voice, fax, email, authInfo and disclose, in that order. */
  function CreateContactOp(reg: Registry, d: CreateContactData): (r: Result<Node, Error>)
    ensures !AuthOk(d.authInfo) ==> r == Failure(ValidationError(PW_REQUIRED))
    ensures AuthOk(d.authInfo) ==> (r.Success? <==> "contact" in reg)
    ensures AuthOk(d.authInfo) && "contact" !in reg ==> r == Failure(ConfigurationError("contact"))
    ensures r.Success? ==> r.value.name == "create" && |Kids(r.value)| == 1
    ensures r.Success? ==>
              Kids(r.value)[0].name == "contact:create" &&
              Kids(r.value)[0].attrs == [Attr("xmlns:contact", reg["contact"])] &&
              Kids(r.value)[0].content == Elements(CreateContactKids(d, OptAuthInfo(d.authInfo, "contact").value))
  {
    var auth := OptAuthInfo(d.authInfo, "contact");
    if auth.Failure? then Failure(auth.error)
    else
      var obj := ObjectElement(reg, "contact", "create", CreateContactKids(d, auth.value));
      if obj.Failure? then Failure(obj.error)
      else
        assert "contact" + ":" + "create" == "contact:create";
        assert "xmlns:" + "contact" == "xmlns:contact";
        Success(Branch("create", [obj.value]))
  }

  /** Where the parts of a contact descriptor end up in the create operation. */
  lemma CreateContactContents(reg: Registry, d: CreateContactData)
    requires CreateContactOp(reg, d).Success?
    ensures var op := CreateContactOp(reg, d).value;
            && Leaf("contact:id", d.id) in Collect(op, "contact:id")
            && Leaf("contact:email", d.email) in Collect(op, "contact:email")
            && (forall p :: p in d.postalInfo ==> Leaf("contact:name", p.name) in Collect(op, "contact:name"))
            && (forall p, a :: p in d.postalInfo && a in p.addr ==> ProcessAddr(a, "contact") in Collect(op, "contact:addr"))
            && (d.disclose.Some? ==> ProcessDisclose(d.disclose.value, "contact") in Collect(op, "contact:disclose"))
  {
    var op := CreateContactOp(reg, d).value;
    var obj := Kids(op)[0];
    var auth := OptAuthInfo(d.authInfo, "contact").value;
    assert obj in Kids(op) && Kids(obj) == CreateContactKids(d, auth);
    LeavesBelow(op, obj, d, auth);
    ContactNamesCollected(reg, d);
    ContactAddrsCollected(reg, d);
    if d.disclose.Some? {
      DiscloseBelow(op, obj, d, auth);
    }
  }

  lemma LeavesBelow(op: Node, obj: Node, d: CreateContactData, auth: seq<Node>)
    requires obj in Kids(op) && Kids(obj) == CreateContactKids(d, auth)
    ensures Leaf("contact:id", d.id) in Collect(op, "contact:id")
    ensures Leaf("contact:email", d.email) in Collect(op, "contact:email")
  {
    InObject(op, obj, Leaf("contact:id", d.id));
    InObject(op, obj, Leaf("contact:email", d.email));
  }

  lemma DiscloseBelow(op: Node, obj: Node, d: CreateContactData, auth: seq<Node>)
    requires obj in Kids(op) && Kids(obj) == CreateContactKids(d, auth) && d.disclose.Some?
    ensures ProcessDisclose(d.disclose.value, "contact") in Collect(op, "contact:disclose")
  {
    DiscloseIn(d, auth);
    DiscloseName(d.disclose.value);
    InObject(op, obj, ProcessDisclose(d.disclose.value, "contact"));
  }

  lemma ContactNamesCollected(reg: Registry, d: CreateContactData)
    requires CreateContactOp(reg, d).Success?
    ensures forall p :: p in d.postalInfo ==>
              Leaf("contact:name", p.name) in Collect(CreateContactOp(reg, d).value, "contact:name")
  {
    var op := CreateContactOp(reg, d).value;
    NamesBelow(op, Kids(op)[0], d, OptAuthInfo(d.authInfo, "contact").value);
  }

  lemma NamesBelow(op: Node, obj: Node, d: CreateContactData, auth: seq<Node>)
    requires obj in Kids(op) && Kids(obj) == CreateContactKids(d, auth)
    ensures forall p :: p in d.postalInfo ==> Leaf("contact:name", p.name) in Collect(op, "contact:name")
  {
    forall p | p in d.postalInfo
      ensures Leaf("contact:name", p.name) in Collect(op, "contact:name")
    {
      PostalInfoIn(d, auth, p);
      NameInInfo(p);
      ThreeDown(op, obj, ProcessPostalInfo(p, "contact"), Leaf("contact:name", p.name));
    }
  }

  lemma ContactAddrsCollected(reg: Registry, d: CreateContactData)
    requires CreateContactOp(reg, d).Success?
    ensures forall p, a :: p in d.postalInfo && a in p.addr ==>
              ProcessAddr(a, "contact") in Collect(CreateContactOp(reg, d).value, "contact:addr")
  {
    var op := CreateContactOp(reg, d).value;
    AddrsBelow(op, Kids(op)[0], d, OptAuthInfo(d.authInfo, "contact").value);
  }

  lemma AddrsBelow(op: Node, obj: Node, d: CreateContactData, auth: seq<Node>)
    requires obj in Kids(op) && Kids(obj) == CreateContactKids(d, auth)
    ensures forall p, a :: p in d.postalInfo && a in p.addr ==> ProcessAddr(a, "contact") in Collect(op, "contact:addr")
  {
    forall p, a | p in d.postalInfo && a in p.addr
      ensures ProcessAddr(a, "contact") in Collect(op, "contact:addr")
    {
      AddrBelow(op, obj, d, auth, p, a);
    }
  }

  lemma AddrBelow(op: Node, obj: Node, d: CreateContactData, auth: seq<Node>, p: PostalInfo, a: Addr)
    requires obj in Kids(op) && Kids(obj) == CreateContactKids(d, auth)
    requires p in d.postalInfo && a in p.addr
    ensures ProcessAddr(a, "contact") in Collect(op, "contact:addr")
  {
    PostalInfoIn(d, auth, p);
    AddrInInfo(p, a);
    AddrName(a);
    ThreeDown(op, obj, ProcessPostalInfo(p, "contact"), ProcessAddr(a, "contact"));
  }

  lemma AddrName(a: Addr)
    ensures ProcessAddr(a, "contact").name == "contact:addr"
  {
    assert "contact" + ":addr" == "contact:addr";
  }

  lemma NameInInfo(p: PostalInfo)
    ensures Leaf("contact:name", p.name) in Kids(ProcessPostalInfo(p, "contact"))
  {
    assert "contact" + ":name" == "contact:name";
    assert Kids(ProcessPostalInfo(p, "contact"))[0] == Leaf("contact:name", p.name);
  }

  lemma AddrInInfo(p: PostalInfo, a: Addr)
    requires a in p.addr
    ensures ProcessAddr(a, "contact") in Kids(ProcessPostalInfo(p, "contact"))
  {
    PostalInfoContents(p, "contact");
  }

  lemma DiscloseIn(d: CreateContactData, auth: seq<Node>)
    requires d.disclose.Some?
    ensures ProcessDisclose(d.disclose.value, "contact") in CreateContactKids(d, auth)
  {
    assert OptDisclose(d.disclose, "contact") == [ProcessDisclose(d.disclose.value, "contact")];
  }

  lemma PostalInfoIn(d: CreateContactData, auth: seq<Node>, p: PostalInfo)
    requires p in d.postalInfo
    ensures ProcessPostalInfo(p, "contact") in CreateContactKids(d, auth)
  {
    var i :| 0 <= i < |d.postalInfo| && d.postalInfo[i] == p;
    var infos := ProcessPostalInfos(d.postalInfo, "contact");
    assert infos[i] == ProcessPostalInfo(p, "contact");
    assert infos[i] in infos;
  }

  /** A node three levels below the operation element is collected from it. */
  lemma ThreeDown(op: Node, obj: Node, k: Node, m: Node)
    requires obj in Kids(op) && k in Kids(obj) && m in Kids(k)
    ensures m in Collect(op, m.name)
  {
    KidCollected(k, m);
    CollectKid(obj, k, m.name, m);
    CollectKid(op, obj, m.name, m);
  }

  /** The create-contact text: the contact namespace, each postal name, each address with its city, each disclosed field. */
  function CreateContact(reg: Registry, d: CreateContactData, trid: string): (r: Result<string, Error>)
    ensures r.Success? <==> AuthOk(d.authInfo) && "contact" in reg && "epp" in reg
    ensures r.Failure? ==>
              r.error == if !AuthOk(d.authInfo) then ValidationError(PW_REQUIRED)
                         else if "contact" !in reg then ConfigurationError("contact")
                         else ConfigurationError("epp")
    ensures r.Success? ==> Infix("xmlns:contact=\"" + reg["contact"] + "\"", r.value)
    ensures r.Success? ==>
              forall p :: p in d.postalInfo ==>
                Infix(StartTag("contact:name") + p.name + CloseTag("contact:name"), r.value)
    ensures r.Success? ==>
              forall p, a :: p in d.postalInfo && a in p.addr ==>
                Infix(Render(ProcessAddr(a, "contact")), r.value)
    ensures r.Success? && d.disclose.Some? ==>
              Infix(Render(ProcessDisclose(d.disclose.value, "contact")), r.value)
    ensures r.Success? ==> Infix("<clTRID>" + trid + "</clTRID>", r.value)
  {
    var op :- CreateContactOp(reg, d);
    var text :- Command(reg, Success(op), trid);
    CreateContactShown(reg, d, op, text);
    Success(text)
  }

  lemma CreateContactShown(reg: Registry, d: CreateContactData, op: Node, text: string)
    requires CreateContactOp(reg, d) == Success(op) && Infix(Render(op), text)
    ensures Infix("xmlns:contact=\"" + reg["contact"] + "\"", text)
    ensures forall p :: p in d.postalInfo ==>
              Infix(StartTag("contact:name") + p.name + CloseTag("contact:name"), text)
    ensures forall p, a :: p in d.postalInfo && a in p.addr ==> Infix(Render(ProcessAddr(a, "contact")), text)
    ensures d.disclose.Some? ==> Infix(Render(ProcessDisclose(d.disclose.value, "contact")), text)
  {
    CreateContactContents(reg, d);
    ContactNamespaceInText(reg, op, text);
    NamesInText(d, op, text);
    AddrsInText(d, op, text);
    if d.disclose.Some? {
      DiscloseInText(d.disclose.value, op, text);
    }
  }

  lemma DiscloseInText(ds: Disclose, op: Node, text: string)
    requires ProcessDisclose(ds, "contact") in Collect(op, "contact:disclose") && Infix(Render(op), text)
    ensures Infix(Render(ProcessDisclose(ds, "contact")), text)
  {
    var m := ProcessDisclose(ds, "contact");
    DiscloseName(ds);
    SelfInfix(Render(m));
    ShownIn(Render(m), m, op, text);
  }

  lemma DiscloseName(ds: Disclose)
    ensures ProcessDisclose(ds, "contact").name == "contact:disclose"
  {
    assert "contact" + ":disclose" == "contact:disclose";
  }

  lemma ContactNamespaceInText(reg: Registry, op: Node, text: string)
    requires "contact" in reg && |Kids(op)| == 1 && Kids(op)[0].attrs == [Attr("xmlns:contact", reg["contact"])]
    requires Infix(Render(op), text)
    ensures Infix("xmlns:contact=\"" + reg["contact"] + "\"", text)
  {
    var obj := Kids(op)[0];
    ContactNamespaceShown(reg, obj);
    ChildRendersInside(op, obj);
    InfixTrans("xmlns:contact=\"" + reg["contact"] + "\"", Render(obj), Render(op));
    InfixTrans("xmlns:contact=\"" + reg["contact"] + "\"", Render(op), text);
  }

  lemma NamesInText(d: CreateContactData, op: Node, text: string)
    requires forall p :: p in d.postalInfo ==> Leaf("contact:name", p.name) in Collect(op, "contact:name")
    requires Infix(Render(op), text)
    ensures forall p :: p in d.postalInfo ==>
              Infix(StartTag("contact:name") + p.name + CloseTag("contact:name"), text)
  {
    forall p | p in d.postalInfo
      ensures Infix(StartTag("contact:name") + p.name + CloseTag("contact:name"), text)
    {
      LeafShownIn("contact:name", p.name, op, text);
    }
  }

  lemma AddrsInText(d: CreateContactData, op: Node, text: string)
    requires forall p, a :: p in d.postalInfo && a in p.addr ==> ProcessAddr(a, "contact") in Collect(op, "contact:addr")
    requires Infix(Render(op), text)
    ensures forall p, a :: p in d.postalInfo && a in p.addr ==> Infix(Render(ProcessAddr(a, "contact")), text)
  {
    forall p, a | p in d.postalInfo && a in p.addr
      ensures Infix(Render(ProcessAddr(a, "contact")), text)
    {
      var m := ProcessAddr(a, "contact");
      AddrName(a);
      SelfInfix(Render(m));
      ShownIn(Render(m), m, op, text);
    }
  }

  lemma ContactNamespaceShown(reg: Registry, obj: Node)
    requires "contact" in reg && obj.attrs == [Attr("xmlns:contact", reg["contact"])]
    ensures Infix("xmlns:contact=\"" + reg["contact"] + "\"", Render(obj))
  {
    var decl := "xmlns:contact=\"" + reg["contact"] + "\"";
    assert obj.attrs[1..] == [];
    assert RenderAttrs(obj.attrs) == " " + decl;
    assert OpenTag(obj) == "<" + obj.name + " " + decl;
    InfixMiddle("<" + obj.name + " ", decl, "");
    assert "<" + obj.name + " " + decl + "" == OpenTag(obj);
    OpenTagInside(obj);
    InfixTrans(decl, OpenTag(obj), Render(obj));
  }

  // ---------------------------------------------------------------------
  // updateContact

  /** The replacements of a contact update; every part may be left out. */
  datatype ContactChange = ContactChange(
    postalInfo: seq<PostalInfo>, voice: Option<string>, fax: Option<string>, email: Option<string>,
    authInfo: Option<AuthInfo>, disclose: Option<Disclose>)

  datatype UpdateContactData = UpdateContactData(
    id: string, add: Option<seq<Status>>, rem: Option<seq<Status>>, chg: Option<ContactChange>)

  /** An `add` or `rem` section of statuses, omitted when the descriptor has none. */
  function StatusSection(name: string, list: Option<seq<Status>>): seq<Node> {
    if list.Some? then [Branch(name, ProcessStatusList(list.value, "contact"))] else []
  }

  function ContactChangeKids(c: ContactChange, auth: seq<Node>): seq<Node> {
    ProcessPostalInfos(c.postalInfo, "contact") + OptLeaf("contact:voice", c.voice) + OptLeaf("contact:fax", c.fax)
    + OptLeaf("contact:email", c.email) + auth + OptDisclose(c.disclose, "contact")
  }

  predicate ContactChangeOk(c: Option<ContactChange>) {
    c.None? || AuthOk(c.value.authInfo)
  }

  /** The `contact:chg` element of a change whose password, if any, is present. */
  function ContactChangeElement(c: ContactChange): Node
    requires AuthOk(c.authInfo)
  {
    Branch("contact:chg", ContactChangeKids(c, OptAuthInfo(c.authInfo, "contact").value))
  }

  /** The `contact:chg` section, omitted when the descriptor has none. */
  function ContactChangeSection(c: Option<ContactChange>): (r: Result<seq<Node>, Error>)
    ensures r.Success? <==> ContactChangeOk(c)
    ensures r.Failure? ==> r.error == ValidationError(PW_REQUIRED)
    ensures r.Success? && c.None? ==> r.value == []
    ensures r.Success? && c.Some? ==> r.value == [ContactChangeElement(c.value)]
  {
    if c.None? then Success([])
    else
      var auth := OptAuthInfo(c.value.authInfo, "contact");
      if auth.Failure? then Failure(auth.error)
      else Success([Branch("contact:chg", ContactChangeKids(c.value, auth.value))])
  }

  function UpdateContactKids(d: UpdateContactData, chg: seq<Node>): seq<Node> {
    [Leaf("contact:id", d.id)] + StatusSection("contact:add", d.add) + StatusSection("contact:rem", d.rem) + chg
  }

  /** `<update><contact:update>`: the id, then the add, rem and chg sections the descriptor has. */
  function UpdateContactOp(reg: Registry, d: UpdateContactData): (r: Result<Node, Error>)
    ensures !ContactChangeOk(d.chg) ==> r == Failure(ValidationError(PW_REQUIRED))
    ensures ContactChangeOk(d.chg) ==> (r.Success? <==> "contact" in reg)
    ensures ContactChangeOk(d.chg) && "contact" !in reg ==> r == Failure(ConfigurationError("contact"))
    ensures r.Success? ==> r.value.name == "update" && |Kids(r.value)| == 1
    ensures r.Success? ==>
              Kids(r.value)[0].name == "contact:update" &&
              Kids(r.value)[0].attrs == [Attr("xmlns:contact", reg["contact"])] &&
              Kids(r.value)[0].content == Elements(UpdateContactKids(d, ContactChangeSection(d.chg).value))
  {
    var chg := ContactChangeSection(d.chg);
    if chg.Failure? then Failure(chg.error)
    else
      var obj := ObjectElement(reg, "contact", "update", UpdateContactKids(d, chg.value));
      if obj.Failure? then Failure(obj.error)
      else
        ContactUpdateNames();
        Success(Branch("update", [obj.value]))
  }

  lemma ContactUpdateNames()
    ensures "contact" + ":" + "update" == "contact:update" && "xmlns:" + "contact" == "xmlns:contact"
  {
  }

  lemma ContactSectionNames()
    ensures "contact:id" != "contact:add" && "contact:id" != "contact:rem" && "contact:id" != "contact:chg"
    ensures "contact:add" != "contact:rem" && "contact:add" != "contact:chg" && "contact:rem" != "contact:chg"
  {
    assert "contact:add"[8] != "contact:rem"[8];
    assert "contact:add"[8] != "contact:chg"[8];
    assert "contact:rem"[8] != "contact:chg"[8];
  }

  /** Each section is present exactly when the descriptor has it, and add and rem hold the given statuses. */
  lemma UpdateContactSections(reg: Registry, d: UpdateContactData)
    requires UpdateContactOp(reg, d).Success?
    ensures var obj := Kids(UpdateContactOp(reg, d).value)[0];
            && (Child(obj, "contact:add").Some? <==> d.add.Some?)
            && (d.add.Some? ==> Kids(Child(obj, "contact:add").value) == ProcessStatusList(d.add.value, "contact"))
            && (Child(obj, "contact:rem").Some? <==> d.rem.Some?)
            && (d.rem.Some? ==> Kids(Child(obj, "contact:rem").value) == ProcessStatusList(d.rem.value, "contact"))
            && (Child(obj, "contact:chg").Some? <==> d.chg.Some?)
  {
    var obj := Kids(UpdateContactOp(reg, d).value)[0];
    var chg := ContactChangeSection(d.chg).value;
    assert Kids(obj) == UpdateContactKids(d, chg);
    ContactSectionNames();
    SectionsFound(d, chg);
  }

  /** The first node of each section name among the update's children, found part by part. */
  lemma SectionsFound(d: UpdateContactData, chg: seq<Node>)
    requires chg == [] || (|chg| == 1 && chg[0].name == "contact:chg")
    ensures var kids := UpdateContactKids(d, chg);
            && (FirstNamed(kids, "contact:add").Some? <==> d.add.Some?)
            && (d.add.Some? ==> FirstNamed(kids, "contact:add") == Some(Branch("contact:add", ProcessStatusList(d.add.value, "contact"))))
            && (FirstNamed(kids, "contact:rem").Some? <==> d.rem.Some?)
            && (d.rem.Some? ==> FirstNamed(kids, "contact:rem") == Some(Branch("contact:rem", ProcessStatusList(d.rem.value, "contact"))))
            && (FirstNamed(kids, "contact:chg").Some? <==> chg != [])
  {
    ContactSectionNames();
    var id := [Leaf("contact:id", d.id)];
    var add := StatusSection("contact:add", d.add);
    var rem := StatusSection("contact:rem", d.rem);
    SectionRun(id, add, rem, chg, "contact:add");
    SectionRun(id, rem, add, chg, "contact:rem");
    FirstNamedRuns(id, add, rem, chg, "contact:chg");
    FirstNamedSingle(id[0], "contact:chg");
    if add != [] {
      FirstNamedSingle(add[0], "contact:chg");
    }
    if rem != [] {
      FirstNamedSingle(rem[0], "contact:chg");
    }
    if chg != [] {
      FirstNamedSingle(chg[0], "contact:chg");
    }
  }

  /** The first node called `name` is the one in `mine`, when the other runs hold none. */
  lemma SectionRun(id: seq<Node>, mine: seq<Node>, other: seq<Node>, chg: seq<Node>, name: string)
    requires |id| == 1 && id[0].name != name
    requires |mine| <= 1 && (mine != [] ==> mine[0].name == name)
    requires |other| <= 1 && (other != [] ==> other[0].name != name)
    requires |chg| <= 1 && (chg != [] ==> chg[0].name != name)
    ensures FirstNamed(id + mine + other + chg, name) == if mine == [] then None else Some(mine[0])
    ensures FirstNamed(id + other + mine + chg, name) == if mine == [] then None else Some(mine[0])
  {
    FirstNamedRuns(id, mine, other, chg, name);
    FirstNamedRuns(id, other, mine, chg, name);
    FirstNamedSingle(id[0], name);
    if mine != [] {
      FirstNamedSingle(mine[0], name);
    }
    if other != [] {
      FirstNamedSingle(other[0], name);
    }
    if chg != [] {
      FirstNamedSingle(chg[0], name);
    }
  }

  /**
    The text of an update contact command: each added and each removed status
    code shows as a `contact:status` element with that `s`, and the change,
    when there is one, shows as a `contact:chg` element around its children.
  */
  function UpdateContact(reg: Registry, d: UpdateContactData, trid: string): (r: Result<string, Error>)
    ensures r.Success? <==> ContactChangeOk(d.chg) && "contact" in reg && "epp" in reg
    ensures r.Failure? ==>
              r.error == if !ContactChangeOk(d.chg) then ValidationError(PW_REQUIRED)
                         else if "contact" !in reg then ConfigurationError("contact")
                         else ConfigurationError("epp")
    ensures r.Success? && d.add.Some? ==> forall st :: st in d.add.value ==> Infix(StatusOpen("contact", st.s), r.value)
    ensures r.Success? && d.rem.Some? ==> forall st :: st in d.rem.value ==> Infix(StatusOpen("contact", st.s), r.value)
    ensures r.Success? && d.chg.Some? ==> Infix(Render(ContactChangeElement(d.chg.value)), r.value)
    ensures r.Success? && d.chg.Some? ==>
              var kids := Kids(ContactChangeElement(d.chg.value));
              kids != [] ==> Infix(StartTag("contact:chg") + RenderAll(kids) + CloseTag("contact:chg"), r.value)
    ensures r.Success? ==> Infix("<clTRID>" + trid + "</clTRID>", r.value)
  {
    var op :- UpdateContactOp(reg, d);
    var text :- Command(reg, Success(op), trid);
    UpdateContactShown(reg, d, op, text);
    Success(text)
  }

  lemma UpdateContactShown(reg: Registry, d: UpdateContactData, op: Node, text: string)
    requires UpdateContactOp(reg, d) == Success(op) && Infix(Render(op), text)
    ensures d.add.Some? ==> forall st :: st in d.add.value ==> Infix(StatusOpen("contact", st.s), text)
    ensures d.rem.Some? ==> forall st :: st in d.rem.value ==> Infix(StatusOpen("contact", st.s), text)
    ensures d.chg.Some? ==> Infix(Render(ContactChangeElement(d.chg.value)), text)
    ensures d.chg.Some? ==>
              var kids := Kids(ContactChangeElement(d.chg.value));
              kids != [] ==> Infix(StartTag("contact:chg") + RenderAll(kids) + CloseTag("contact:chg"), text)
  {
    var obj := Kids(op)[0];
    var chg := ContactChangeSection(d.chg).value;
    assert obj in Kids(op);
    assert Kids(obj) == UpdateContactKids(d, chg);
    if d.add.Some? {
      assert Branch("contact:add", ProcessStatusList(d.add.value, "contact")) in Kids(obj);
      StatusesInText(d.add.value, "contact:add", obj, op, text);
    }
    if d.rem.Some? {
      assert Branch("contact:rem", ProcessStatusList(d.rem.value, "contact")) in Kids(obj);
      StatusesInText(d.rem.value, "contact:rem", obj, op, text);
    }
    if d.chg.Some? {
      var m := ContactChangeElement(d.chg.value);
      assert m in Kids(obj);
      SectionShown(op, obj, m, text);
      if Kids(m) != [] {
        BranchText("contact:chg", Kids(m));
      }
    }
  }

  /** Every status of a section one level below the object element shows in the text. */
  lemma StatusesInText(list: seq<Status>, name: string, obj: Node, op: Node, text: string)
    requires obj in Kids(op) && Branch(name, ProcessStatusList(list, "contact")) in Kids(obj)
    requires Infix(Render(op), text)
    ensures forall st :: st in list ==> Infix(StatusOpen("contact", st.s), text)
  {
    forall st | st in list
      ensures Infix(StatusOpen("contact", st.s), text)
    {
      StatusInText(list, st, name, obj, op, text);
    }
  }

  lemma StatusInText(list: seq<Status>, st: Status, name: string, obj: Node, op: Node, text: string)
    requires st in list
    requires obj in Kids(op) && Branch(name, ProcessStatusList(list, "contact")) in Kids(obj)
    requires Infix(Render(op), text)
    ensures Infix(StatusOpen("contact", st.s), text)
  {
    var k := Branch(name, ProcessStatusList(list, "contact"));
    var m := ProcessStatus(st, "contact");
    StatusListed(list, st, "contact");
    ThreeDown(op, obj, k, m);
    StatusText(st, "contact");
    ShownIn(StatusOpen("contact", st.s), m, op, text);
  }

  // ---------------------------------------------------------------------
  // createDomain

  datatype CreateDomainData = CreateDomainData(
    name: string, period: Option<Period>, ns: Option<seq<string>>, registrant: Option<string>,
    contacts: seq<ContactLink>, authInfo: Option<AuthInfo>)

  function OptNs(hosts: Option<seq<string>>): seq<Node> {
    if hosts.Some? then [ProcessNs(hosts.value)] else []
  }

  function CreateDomainKids(d: CreateDomainData, auth: seq<Node>): seq<Node> {
    [Leaf("domain:name", d.name)] + OptPeriod(d.period) + OptNs(d.ns) + OptLeaf("domain:registrant", d.registrant)
    + ProcessContactLinks(d.contacts) + auth
  }

  /** `<create><domain:create>`: name, period, name servers, registrant, contacts and authInfo, each when given. */
  function CreateDomainOp(reg: Registry, d: CreateDomainData): (r: Result<Node, Error>)
    ensures !AuthOk(d.authInfo) ==> r == Failure(ValidationError(PW_REQUIRED))
    ensures AuthOk(d.authInfo) ==> (r.Success? <==> "domain" in reg)
    ensures AuthOk(d.authInfo) && "domain" !in reg ==> r == Failure(ConfigurationError("domain"))
    ensures r.Success? ==> r.value.name == "create" && |Kids(r.value)| == 1
    ensures r.Success? ==>
              Kids(r.value)[0].name == "domain:create" &&
              Kids(r.value)[0].attrs == [Attr("xmlns:domain", reg["domain"])] &&
              Kids(r.value)[0].content == Elements(CreateDomainKids(d, OptAuthInfo(d.authInfo, "domain").value))
  {
    var auth := OptAuthInfo(d.authInfo, "domain");
    if auth.Failure? then Failure(auth.error)
    else
      var obj := ObjectElement(reg, "domain", "create", CreateDomainKids(d, auth.value));
      if obj.Failure? then Failure(obj.error)
      else
        assert "domain" + ":" + "create" == "domain:create";
        assert "xmlns:" + "domain" == "xmlns:domain";
        Success(Branch("create", [obj.value]))
  }

  /** Every part of the descriptor is found, under its element name, in the operation element. */
  lemma CreateDomainContents(reg: Registry, d: CreateDomainData)
    requires CreateDomainOp(reg, d).Success?
    ensures var op := CreateDomainOp(reg, d).value;
            && Leaf("domain:name", d.name) in Collect(op, "domain:name")
            && (d.registrant.Some? ==> Leaf("domain:registrant", d.registrant.value) in Collect(op, "domain:registrant"))
            && (d.period.Some? ==> ProcessDomainPeriod(d.period.value) in Collect(op, "domain:period"))
            && (d.ns.Some? ==> forall h :: h in d.ns.value ==> Leaf("domain:hostObj", h) in Collect(op, "domain:hostObj"))
            && (forall c :: c in d.contacts ==> ProcessContactLink(c) in Collect(op, "domain:contact"))
  {
    var op := CreateDomainOp(reg, d).value;
    var obj := Kids(op)[0];
    assert obj in Kids(op);
    assert Kids(obj) == CreateDomainKids(d, OptAuthInfo(d.authInfo, "domain").value);
    InObject(op, obj, Leaf("domain:name", d.name));
    if d.registrant.Some? {
      InObject(op, obj, Leaf("domain:registrant", d.registrant.value));
    }
    if d.period.Some? {
      InObject(op, obj, ProcessDomainPeriod(d.period.value));
    }
    if d.ns.Some? {
      HostsCollected(op, obj, d.ns.value);
    }
    forall c | c in d.contacts
      ensures ProcessContactLink(c) in Collect(op, "domain:contact")
    {
      ContactLinkListed(d.contacts, c);
      InObject(op, obj, ProcessContactLink(c));
    }
  }

  /** The host names of a `domain:ns` child of the object element are collected from the operation element. */
  lemma HostsCollected(op: Node, obj: Node, hosts: seq<string>)
    requires obj in Kids(op) && ProcessNs(hosts) in Kids(obj)
    ensures forall h :: h in hosts ==> Leaf("domain:hostObj", h) in Collect(op, "domain:hostObj")
  {
    forall h | h in hosts
      ensures Leaf("domain:hostObj", h) in Collect(op, "domain:hostObj")
    {
      LeafListed("domain:hostObj", hosts, h);
      ThreeDown(op, obj, ProcessNs(hosts), Leaf("domain:hostObj", h));
    }
  }

  /** The create-domain text: the name, registrant, host-name and contact leaves, each with its value. */
  function CreateDomain(reg: Registry, d: CreateDomainData, trid: string): (r: Result<string, Error>)
    ensures r.Success? <==> AuthOk(d.authInfo) && "domain" in reg && "epp" in reg
    ensures r.Failure? ==>
              r.error == if !AuthOk(d.authInfo) then ValidationError(PW_REQUIRED)
                         else if "domain" !in reg then ConfigurationError("domain")
                         else ConfigurationError("epp")
    ensures r.Success? ==> Infix(StartTag("domain:name") + d.name + CloseTag("domain:name"), r.value)
    ensures r.Success? && d.registrant.Some? ==>
              Infix(StartTag("domain:registrant") + d.registrant.value + CloseTag("domain:registrant"), r.value)
    ensures r.Success? && d.ns.Some? ==>
              forall h :: h in d.ns.value ==> Infix(StartTag("domain:hostObj") + h + CloseTag("domain:hostObj"), r.value)
    ensures r.Success? ==> forall c :: c in d.contacts ==> Infix(Render(ProcessContactLink(c)), r.value)
    ensures r.Success? ==> Infix("<clTRID>" + trid + "</clTRID>", r.value)
  {
    var op :- CreateDomainOp(reg, d);
    var text :- Command(reg, Success(op), trid);
    CreateDomainShown(reg, d, op, text);
    Success(text)
  }

  lemma CreateDomainShown(reg: Registry, d: CreateDomainData, op: Node, text: string)
    requires CreateDomainOp(reg, d) == Success(op) && Infix(Render(op), text)
    ensures Infix(StartTag("domain:name") + d.name + CloseTag("domain:name"), text)
    ensures d.registrant.Some? ==>
              Infix(StartTag("domain:registrant") + d.registrant.value + CloseTag("domain:registrant"), text)
    ensures d.ns.Some? ==>
              forall h :: h in d.ns.value ==> Infix(StartTag("domain:hostObj") + h + CloseTag("domain:hostObj"), text)
    ensures forall c :: c in d.contacts ==> Infix(Render(ProcessContactLink(c)), text)
  {
    CreateDomainContents(reg, d);
    LeafShownIn("domain:name", d.name, op, text);
    if d.registrant.Some? {
      LeafShownIn("domain:registrant", d.registrant.value, op, text);
    }
    if d.ns.Some? {
      forall h | h in d.ns.value
        ensures Infix(StartTag("domain:hostObj") + h + CloseTag("domain:hostObj"), text)
      {
        LeafShownIn("domain:hostObj", h, op, text);
      }
    }
    forall c | c in d.contacts
      ensures Infix(Render(ProcessContactLink(c)), text)
    {
      var m := ProcessContactLink(c);
      SelfInfix(Render(m));
      ShownIn(Render(m), m, op, text);
    }
  }

  // ---------------------------------------------------------------------
  // updateDomain

  /** Name servers, contacts and statuses added to or removed from a domain. */
  datatype DomainItems = DomainItems(ns: Option<seq<string>>, contacts: seq<ContactLink>, statuses: seq<Status>)

  /** The replacements of a domain update. */
  datatype DomainChange = DomainChange(registrant: Option<string>, authInfo: Option<AuthInfo>)

  datatype UpdateDomainData = UpdateDomainData(
    name: string, add: Option<DomainItems>, rem: Option<DomainItems>, chg: Option<DomainChange>)

  function ItemKids(it: DomainItems): seq<Node> {
    OptNs(it.ns) + ProcessContactLinks(it.contacts) + ProcessStatusList(it.statuses, "domain")
  }

  /** A `domain:add` or `domain:rem` element around its items. */
  function DomainSection(name: string, it: DomainItems): Node {
    Branch(name, ItemKids(it))
  }

  function ItemsSection(name: string, it: Option<DomainItems>): seq<Node> {
    if it.Some? then [DomainSection(name, it.value)] else []
  }

  predicate DomainChangeOk(c: Option<DomainChange>) {
    c.None? || AuthOk(c.value.authInfo)
  }

  /** The `domain:chg` element: the new registrant and the new authInfo, each when given. */
  function DomainChangeElement(c: DomainChange): Node
    requires AuthOk(c.authInfo)
  {
    Branch("domain:chg", OptLeaf("domain:registrant", c.registrant) + OptAuthInfo(c.authInfo, "domain").value)
  }

  function DomainChangeSection(c: Option<DomainChange>): (r: Result<seq<Node>, Error>)
    ensures r.Success? <==> DomainChangeOk(c)
    ensures r.Failure? ==> r.error == ValidationError(PW_REQUIRED)
    ensures r.Success? && c.None? ==> r.value == []
    ensures r.Success? && c.Some? ==> r.value == [DomainChangeElement(c.value)]
  {
    if c.None? then Success([])
    else if !AuthOk(c.value.authInfo) then Failure(ValidationError(PW_REQUIRED))
    else Success([DomainChangeElement(c.value)])
  }

  function UpdateDomainKids(d: UpdateDomainData, chg: seq<Node>): seq<Node> {
    [Leaf("domain:name", d.name)] + ItemsSection("domain:add", d.add) + ItemsSection("domain:rem", d.rem) + chg
  }

  /** `<update><domain:update>`: the name, then the add, rem and chg sections the descriptor has. */
  function UpdateDomainOp(reg: Registry, d: UpdateDomainData): (r: Result<Node, Error>)
    ensures !DomainChangeOk(d.chg) ==> r == Failure(ValidationError(PW_REQUIRED))
    ensures DomainChangeOk(d.chg) ==> (r.Success? <==> "domain" in reg)
    ensures DomainChangeOk(d.chg) && "domain" !in reg ==> r == Failure(ConfigurationError("domain"))
    ensures r.Success? ==> r.value.name == "update" && |Kids(r.value)| == 1
    ensures r.Success? ==>
              Kids(r.value)[0].name == "domain:update" &&
              Kids(r.value)[0].attrs == [Attr("xmlns:domain", reg["domain"])] &&
              Kids(r.value)[0].content == Elements(UpdateDomainKids(d, DomainChangeSection(d.chg).value))
  {
    var chg := DomainChangeSection(d.chg);
    if chg.Failure? then Failure(chg.error)
    else
      var obj := ObjectElement(reg, "domain", "update", UpdateDomainKids(d, chg.value));
      if obj.Failure? then Failure(obj.error)
      else
        assert "domain" + ":" + "update" == "domain:update";
        assert "xmlns:" + "domain" == "xmlns:domain";
        Success(Branch("update", [obj.value]))
  }

  /** The element names of the items an update adds or removes. */
  predicate ItemName(n: string) {
    n == "domain:hostObj" || n == "domain:contact" || n == "domain:status"
  }

  /** The item elements called `n` that a section lists, in order: the reference for what the update carries. */
  function Listed(it: Option<DomainItems>, n: string): seq<Node> {
    if it.None? then []
    else if n == "domain:hostObj" then (if it.value.ns.Some? then Leaves(n, it.value.ns.value) else [])
    else if n == "domain:contact" then ProcessContactLinks(it.value.contacts)
    else if n == "domain:status" then ProcessStatusList(it.value.statuses, "domain")
    else []
  }

  lemma ItemNameDistinct(n: string)
    requires ItemName(n)
    ensures n != "update" && n != "domain:update" && n != "domain:name" && n != "domain:ns"
    ensures n != "domain:add" && n != "domain:rem" && n != "domain:chg"
    ensures n != "domain:registrant" && n != "domain:authInfo" && n != "domain:pw"
  {
    assert "domain:status"[7] != "domain:update"[7];
  }

  lemma NsCollect(hosts: Option<seq<string>>, n: string)
    requires ItemName(n)
    ensures CollectAll(OptNs(hosts), n) == if n == "domain:hostObj" && hosts.Some? then Leaves(n, hosts.value) else []
  {
    if hosts.Some? {
      var ns := ProcessNs(hosts.value);
      CollectSingle(ns, n);
      if n != "domain:hostObj" {
        ItemNameDistinct(n);
        CollectFlatOthers(Leaves("domain:hostObj", hosts.value), n);
      }
    }
  }

  lemma ContactsCollect(list: seq<ContactLink>, n: string)
    ensures CollectAll(ProcessContactLinks(list), n) == if n == "domain:contact" then ProcessContactLinks(list) else []
  {
    if n == "domain:contact" {
      CollectFlatSame(ProcessContactLinks(list), n);
    } else {
      CollectFlatOthers(ProcessContactLinks(list), n);
    }
  }

  lemma StatusesCollect(list: seq<Status>, n: string)
    ensures CollectAll(ProcessStatusList(list, "domain"), n) == if n == "domain:status" then ProcessStatusList(list, "domain") else []
  {
    assert "domain" + ":status" == "domain:status";
    if n == "domain:status" {
      CollectFlatSame(ProcessStatusList(list, "domain"), n);
    } else {
      CollectFlatOthers(ProcessStatusList(list, "domain"), n);
    }
  }

  /** A section's items collect, name by name, to exactly what Listed says. */
  lemma SectionCollect(name: string, v: DomainItems, n: string)
    requires ItemName(n) && name != n
    ensures Collect(DomainSection(name, v), n) == Listed(Some(v), n)
  {
    CollectAllAppend(OptNs(v.ns) + ProcessContactLinks(v.contacts), ProcessStatusList(v.statuses, "domain"), n);
    CollectAllAppend(OptNs(v.ns), ProcessContactLinks(v.contacts), n);
    NsCollect(v.ns, n);
    ContactsCollect(v.contacts, n);
    StatusesCollect(v.statuses, n);
  }

  lemma ItemsCollect(name: string, it: Option<DomainItems>, n: string)
    requires ItemName(n) && (name == "domain:add" || name == "domain:rem")
    ensures CollectAll(ItemsSection(name, it), n) == Listed(it, n)
  {
    if it.Some? {
      ItemNameDistinct(n);
      CollectSingle(DomainSection(name, it.value), n);
      SectionCollect(name, it.value, n);
    }
  }

  /** The change section holds no item element. */
  lemma ChangeCollect(c: Option<DomainChange>, n: string)
    requires DomainChangeOk(c) && ItemName(n)
    ensures CollectAll(DomainChangeSection(c).value, n) == []
  {
    if c.Some? {
      var e := DomainChangeElement(c.value);
      CollectSingle(e, n);
      ItemNameDistinct(n);
      var reg := OptLeaf("domain:registrant", c.value.registrant);
      var auth := OptAuthInfo(c.value.authInfo, "domain").value;
      assert Collect(e, n) == CollectAll(reg + auth, n);
      CollectAllAppend(reg, auth, n);
      CollectFlatOthers(reg, n);
      if c.value.authInfo.Some? {
        AuthCollect(c.value.authInfo.value, n);
        CollectSingle(auth[0], n);
      }
    }
  }

  lemma AuthCollect(a: AuthInfo, n: string)
    requires Password(a).Some? && n != "domain:authInfo" && n != "domain:pw"
    ensures Collect(AuthInfoSection(a, "domain").value, n) == []
  {
    var m := AuthInfoSection(a, "domain").value;
    assert "domain" + ":authInfo" == "domain:authInfo";
    assert "domain" + ":pw" == "domain:pw";
    assert m.content.Elements?;
    CollectFlatOthers(Kids(m), n);
  }

  lemma KidsCollect(d: UpdateDomainData, chg: seq<Node>, n: string)
    requires ItemName(n) && CollectAll(chg, n) == []
    ensures CollectAll(UpdateDomainKids(d, chg), n) == Listed(d.add, n) + Listed(d.rem, n)
  {
    var id := [Leaf("domain:name", d.name)];
    var add := ItemsSection("domain:add", d.add);
    var rem := ItemsSection("domain:rem", d.rem);
    NameCollect(d.name, n);
    ItemsCollect("domain:add", d.add, n);
    ItemsCollect("domain:rem", d.rem, n);
    RunsCollect(id, add, rem, chg, n, Listed(d.add, n), Listed(d.rem, n));
  }

  lemma RunsCollect(id: seq<Node>, add: seq<Node>, rem: seq<Node>, chg: seq<Node>, n: string, la: seq<Node>, lr: seq<Node>)
    requires CollectAll(id, n) == [] && CollectAll(add, n) == la && CollectAll(rem, n) == lr && CollectAll(chg, n) == []
    ensures CollectAll(id + add + rem + chg, n) == la + lr
  {
    CollectAllRuns(id, add, rem, chg, n);
  }

  lemma NameCollect(name: string, n: string)
    requires ItemName(n)
    ensures CollectAll([Leaf("domain:name", name)], n) == []
  {
    ItemNameDistinct(n);
    CollectSingle(Leaf("domain:name", name), n);
  }

  /**
    Update sectioning: the name servers, contacts and statuses found anywhere in
    the operation element are exactly the added ones followed by the removed
    ones, and each section holds exactly its own.
  */
  lemma UpdateDomainItems(reg: Registry, d: UpdateDomainData, n: string)
    requires UpdateDomainOp(reg, d).Success? && ItemName(n)
    ensures Collect(UpdateDomainOp(reg, d).value, n) == Listed(d.add, n) + Listed(d.rem, n)
    ensures d.add.Some? ==> Collect(DomainSection("domain:add", d.add.value), n) == Listed(d.add, n)
    ensures d.rem.Some? ==> Collect(DomainSection("domain:rem", d.rem.value), n) == Listed(d.rem, n)
  {
    var op := UpdateDomainOp(reg, d).value;
    var obj := Kids(op)[0];
    ItemNameDistinct(n);
    assert Kids(op) == [obj];
    CollectSingle(obj, n);
    ChangeCollect(d.chg, n);
    KidsCollect(d, DomainChangeSection(d.chg).value, n);
    if d.add.Some? {
      SectionCollect("domain:add", d.add.value, n);
    }
    if d.rem.Some? {
      SectionCollect("domain:rem", d.rem.value, n);
    }
  }

  lemma DomainSectionNames()
    ensures "domain:name" != "domain:add" && "domain:name" != "domain:rem" && "domain:name" != "domain:chg"
    ensures "domain:add" != "domain:rem" && "domain:add" != "domain:chg" && "domain:rem" != "domain:chg"
  {
    assert "domain:add"[7] != "domain:rem"[7];
    assert "domain:add"[7] != "domain:chg"[7];
    assert "domain:rem"[7] != "domain:chg"[7];
  }

  /** Each section is present exactly when the descriptor has it, and the new registrant sits in the change. */
  lemma UpdateDomainSections(reg: Registry, d: UpdateDomainData)
    requires UpdateDomainOp(reg, d).Success?
    ensures var obj := Kids(UpdateDomainOp(reg, d).value)[0];
            && Child(obj, "domain:add") == (if d.add.Some? then Some(DomainSection("domain:add", d.add.value)) else None)
            && Child(obj, "domain:rem") == (if d.rem.Some? then Some(DomainSection("domain:rem", d.rem.value)) else None)
            && Child(obj, "domain:chg") == (if d.chg.Some? then Some(DomainChangeElement(d.chg.value)) else None)
    ensures d.chg.Some? && d.chg.value.registrant.Some? ==>
              Child(DomainChangeElement(d.chg.value), "domain:registrant") == Some(Leaf("domain:registrant", d.chg.value.registrant.value))
  {
    var obj := Kids(UpdateDomainOp(reg, d).value)[0];
    var chg := DomainChangeSection(d.chg).value;
    assert Kids(obj) == UpdateDomainKids(d, chg);
    DomainSectionNames();
    var id := [Leaf("domain:name", d.name)];
    var add := ItemsSection("domain:add", d.add);
    var rem := ItemsSection("domain:rem", d.rem);
    FirstNamedRuns(id, add, rem, chg, "domain:add");
    FirstNamedRuns(id, add, rem, chg, "domain:rem");
    FirstNamedRuns(id, add, rem, chg, "domain:chg");
    if d.chg.Some? && d.chg.value.registrant.Some? {
      var c := d.chg.value;
      FirstNamedAppend(OptLeaf("domain:registrant", c.registrant), OptAuthInfo(c.authInfo, "domain").value, "domain:registrant");
    }
  }

  /** A section's text: its start tag, its items' texts, its close tag. */
  lemma SectionText(name: string, v: DomainItems)
    ensures ItemKids(v) != [] ==>
              Render(DomainSection(name, v)) == StartTag(name) + RenderAll(ItemKids(v)) + CloseTag(name)
    ensures v.ns.Some? ==>
              forall h :: h in v.ns.value ==>
                Infix(StartTag("domain:hostObj") + h + CloseTag("domain:hostObj"), RenderAll(ItemKids(v)))
    ensures forall c :: c in v.contacts ==> Infix(Render(ProcessContactLink(c)), RenderAll(ItemKids(v)))
    ensures forall st :: st in v.statuses ==> Infix(StatusOpen("domain", st.s), RenderAll(ItemKids(v)))
  {
    if ItemKids(v) != [] {
      BranchText(name, ItemKids(v));
    }
    if v.ns.Some? {
      forall h | h in v.ns.value
        ensures Infix(StartTag("domain:hostObj") + h + CloseTag("domain:hostObj"), RenderAll(ItemKids(v)))
      {
        HostText(v, h);
      }
    }
    forall c | c in v.contacts
      ensures Infix(Render(ProcessContactLink(c)), RenderAll(ItemKids(v)))
    {
      ContactLinkListed(v.contacts, c);
      MemberRendersInside(ItemKids(v), ProcessContactLink(c));
    }
    forall st | st in v.statuses
      ensures Infix(StatusOpen("domain", st.s), RenderAll(ItemKids(v)))
    {
      StatusListed(v.statuses, st, "domain");
      MemberRendersInside(ItemKids(v), ProcessStatus(st, "domain"));
      StatusText(st, "domain");
      InfixTrans(StatusOpen("domain", st.s), Render(ProcessStatus(st, "domain")), RenderAll(ItemKids(v)));
    }
  }

  lemma HostText(v: DomainItems, h: string)
    requires v.ns.Some? && h in v.ns.value
    ensures Infix(StartTag("domain:hostObj") + h + CloseTag("domain:hostObj"), RenderAll(ItemKids(v)))
  {
    var ns := ProcessNs(v.ns.value);
    var m := Leaf("domain:hostObj", h);
    LeafListed("domain:hostObj", v.ns.value, h);
    assert ns in ItemKids(v);
    ChildRendersInside(ns, m);
    MemberRendersInside(ItemKids(v), ns);
    InfixTrans(Render(m), Render(ns), RenderAll(ItemKids(v)));
    LeafText("domain:hostObj", h);
    SelfInfix(Render(m));
  }

  /** The change's text: its start tag, its children's texts (the new registrant among them), its close tag. */
  lemma ChangeText(c: DomainChange)
    requires AuthOk(c.authInfo)
    ensures var e := DomainChangeElement(c);
            Kids(e) != [] ==> Render(e) == StartTag("domain:chg") + RenderAll(Kids(e)) + CloseTag("domain:chg")
    ensures c.registrant.Some? ==>
              Infix(StartTag("domain:registrant") + c.registrant.value + CloseTag("domain:registrant"),
                    RenderAll(Kids(DomainChangeElement(c))))
  {
    var e := DomainChangeElement(c);
    if Kids(e) != [] {
      BranchText("domain:chg", Kids(e));
    }
    if c.registrant.Some? {
      var m := Leaf("domain:registrant", c.registrant.value);
      assert m in Kids(e);
      MemberRendersInside(Kids(e), m);
      LeafText("domain:registrant", c.registrant.value);
    }
  }

  /**
    The text of an update domain command: each section the descriptor has, and
    the change, shows as a whole; SectionText and ChangeText say what each one's
    text holds.
  */
  function UpdateDomain(reg: Registry, d: UpdateDomainData, trid: string): (r: Result<string, Error>)
    ensures r.Success? <==> DomainChangeOk(d.chg) && "domain" in reg && "epp" in reg
    ensures r.Failure? ==>
              r.error == if !DomainChangeOk(d.chg) then ValidationError(PW_REQUIRED)
                         else if "domain" !in reg then ConfigurationError("domain")
                         else ConfigurationError("epp")
    ensures r.Success? && d.add.Some? ==> Infix(Render(DomainSection("domain:add", d.add.value)), r.value)
    ensures r.Success? && d.rem.Some? ==> Infix(Render(DomainSection("domain:rem", d.rem.value)), r.value)
    ensures r.Success? && d.chg.Some? ==> Infix(Render(DomainChangeElement(d.chg.value)), r.value)
    ensures r.Success? ==> Infix("<clTRID>" + trid + "</clTRID>", r.value)
  {
    var op :- UpdateDomainOp(reg, d);
    var text :- Command(reg, Success(op), trid);
    UpdateDomainShown(reg, d, op, text);
    Success(text)
  }

  lemma UpdateDomainShown(reg: Registry, d: UpdateDomainData, op: Node, text: string)
    requires UpdateDomainOp(reg, d) == Success(op) && Infix(Render(op), text)
    ensures d.add.Some? ==> Infix(Render(DomainSection("domain:add", d.add.value)), text)
    ensures d.rem.Some? ==> Infix(Render(DomainSection("domain:rem", d.rem.value)), text)
    ensures d.chg.Some? ==> Infix(Render(DomainChangeElement(d.chg.value)), text)
  {
    var obj := Kids(op)[0];
    assert obj in Kids(op);
    assert Kids(obj) == UpdateDomainKids(d, DomainChangeSection(d.chg).value);
    if d.add.Some? {
      SectionShown(op, obj, DomainSection("domain:add", d.add.value), text);
    }
    if d.rem.Some? {
      SectionShown(op, obj, DomainSection("domain:rem", d.rem.value), text);
    }
    if d.chg.Some? {
      SectionShown(op, obj, DomainChangeElement(d.chg.value), text);
    }
  }

  lemma SectionShown(op: Node, obj: Node, m: Node, text: string)
    requires obj in Kids(op) && m in Kids(obj) && Infix(Render(op), text)
    ensures Infix(Render(m), text)
  {
    InObject(op, obj, m);
    SelfInfix(Render(m));
    ShownIn(Render(m), m, op, text);
  }
}
