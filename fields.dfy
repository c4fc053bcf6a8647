/**
  Field processors: the small normalisations of sub-structures that several
  commands share (authorisation info, registration period, disclosure
  preferences, status lists, postal information, name servers and contact
  links). Each turns a descriptor fragment, whose loose shapes are tagged
  variants here, into nodes qualified by the object type's prefix.
*/
module Fields {
  import opened Wrappers
  import opened Errors
  import opened Xml

  // ---------------------------------------------------------------------
  // Authorisation info

  /** A bare password, or a record with a password and a repository object id, either possibly missing. */
  datatype AuthInfo =
    | Plain(password: string)
    | Structured(pw: Option<string>, roid: Option<string>)

  const PW_REQUIRED := "pw is required!"

  function Password(a: AuthInfo): Option<string> {
    match a
    case Plain(p) => Some(p)
    case Structured(pw, _) => pw
  }

  /** Object types whose authInfo password carries the `roid` attribute. */
  predicate CarriesRoid(objectType: string) {
    objectType == "domain"
  }

  /** The roid the password element shows for this object type. */
  function ShownRoid(a: AuthInfo, objectType: string): Option<string> {
    if CarriesRoid(objectType) && a.Structured? then a.roid else None
  }

  /** The `<type:pw>` element: the password as text, `roid` as its only possible attribute. */
  function ProcessAuthInfo(a: AuthInfo, objectType: string): (r: Result<Node, Error>)
    ensures r.Success? <==> Password(a).Some?
    ensures r.Failure? ==> r.error == ValidationError(PW_REQUIRED)
    ensures r.Success? ==>
              r.value.name == objectType + ":pw" && r.value.content == Text(Str(Password(a).value))
    ensures r.Success? ==>
              AttrValue(r.value.attrs, "roid") == ShownRoid(a, objectType) &&
              forall at :: at in r.value.attrs ==> at.name == "roid"
  {
    match a
    case Plain(p) => Success(Leaf(objectType + ":pw", p))
    case Structured(None, _) => Failure(ValidationError(PW_REQUIRED))
    case Structured(Some(p), roid) =>
      var attrs := if CarriesRoid(objectType) && roid.Some? then [Attr("roid", roid.value)] else [];
      Success(Node(objectType + ":pw", attrs, Text(Str(p))))
  }

  /** The `<type:authInfo>` element wrapping the processed password. */
  function AuthInfoSection(a: AuthInfo, objectType: string): (r: Result<Node, Error>)
    ensures r.Success? <==> Password(a).Some?
    ensures r.Failure? ==> r.error == ValidationError(PW_REQUIRED)
    ensures r.Success? ==>
              r.value.name == objectType + ":authInfo" && Kids(r.value) == [ProcessAuthInfo(a, objectType).value]
  {
    var pw :- ProcessAuthInfo(a, objectType);
    Success(Branch(objectType + ":authInfo", [pw]))
  }

  /** A bare password and the same password as a record give the same element, for every object type. */
  lemma PlainIsStructured(p: string, objectType: string)
    ensures ProcessAuthInfo(Plain(p), objectType) == ProcessAuthInfo(Structured(Some(p), None), objectType)
  {
  }

  /** The roid is dropped for object types that do not carry it. */
  lemma RoidOnlyWhereCarried(p: string, roid: string, objectType: string)
    ensures !CarriesRoid(objectType) <==>
            ProcessAuthInfo(Structured(Some(p), Some(roid)), objectType) == ProcessAuthInfo(Plain(p), objectType)
  {
    if CarriesRoid(objectType) {
      assert |ProcessAuthInfo(Structured(Some(p), Some(roid)), objectType).value.attrs| == 1;
    }
  }

  /** The text of the password element with and without roid. */
  lemma AuthInfoText(p: string, roid: Option<string>, objectType: string)
    ensures var r := ProcessAuthInfo(Structured(Some(p), roid), objectType);
            r.Success? &&
            Render(r.value) ==
              if CarriesRoid(objectType) && roid.Some?
              then RoidPwOpen(objectType, roid.value) + ">" + p + CloseTag(objectType + ":pw")
              else StartTag(objectType + ":pw") + p + CloseTag(objectType + ":pw")
  {
    if CarriesRoid(objectType) && roid.Some? {
      var n := Node(objectType + ":pw", [Attr("roid", roid.value)], Text(Str(p)));
      assert RenderAttrs(n.attrs) == AttrText(Attr("roid", roid.value));
    }
  }

  /** The start of a password element's tag that carries a roid, up to its closing `>`. */
  function RoidPwOpen(objectType: string, roid: string): string {
    "<" + objectType + ":pw" + AttrText(Attr("roid", roid))
  }

  // ---------------------------------------------------------------------
  // Period

  /** A bare count of years, or a record with an optional unit and a count. */
  datatype Period =
    | Years(count: nat)
    | PeriodSpec(unit: Option<string>, value: nat)

  const DEFAULT_UNIT := "y"

  function Count(p: Period): nat {
    match p
    case Years(n) => n
    case PeriodSpec(_, v) => v
  }

  /** The unit a period descriptor asks for, `y` when it names none. */
  function Unit(p: Period): string {
    match p
    case Years(_) => DEFAULT_UNIT
    case PeriodSpec(u, _) => if u.Some? then u.value else DEFAULT_UNIT
  }

  /** The `<domain:period unit="...">n</domain:period>` element. */
  function ProcessDomainPeriod(p: Period): (r: Node)
    ensures r.name == "domain:period"
    ensures r.attrs == [Attr("unit", Unit(p))]
    ensures r.content == Text(Num(Count(p)))
  {
    match p
    case Years(n) => Node("domain:period", [Attr("unit", DEFAULT_UNIT)], Text(Num(n)))
    case PeriodSpec(u, v) =>
      var unit := match u case Some(x) => x case None => DEFAULT_UNIT;
      Node("domain:period", [Attr("unit", unit)], Text(Num(v)))
  }

  /** Two period descriptors give the same element exactly when they agree on unit (after the default) and count. */
  lemma PeriodDeterminedByUnitAndCount(p: Period, q: Period)
    ensures ProcessDomainPeriod(p) == ProcessDomainPeriod(q) <==> Unit(p) == Unit(q) && Count(p) == Count(q)
  {
    if ProcessDomainPeriod(p) == ProcessDomainPeriod(q) {
      assert ProcessDomainPeriod(p).attrs[0].value == Unit(p);
      assert ProcessDomainPeriod(p).content.scalar.number == Count(p);
    }
  }

  /** A bare count, a record without unit and a record with unit `y` are the same period. */
  lemma PeriodDefaultUnit(n: nat)
    ensures ProcessDomainPeriod(Years(n)) == ProcessDomainPeriod(PeriodSpec(None, n))
    ensures ProcessDomainPeriod(Years(n)) == ProcessDomainPeriod(PeriodSpec(Some("y"), n))
    ensures AttrValue(ProcessDomainPeriod(Years(n)).attrs, "unit") == Some("y")
    ensures ProcessDomainPeriod(Years(n)).content == Text(Num(n))
  {
    PeriodDeterminedByUnitAndCount(Years(n), PeriodSpec(None, n));
    PeriodDeterminedByUnitAndCount(Years(n), PeriodSpec(Some("y"), n));
  }

  // ---------------------------------------------------------------------
  // Disclose

  /** Which fields a disclosure preference applies to; the flag is passed through uninterpreted. */
  datatype Disclose = Disclose(flag: nat, disclosing: seq<string>)

  /** One empty element per field, named in the object type's namespace, in the given order. */
  function DiscloseFields(fields: seq<string>, objectType: string): (r: seq<Node>)
    ensures |r| == |fields|
    ensures forall i :: 0 <= i < |r| ==> r[i] == Bare(objectType + ":" + fields[i])
  {
    if fields == [] then []
    else [Bare(objectType + ":" + fields[0])] + DiscloseFields(fields[1..], objectType)
  }

  /** `<type:disclose flag="f">` holding an empty element for each disclosed field. */
  function ProcessDisclose(d: Disclose, objectType: string): (r: Node)
    ensures r.name == objectType + ":disclose"
    ensures AttrValue(r.attrs, "flag") == Some(Decimal(d.flag))
    ensures |Kids(r)| == |d.disclosing|
    ensures forall i :: 0 <= i < |Kids(r)| ==> Kids(r)[i] == Bare(objectType + ":" + d.disclosing[i])
    ensures forall f :: f in d.disclosing ==> Bare(objectType + ":" + f) in Kids(r)
  {
    Node(objectType + ":disclose", [Attr("flag", Decimal(d.flag))], Elements(DiscloseFields(d.disclosing, objectType)))
  }

  /** A disclose element with fields renders its open tag, then an empty `<type:field/>` for each listed field. */
  lemma DiscloseText(d: Disclose, objectType: string)
    requires d.disclosing != []
    ensures Render(ProcessDisclose(d, objectType))
         == OpenTag(ProcessDisclose(d, objectType)) + ">" + RenderAll(Kids(ProcessDisclose(d, objectType)))
            + CloseTag(objectType + ":disclose")
    ensures forall f :: f in d.disclosing ==>
              Infix("<" + objectType + ":" + f + "/>", RenderAll(Kids(ProcessDisclose(d, objectType))))
  {
    var r := ProcessDisclose(d, objectType);
    assert Kids(r) != [];
    forall f | f in d.disclosing
      ensures Infix("<" + objectType + ":" + f + "/>", RenderAll(Kids(r)))
    {
      var b := Bare(objectType + ":" + f);
      MemberRendersInside(Kids(r), b);
      assert Render(b) == "<" + (objectType + ":" + f) + "" + "/>";
      assert "<" + (objectType + ":" + f) + "" + "/>" == "<" + objectType + ":" + f + "/>";
    }
  }

  /** The flag changes the attribute only: the listed fields are the same whatever it says. */
  lemma DiscloseIgnoresFlag(f: nat, g: nat, fields: seq<string>, objectType: string)
    ensures Kids(ProcessDisclose(Disclose(f, fields), objectType)) == Kids(ProcessDisclose(Disclose(g, fields), objectType))
    ensures ProcessDisclose(Disclose(f, fields), objectType) == ProcessDisclose(Disclose(g, fields), objectType) <==> f == g
  {
    if ProcessDisclose(Disclose(f, fields), objectType) == ProcessDisclose(Disclose(g, fields), objectType) {
      DecimalInjective(f, g);
    }
  }

  // ---------------------------------------------------------------------
  // Status lists

  /** A bare status code, or a code with an optional language and an optional description. */
  datatype Status =
    | Code(s: string)
    | Described(s: string, lang: Option<string>, value: Option<string>)

  function OptAttr(name: string, v: Option<string>): seq<Attr> {
    if v.Some? then [Attr(name, v.value)] else []
  }

  /** `<type:status s="code" lang="..">description</type:status>`, empty when there is no description. */
  function ProcessStatus(st: Status, objectType: string): (r: Node)
    ensures r.name == objectType + ":status"
    ensures |r.attrs| > 0 && r.attrs[0] == Attr("s", st.s)
    ensures AttrValue(r.attrs, "lang") == if st.Described? then st.lang else None
    ensures r.content == if st.Described? && st.value.Some? then Text(Str(st.value.value)) else Empty
  {
    match st
    case Code(s) => Node(objectType + ":status", [Attr("s", s)], Empty)
    case Described(s, lang, value) =>
      Node(objectType + ":status", [Attr("s", s)] + OptAttr("lang", lang),
           if value.Some? then Text(Str(value.value)) else Empty)
  }

  function ProcessStatusList(list: seq<Status>, objectType: string): (r: seq<Node>)
    ensures |r| == |list|
    ensures forall i :: 0 <= i < |r| ==> r[i] == ProcessStatus(list[i], objectType)
  {
    if list == [] then [] else [ProcessStatus(list[0], objectType)] + ProcessStatusList(list[1..], objectType)
  }

  lemma StatusListed(list: seq<Status>, st: Status, objectType: string)
    requires st in list
    ensures ProcessStatus(st, objectType) in ProcessStatusList(list, objectType)
  {
    var i :| 0 <= i < |list| && list[i] == st;
    assert ProcessStatusList(list, objectType)[i] == ProcessStatus(st, objectType);
  }

  /** A bare code renders exactly like a record with only that code. */
  lemma CodeIsDescribed(s: string, objectType: string)
    ensures ProcessStatus(Code(s), objectType) == ProcessStatus(Described(s, None, None), objectType)
    ensures Render(ProcessStatus(Code(s), objectType)) == StatusOpen(objectType, s) + "/>"
  {
    assert RenderAttrs([Attr("s", s)]) == AttrText(Attr("s", s));
  }

  /** The start of a status element's tag, up to and including its `s` attribute. */
  function StatusOpen(objectType: string, s: string): string {
    "<" + objectType + ":status" + AttrText(Attr("s", s))
  }

  /** Whatever its shape, a status renders as a `type:status` element whose first attribute is `s`. */
  lemma StatusText(st: Status, objectType: string)
    ensures Infix(StatusOpen(objectType, st.s), Render(ProcessStatus(st, objectType)))
  {
    FirstAttrInside(ProcessStatus(st, objectType));
  }

  /** A status list collects, as status elements, to itself. */
  lemma {:induction false} CollectStatuses(list: seq<Status>, objectType: string)
    ensures CollectAll(ProcessStatusList(list, objectType), objectType + ":status")
         == ProcessStatusList(list, objectType)
  {
    if list != [] {
      CollectStatuses(list[1..], objectType);
    }
  }

  // ---------------------------------------------------------------------
  // Postal info and addresses

  datatype Addr = Addr(street: seq<string>, city: string, sp: Option<string>, pc: Option<string>, cc: string)

  /** A postal-info record; `kind` is its `type` (`int` or `loc`). */
  datatype PostalInfo = PostalInfo(kind: string, name: string, org: Option<string>, addr: seq<Addr>)

  function OptLeaf(name: string, v: Option<string>): seq<Node> {
    if v.Some? then [Leaf(name, v.value)] else []
  }

  function AddrTail(a: Addr, objectType: string): seq<Node> {
    var t := objectType;
    [Leaf(t + ":city", a.city)] + OptLeaf(t + ":sp", a.sp) + OptLeaf(t + ":pc", a.pc) + [Leaf(t + ":cc", a.cc)]
  }

  /** `<type:addr>`: the street lines in order, then city, state or province, postal code and country code. */
  function ProcessAddr(a: Addr, objectType: string): Node {
    Branch(objectType + ":addr", Leaves(objectType + ":street", a.street) + AddrTail(a, objectType))
  }

  /** The street lines are exactly the `street` elements of the address, in order; city and country code are its parts. */
  lemma AddrContents(a: Addr, objectType: string)
    ensures Collect(ProcessAddr(a, objectType), objectType + ":street") == Leaves(objectType + ":street", a.street)
    ensures Leaf(objectType + ":city", a.city) in Kids(ProcessAddr(a, objectType))
    ensures Leaf(objectType + ":cc", a.cc) in Kids(ProcessAddr(a, objectType))
  {
    var t := objectType;
    var tail := AddrTail(a, t);
    CollectAllAppend(Leaves(t + ":street", a.street), tail, t + ":street");
    CollectLeaves(t + ":street", a.street);
    AddrTailNoStreet(a, t);
    AddrTailParts(a, t);
  }

  lemma AddrTailNoStreet(a: Addr, t: string)
    ensures CollectAll(AddrTail(a, t), t + ":street") == []
  {
    var tail := AddrTail(a, t);
    assert forall i :: 0 <= i < |tail| ==> |tail[i].name| < |t + ":street"|;
    CollectFlatOthers(tail, t + ":street");
  }

  lemma AddrTailParts(a: Addr, t: string)
    ensures Leaf(t + ":city", a.city) in Leaves(t + ":street", a.street) + AddrTail(a, t)
    ensures Leaf(t + ":cc", a.cc) in Leaves(t + ":street", a.street) + AddrTail(a, t)
  {
    var tail := AddrTail(a, t);
    assert tail[0] == Leaf(t + ":city", a.city);
    assert tail[|tail| - 1] == Leaf(t + ":cc", a.cc);
  }

  /** An address renders as `<type:addr>`, its parts, `</type:addr>`, and the city leaf is among the parts. */
  lemma AddrText(a: Addr, objectType: string)
    ensures Render(ProcessAddr(a, objectType))
         == StartTag(objectType + ":addr") + RenderAll(Kids(ProcessAddr(a, objectType))) + CloseTag(objectType + ":addr")
    ensures Infix(StartTag(objectType + ":city") + a.city + CloseTag(objectType + ":city"),
                  RenderAll(Kids(ProcessAddr(a, objectType))))
  {
    var r := ProcessAddr(a, objectType);
    var city := Leaf(objectType + ":city", a.city);
    AddrContents(a, objectType);
    BranchText(objectType + ":addr", Kids(r));
    MemberRendersInside(Kids(r), city);
    LeafText(objectType + ":city", a.city);
  }

  function ProcessAddrs(list: seq<Addr>, objectType: string): (r: seq<Node>)
    ensures |r| == |list|
    ensures forall i :: 0 <= i < |r| ==> r[i] == ProcessAddr(list[i], objectType)
  {
    if list == [] then [] else [ProcessAddr(list[0], objectType)] + ProcessAddrs(list[1..], objectType)
  }

  /** `<type:postalInfo type="kind">`: name, organisation, then one addr per address record. */
  function ProcessPostalInfo(p: PostalInfo, objectType: string): Node {
    var t := objectType;
    Node(t + ":postalInfo", [Attr("type", p.kind)],
         Elements([Leaf(t + ":name", p.name)] + OptLeaf(t + ":org", p.org) + ProcessAddrs(p.addr, t)))
  }

  /** The postal info carries its kind as `type`, starts with the name, and holds an addr for each address. */
  lemma PostalInfoContents(p: PostalInfo, objectType: string)
    ensures ProcessPostalInfo(p, objectType).attrs == [Attr("type", p.kind)]
    ensures Child(ProcessPostalInfo(p, objectType), objectType + ":name") == Some(Leaf(objectType + ":name", p.name))
    ensures forall a :: a in p.addr ==> ProcessAddr(a, objectType) in Kids(ProcessPostalInfo(p, objectType))
  {
    var r := ProcessPostalInfo(p, objectType);
    var addrs := ProcessAddrs(p.addr, objectType);
    assert Kids(r) == [Leaf(objectType + ":name", p.name)] + OptLeaf(objectType + ":org", p.org) + addrs;
    forall a | a in p.addr
      ensures ProcessAddr(a, objectType) in Kids(r)
    {
      var i :| 0 <= i < |p.addr| && p.addr[i] == a;
      assert addrs[i] == ProcessAddr(a, objectType);
      assert addrs[i] in addrs;
    }
  }


  function ProcessPostalInfos(list: seq<PostalInfo>, objectType: string): (r: seq<Node>)
    ensures |r| == |list|
    ensures forall i :: 0 <= i < |r| ==> r[i] == ProcessPostalInfo(list[i], objectType)
  {
    if list == [] then [] else [ProcessPostalInfo(list[0], objectType)] + ProcessPostalInfos(list[1..], objectType)
  }

  // ---------------------------------------------------------------------
  // Name servers and contact links of a domain

  /** `<domain:ns>` with one `<domain:hostObj>` per host name, in order. */
  function ProcessNs(hosts: seq<string>): (r: Node)
    ensures r.name == "domain:ns"
    ensures Collect(r, "domain:hostObj") == Leaves("domain:hostObj", hosts)
  {
    CollectLeaves("domain:hostObj", hosts);
    Branch("domain:ns", Leaves("domain:hostObj", hosts))
  }

  /** A `{role: id}` pair. */
  datatype ContactLink = ContactLink(role: string, id: string)

  /** `<domain:contact type="role">id</domain:contact>`. */
  function ProcessContactLink(c: ContactLink): (r: Node)
    ensures r.name == "domain:contact"
    ensures r.attrs == [Attr("type", c.role)] && r.content == Text(Str(c.id))
    ensures Render(r) == "<domain:contact type=\"" + c.role + "\">" + c.id + "</domain:contact>"
  {
    ContactLinkText(c.role, c.id);
    Node("domain:contact", [Attr("type", c.role)], Text(Str(c.id)))
  }

  lemma ContactLinkText(role: string, id: string)
    ensures Render(Node("domain:contact", [Attr("type", role)], Text(Str(id))))
         == "<domain:contact type=\"" + role + "\">" + id + "</domain:contact>"
  {
    var n := Node("domain:contact", [Attr("type", role)], Text(Str(id)));
    var open := "<domain:contact type=\"" + role + "\"";
    assert RenderAttrs(n.attrs) == " type=\"" + role + "\"";
    assert "<" + "domain:contact" + " type=\"" == "<domain:contact type=\"";
    assert OpenTag(n) == open;
    assert CloseTag("domain:contact") == "</domain:contact>";
  }

  function ProcessContactLinks(list: seq<ContactLink>): (r: seq<Node>)
    ensures |r| == |list|
    ensures forall i :: 0 <= i < |r| ==> r[i] == ProcessContactLink(list[i])
  {
    if list == [] then [] else [ProcessContactLink(list[0])] + ProcessContactLinks(list[1..])
  }

  lemma ContactLinkListed(list: seq<ContactLink>, c: ContactLink)
    requires c in list
    ensures ProcessContactLink(c) in ProcessContactLinks(list)
  {
    var i :| 0 <= i < |list| && list[i] == c;
    assert ProcessContactLinks(list)[i] == ProcessContactLink(c);
  }
}
