# nodepp EPP command compiler, modelled in Dafny

nodepp is an EPP client. Its command compiler turns plain descriptor objects
into EPP request documents:

- the core protocol of RFC 5730;
- the domain mapping of RFC 5731;
- the contact mapping of RFC 5733.

The suite in `test/epp-generate.js` pins down how the compiler behaves. This
project models that behaviour as pure functions over datatypes and proves it.

The modules:

- **Xml** (`xml.dfy`). The node tree every builder produces: a name, an
  ordered attribute list, and either nothing, one scalar text value, or
  ordered children. It also holds the deterministic serializer `Render`. A
  node with no value and no children renders self-closing. Substring facts
  use `Infix`. `Collect` finds the descendants that carry a given name.
- **XmlReader** (`xml_reader.dfy`). A reader for the serializer's output. It
  is the serializer's partner: rendering a well-formed tree and reading it
  back gives the tree again, in canonical form.
- **Namespaces** (`namespaces.dfy`). The namespace registry: an injected,
  read-only map from object type to namespace URI. It includes the nzrs
  profile.
- **Fields** (`fields.dfy`). The field processors:
  - `processAuthInfo`: a bare password or `{pw, roid?}`; the roid is kept
    for domains only;
  - `processDomainPeriod`: a count or `{unit?, value}`; the unit defaults to
    `y`;
  - the disclose, status, postal-info and address processors, plus the
    name-server and domain-contact processors.
- **Envelope** (`envelope.dfy`). The `<epp xmlns=…>` root. `hello` is a bare
  `<hello/>` directly under the root. Every other request is a `command`
  element holding the operation element and then `clTRID`. `logout` is
  also here.
- **Commands** (`commands.dfy`). `callConvert` and the builders: `login`,
  `checkDomain`, `transferDomain`, `createContact`, `updateContact`,
  `createDomain` and `updateDomain`.

Each builder has two layers:

- An operation function (`XxxOp`) builds the element tree. Validation comes
  before the registry lookup. Failures are `Result` values:
  - `ValidationError` carries the exact message the compiler throws
    (`pw is required!`, or the transfer-op message);
  - `ConfigurationError` names an object type missing from the registry.
- A text function (`Xxx`) wraps the tree in the envelope and renders it.
  Its `ensures` state the substrings the suite looks for.

Lemmas then relate the trees to the descriptors.

## Model

| member | source | states |
|---|---|---|
| Fields.ProcessAuthInfo | test/epp-generate.js:22-43 | fails exactly when no password is given, with `pw is required!`; otherwise a `type:pw` element whose text is the password and whose only possible attribute is the roid, present exactly when the type carries one (domain) and the descriptor has one |
| Fields.AuthInfoSection | test/epp-generate.js:240-254 | the `type:authInfo` wrapper around the password element; fails with `pw is required!` exactly when the password is missing |
| Fields.PlainIsStructured | test/epp-generate.js:31-41 | a bare password string and `{pw}` give the same element |
| Fields.RoidOnlyWhereCarried | test/epp-generate.js:22-36 | `{pw, roid}` gives the same element as the bare password if and only if the object type does not carry a roid |
| Fields.AuthInfoText | test/epp-generate.js:27-41 | the rendered password element is `<type:pw roid="R">P</type:pw>` for a domain with roid, and `<type:pw>P</type:pw>` otherwise |
| Fields.ProcessDomainPeriod | test/epp-generate.js:44-64 | a `domain:period` element whose only attribute is the unit and whose value is the count, kept as a number |
| Fields.PeriodDeterminedByUnitAndCount | test/epp-generate.js:50-56 | two periods give the same element if and only if they agree on unit and count |
| Fields.PeriodDefaultUnit | test/epp-generate.js:45-62 | a bare count `n`, `{value: n}` and `{unit: "y", value: n}` give the same element, with unit `y` and value `n` |
| Fields.ProcessDisclose | test/epp-generate.js:105-127 | a `type:disclose` element whose `flag` attribute is the flag, with one empty child `type:f` per disclosed field `f`, in the order the fields are listed |
| Fields.DiscloseText | test/epp-generate.js:127 | the disclose element renders as its start tag, its children and its close tag, and each disclosed field shows as `<type:f/>` among the children |
| Fields.DiscloseIgnoresFlag | test/epp-generate.js:105-107 | the flag changes the attribute and never the children; two disclose elements over the same fields are equal if and only if their flags are |
| Fields.ProcessStatus | test/epp-generate.js:261-266 | a `type:status` element whose first attribute is `s`, with `lang` and the text only for `{s, lang, value}` records |
| Fields.ProcessStatusList | test/epp-generate.js:261-266 | one status element per status, in order |
| Fields.CodeIsDescribed | test/epp-generate.js:261 | a bare status code renders as `<type:status s="code"/>`, like a record that has only that code |
| Fields.StatusText | test/epp-generate.js:162-163 | the text of every status, of either shape, contains `<type:status s="code"` |
| Fields.CollectStatuses | test/epp-generate.js:261-266 | the status elements found in a processed status list are exactly that list, in order |
| Fields.AddrContents | test/epp-generate.js:113-126 | an address holds its street lines in order, and its city and country leaves |
| Fields.AddrText | test/epp-generate.js:126 | an address renders as `<type:addr>`, its children and its close tag, with `<type:city>C</type:city>` among the children |
| Fields.PostalInfoContents | test/epp-generate.js:109-125 | a postal info carries its `type` attribute and a `type:name` leaf with the name as its first such child, and holds each of its addresses |
| Fields.ProcessNs | test/epp-generate.js:174-179 | a `domain:ns` element whose `domain:hostObj` leaves are exactly the given hosts, in order |
| Fields.ProcessContactLink | test/epp-generate.js:181-187 | a contact link renders as `<domain:contact type="role">id</domain:contact>` |
| Xml.SelfClosing | test/epp-generate.js:78-84 | a node renders as a self-closing tag if and only if it has no value and no children |
| Xml.DecimalRoundTrip | test/epp-generate.js:45-48 | the text of a numeric value reads back as that number |
| XmlReader.RoundTrip | test/epp-generate.js:28 | reading back the rendering of a well-formed tree gives the tree in canonical form |
| XmlReader.SameText | test/epp-generate.js:28 | two well-formed trees render the same text if and only if their canonical forms are equal |
| Namespaces.Lookup | test/epp-generate.js:20 | the URI of a registered object type, or a configuration error naming the missing type |
| Namespaces.NzrsNamespaces | test/epp-generate.js:20 | the nzrs profile binds `epp`, `domain` and `contact` to their standard URIs |
| Envelope.Command | test/epp-generate.js:66-70 | a command text exists exactly when the operation was built and the envelope namespace is registered; it contains the operation's text and `<clTRID>trid</clTRID>` |
| Envelope.CommandReadsBack | test/epp-generate.js:66-70 | reading a command's text back gives the envelope namespace on the root, the operation element and the transaction id |
| Envelope.Hello | test/epp-generate.js:75-79 | the hello text contains `<hello/>` and fails only when the envelope namespace is missing |
| Envelope.HelloReadsBack | test/epp-generate.js:75-79 | hello reads back as a root whose only child is the empty `hello` element, with no command and no clTRID |
| Envelope.Logout | test/epp-generate.js:81-85 | the logout text contains `<logout/>` and the clTRID |
| Commands.ObjectElement | test/epp-generate.js:124 | the `type:verb` element and its children, declaring `xmlns:type` with the registered URI; a configuration error when the type is missing |
| Commands.CallConvert | test/epp-generate.js:28-41 | the rendering of a processed field contains the field's own text |
| Commands.ConvertDomainAuthInfo | test/epp-generate.js:27-30 | callConvert of a domain `{pw, roid}` contains `<domain:pw roid="R">P</domain:pw>` |
| Commands.ConvertContactAuthInfo | test/epp-generate.js:34-41 | callConvert of a contact `{pw, roid?}`, or of a bare password, contains `<contact:pw>P</contact:pw>` |
| Commands.Login | test/epp-generate.js:65-73 | the login text contains `<login>`, the `clID` and `pw` leaves with the given values, and `<clTRID>trid</clTRID>` |
| Commands.LoginReadsBack | test/epp-generate.js:65-73 | the login text reads back as a command whose operation is the login element itself |
| Commands.CheckDomainOp | test/epp-generate.js:87-92 | `check` holds one `domain:check` element, and the `domain:name` leaves found are exactly the checked names, in order |
| Commands.CheckDomain | test/epp-generate.js:87-93 | succeeds exactly when the domain and envelope namespaces are registered, and then contains `<domain:name>N</domain:name>` for each checked name and `<clTRID>trid</clTRID>` |
| Commands.CheckDomainText | test/epp-generate.js:92 | for one name, the text of `check` is `<check>`, then `domain:check`'s start tag, then `<domain:name>N</domain:name>`, then the close tags |
| Commands.TransferDomainOp | test/epp-generate.js:198-254 | an op outside approve/cancel/query/reject/request fails with the exact op message; then a missing password fails with `pw is required!`; otherwise the `transfer` element's only attribute is `op` with the given value, over `domain:transfer` holding the name, the period when given, and the authInfo |
| Commands.TransferOpsListed | test/epp-generate.js:236-237 | the op error message lists exactly the accepted operations, as `approve, cancel, query, reject, request`, in that order |
| Commands.TransferDomain | test/epp-generate.js:198-238 | the same error selection, and on success the text contains `<transfer op="OP"` and `<clTRID>trid</clTRID>` |
| Commands.TransferReadsBack | test/epp-generate.js:208-220 | a transfer text reads back as a command whose operation is `transfer`, with `op` as its only attribute, and whose clTRID is the given one |
| Commands.CreateContactOp | test/epp-generate.js:95-128 | a missing authInfo password fails with `pw is required!`; otherwise the result succeeds exactly when the contact namespace is registered, as `create` over `contact:create` declaring `xmlns:contact` |
| Commands.CreateContactContents | test/epp-generate.js:98-127 | the id and email leaves, each postal name, each address and the disclose element are all found in the operation |
| Commands.CreateContact | test/epp-generate.js:122-127 | the text declares `xmlns:contact="URI"` and contains each `<contact:name>N</contact:name>`, each address's text, the disclose element's text and `<clTRID>trid</clTRID>` |
| Commands.ContactChangeSection | test/epp-generate.js:133-158 | the `contact:chg` element when a change is given, nothing otherwise; fails with `pw is required!` when the change's authInfo lacks a password |
| Commands.UpdateContactOp | test/epp-generate.js:130-160 | the error selection (password first, then the contact namespace), and `update` over `contact:update` holding the id and the add, rem and chg sections |
| Commands.UpdateContactSections | test/epp-generate.js:132-164 | `contact:add`, `contact:rem` and `contact:chg` are present exactly when the descriptor has them, and add and rem hold exactly the given statuses |
| Commands.UpdateContact | test/epp-generate.js:160-164 | each added and removed code shows as `<contact:status s="code"`; the change shows as `<contact:chg>`, its children and `</contact:chg>`; the text carries `<clTRID>trid</clTRID>` |
| Commands.CreateDomainOp | test/epp-generate.js:167-192 | a missing authInfo password fails with `pw is required!`; otherwise the result succeeds exactly when the domain namespace is registered, as `create` over `domain:create` declaring `xmlns:domain` |
| Commands.CreateDomainContents | test/epp-generate.js:168-191 | the name, registrant, period, each host name and each contact are found in the operation |
| Commands.CreateDomain | test/epp-generate.js:192-195 | the text contains `<domain:name>N</domain:name>`, `<domain:registrant>R</domain:registrant>`, each host leaf, each contact's text and `<clTRID>trid</clTRID>` |
| Commands.DomainChangeSection | test/epp-generate.js:268-273 | the `domain:chg` element when a change is given, nothing otherwise; fails with `pw is required!` when the change's authInfo lacks a password |
| Commands.UpdateDomainOp | test/epp-generate.js:255-275 | the error selection (password first, then the domain namespace), and `update` over `domain:update` holding the name and the add, rem and chg sections |
| Commands.UpdateDomainItems | test/epp-generate.js:256-277 | the name servers, contacts and statuses found anywhere in the operation are exactly the added ones followed by the removed ones, and each section holds exactly its own |
| Commands.UpdateDomainSections | test/epp-generate.js:256-278 | `domain:add`, `domain:rem` and `domain:chg` are present exactly when the descriptor has them, and the new registrant is a leaf of the change |
| Commands.SectionText | test/epp-generate.js:276-277 | an add or rem section renders as its start tag, its items' text and its close tag; every host leaf, contact and `<domain:status s="code"` lies in the items' text |
| Commands.ChangeText | test/epp-generate.js:278 | the change renders as `<domain:chg>`, its children and `</domain:chg>`, with `<domain:registrant>R</domain:registrant>` among the children |
| Commands.UpdateDomain | test/epp-generate.js:275-278 | succeeds exactly when the change is valid and both namespaces are registered, and then contains the text of each section, of the change and `<clTRID>trid</clTRID>` |

## Left out

- Login's protocol version, language and service lists are not modelled. The suite only asserts `<login>`, and the element's other children are not visible.
- XML character escaping is not modelled, and neither are the XML declaration and `schemaLocation` attributes. The reader's round trip is stated for values without `<` or `"` instead.
- Loading `lib/epp-config.json` is not modelled. The namespace table is a parameter, and the nzrs profile is given as a constant.
- Transport, session state and RFC 5734 framing are not modelled.
- JavaScript's runtime type tests on descriptor values are replaced by datatypes: `AuthInfo`, `Period`, `Status`, and `Option` fields.
- `lib/epp.js` itself is not part of this model. Where the suite says nothing, the following choices are made:
  - child order follows RFC 5730, 5731 and 5733;
  - the `xmlns:type` declaration sits on the object element, as in the RFC examples;
  - a transfer's period is rendered whatever the op is, when one is given;
  - a transfer with no authInfo at all fails like one without a password;
  - a transfer checks its op before its password, so an unknown op with no password fails with the op message;
  - an authInfo without a password fails with `pw is required!` in every builder that takes one: createContact, createDomain, transferDomain and both `chg` sections. The suite shows this failure only for transfer (test/epp-generate.js:240-254);
  - a sub-object that is given but empty is still rendered: `add` with no statuses gives `<contact:add/>`, and a domain change with no registrant and no authInfo gives `<domain:chg/>`. Only an absent sub-object omits its section;
  - an empty password `""` is accepted and rendered as an empty `pw` element;
  - period counts and disclose flags are natural numbers, so a negative value cannot be given.
- Commands.CallConvert: the role of callConvert's second argument is not visible. It is taken to be the name of a wrapper element around the field.
- Commands.CheckDomain: the suite checks a single name. The model takes a list of names and treats one name as a list of one.
- Fields.AddrText, Fields.DiscloseText, Commands.SectionText, Commands.ChangeText and Commands.UpdateContact state each section as its start tag, its children's text and its close tag. They do not also state that nothing of the excluded kind occurs in between, which the regexes add: no other `<contact:city>` before the city (test/epp-generate.js:126), no `<contact:email>` before `<contact:email/>` (:127), and no other close tag of the section's name (:164, :276-278).
- Fields.ProcessAddr: only the street lines, city and country code are named in contracts. The state/province and postal-code leaves are built but not stated.
