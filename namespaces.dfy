/**
  The namespace registry: a read-only table from object type to the XML
  namespace URI its elements are bound to. It is handed to every builder
  rather than read from global configuration, so several registry profiles
  can be used side by side.
*/
module Namespaces {
  import opened Wrappers
  import opened Errors

  type Registry = map<string, string>

  const EPP_URI := "urn:ietf:params:xml:ns:epp-1.0"
  const DOMAIN_URI := "urn:ietf:params:xml:ns:domain-1.0"
  const CONTACT_URI := "urn:ietf:params:xml:ns:contact-1.0"
  const HOST_URI := "urn:ietf:params:xml:ns:host-1.0"

  /** The namespaces of the nzrs profile, as RFC 5730, 5731, 5732 and 5733 define them. */
  const NZRS: Registry :=
    map["epp" := EPP_URI, "domain" := DOMAIN_URI, "contact" := CONTACT_URI, "host" := HOST_URI]

  /** The namespace URI of an object type, or a configuration error naming the type. */
  function Lookup(reg: Registry, objectType: string): (r: Result<string, Error>)
    ensures r.Success? <==> objectType in reg
    ensures r.Success? ==> r.value == reg[objectType]
    ensures r.Failure? ==> r.error == ConfigurationError(objectType)
  {
    if objectType in reg then Success(reg[objectType]) else Failure(ConfigurationError(objectType))
  }

  /** The nzrs profile binds the envelope and the contact mapping to their standard URIs. */
  lemma NzrsNamespaces()
    ensures Lookup(NZRS, "epp") == Success("urn:ietf:params:xml:ns:epp-1.0")
    ensures Lookup(NZRS, "contact") == Success("urn:ietf:params:xml:ns:contact-1.0")
    ensures Lookup(NZRS, "domain") == Success("urn:ietf:params:xml:ns:domain-1.0")
  {
  }
}
