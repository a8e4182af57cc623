/**
  The element tree of an F0401 invoice in its fixed order, and the reader that inverts
  it: a tree reads as an invoice exactly when it is the tree of that invoice.
 */
module F0401Tree {
  import opened Wrappers
  import opened Primitives
  import opened Xml
  import opened F0401Document

  // ---------------------------------------------------------------- lexical readers

  function ReadBan(s: string): Option<Ban> { if IsBan(s) then Some(s) else None }
  function ReadDecimal(s: string): Option<MigDecimal> { if IsDecimal(s) then Some(s) else None }
  function ReadCurrency(s: string): Option<CurrencyCode> { if IsCurrency(s) then Some(s) else None }
  function Plain(s: string): string { s }

  // ---------------------------------------------------------------- roles

  datatype Contact = Contact(address: Option<string>, personInCharge: Option<string>, telephoneNumber: Option<string>,
                             facsimileNumber: Option<string>)

  datatype Reference = Reference(emailAddress: Option<string>, customerNumber: Option<string>,
                                 roleRemark: Option<string>)

  function ContactFields(c: Contact, rest: seq<Node>): seq<Node> {
    Optional("Address", c.address) + (Optional("PersonInCharge", c.personInCharge) +
    (Optional("TelephoneNumber", c.telephoneNumber) + (Optional("FacsimileNumber", c.facsimileNumber) + rest)))
  }

  function ReferenceFields(r: Reference, rest: seq<Node>): seq<Node> {
    Optional("EmailAddress", r.emailAddress) + (Optional("CustomerNumber", r.customerNumber) +
    (Optional("RoleRemark", r.roleRemark) + rest))
  }

  function RoleFields(r: RoleDescription): seq<Node> {
    [Leaf("Identifier", r.identifier)] + ([Leaf("Name", r.name)] +
    ContactFields(Contact(r.address, r.personInCharge, r.telephoneNumber, r.facsimileNumber),
    ReferenceFields(Reference(r.emailAddress, r.customerNumber, r.roleRemark), [])))
  }

  function RoleNode(tag: string, r: RoleDescription): Node { Element(tag, [], RoleFields(r)) }

  function ReadContact(nodes: seq<Node>): (r: (Contact, seq<Node>))
    ensures nodes == ContactFields(r.0, r.1)
  {
    var (address, n1) := TakeOptional(nodes, "Address");
    var (personInCharge, n2) := TakeOptional(n1, "PersonInCharge");
    var (telephoneNumber, n3) := TakeOptional(n2, "TelephoneNumber");
    var (facsimileNumber, n4) := TakeOptional(n3, "FacsimileNumber");
    (Contact(address, personInCharge, telephoneNumber, facsimileNumber), n4)
  }

  function ReadReference(nodes: seq<Node>): (r: (Reference, seq<Node>))
    ensures nodes == ReferenceFields(r.0, r.1)
  {
    var (emailAddress, n1) := TakeOptional(nodes, "EmailAddress");
    var (customerNumber, n2) := TakeOptional(n1, "CustomerNumber");
    var (roleRemark, n3) := TakeOptional(n2, "RoleRemark");
    (Reference(emailAddress, customerNumber, roleRemark), n3)
  }

  function ReadRole(node: Node, tag: string): (r: Option<RoleDescription>)
    ensures r.Some? ==> node == RoleNode(tag, r.value)
  {
    if !node.Element? || node.name != tag || node.attributes != [] then None
    else
      var (identifier, n1) :- Take(node.children, "Identifier");
      var (name, n2) :- Take(n1, "Name");
      var (contact, n3) := ReadContact(n2);
      var (reference, n4) := ReadReference(n3);
      var ban :- ReadBan(identifier);
      if n4 != [] then None
      else Some(RoleDescription(ban, name, contact.address, contact.personInCharge, contact.telephoneNumber,
                                contact.facsimileNumber, reference.emailAddress, reference.customerNumber,
                                reference.roleRemark))
  }

  lemma ReadContactInverts(c: Contact, rest: seq<Node>)
    requires Lead(rest) !in {"Address", "PersonInCharge", "TelephoneNumber", "FacsimileNumber"}
    ensures ReadContact(ContactFields(c, rest)) == (c, rest)
  {
    var n3 := Optional("FacsimileNumber", c.facsimileNumber) + rest;
    var n2 := Optional("TelephoneNumber", c.telephoneNumber) + n3;
    var n1 := Optional("PersonInCharge", c.personInCharge) + n2;
    TakeOptionalInverts("FacsimileNumber", c.facsimileNumber, rest);
    assert "FacsimileNumber"[0] != "TelephoneNumber"[0];
    TakeOptionalInverts("TelephoneNumber", c.telephoneNumber, n3);
    TakeOptionalInverts("PersonInCharge", c.personInCharge, n2);
    TakeOptionalInverts("Address", c.address, n1);
    hide Take, TakeOptional, Optional, Leaf, Lead;
  }

  lemma ReadReferenceInverts(r: Reference, rest: seq<Node>)
    requires Lead(rest) !in {"EmailAddress", "CustomerNumber", "RoleRemark"}
    ensures ReadReference(ReferenceFields(r, rest)) == (r, rest)
    ensures Lead(ReferenceFields(r, rest)) in {Lead(rest), "EmailAddress", "CustomerNumber", "RoleRemark"}
  {
    var n2 := Optional("RoleRemark", r.roleRemark) + rest;
    var n1 := Optional("CustomerNumber", r.customerNumber) + n2;
    TakeOptionalInverts("RoleRemark", r.roleRemark, rest);
    TakeOptionalInverts("CustomerNumber", r.customerNumber, n2);
    TakeOptionalInverts("EmailAddress", r.emailAddress, n1);
    hide Take, TakeOptional, Optional, Leaf, Lead;
  }

  lemma ReadRoleInverts(tag: string, r: RoleDescription)
    ensures ReadRole(RoleNode(tag, r), tag) == Some(r)
  {
    var contact := Contact(r.address, r.personInCharge, r.telephoneNumber, r.facsimileNumber);
    var reference := Reference(r.emailAddress, r.customerNumber, r.roleRemark);
    var n3 := ReferenceFields(reference, []);
    var n2 := ContactFields(contact, n3);
    ReadReferenceInverts(reference, []);
    assert "CustomerNumber"[0] != "PersonInCharge"[0];
    ReadContactInverts(contact, n3);
    TakeInverts("Name", r.name, n2);
    TakeInverts("Identifier", r.identifier, [Leaf("Name", r.name)] + n2);
    hide Take, ReadContact, ReadReference, ContactFields, ReferenceFields, Leaf, Lead, IsBan;
  }
}
