/** The `Main` element: its fields in document order, group by group, and their reader. */
module F0401MainTree {
  import opened Wrappers
  import opened Primitives
  import opened Xml
  import opened F0401Document
  import opened F0401Tree

  datatype Issue = Issue(number: string, date: string, time: string, seller: RoleDescription, buyer: RoleDescription)
  datatype Remarks = Remarks(buyerRemark: Option<string>, mainRemark: Option<string>, customsMark: Option<string>)
  datatype Relation = Relation(category: Option<string>, relateNumber: Option<string>, invoiceType: string)
  datatype Carrier = Carrier(groupMark: Option<string>, donateMark: string, carrierType: Option<string>,
                             carrierId1: Option<string>, carrierId2: Option<string>, printMark: string)
  datatype Receiver = Receiver(npoBan: Option<string>, randomNumber: Option<string>, bondedArea: Option<string>)
  datatype Reserve = Reserve(zeroTaxRateReason: Option<string>, reserved1: Option<string>, reserved2: Option<string>)

  // ---------------------------------------------------------------- groups of fields

  function IssueFields(i: Issue, rest: seq<Node>): seq<Node> {
    [Leaf("InvoiceNumber", i.number)] + ([Leaf("InvoiceDate", i.date)] + ([Leaf("InvoiceTime", i.time)] +
    ([RoleNode("Seller", i.seller)] + ([RoleNode("Buyer", i.buyer)] + rest))))
  }

  function RemarksFields(r: Remarks, rest: seq<Node>): seq<Node> {
    Optional("BuyerRemark", r.buyerRemark) + (Optional("MainRemark", r.mainRemark) +
    (Optional("CustomsClearanceMark", r.customsMark) + rest))
  }

  function RelationFields(r: Relation, rest: seq<Node>): seq<Node> {
    Optional("Category", r.category) + (Optional("RelateNumber", r.relateNumber) +
    ([Leaf("InvoiceType", r.invoiceType)] + rest))
  }

  function CarrierFields(c: Carrier, rest: seq<Node>): seq<Node> {
    Optional("GroupMark", c.groupMark) + ([Leaf("DonateMark", c.donateMark)] +
    (Optional("CarrierType", c.carrierType) + (Optional("CarrierId1", c.carrierId1) +
    (Optional("CarrierId2", c.carrierId2) + ([Leaf("PrintMark", c.printMark)] + rest)))))
  }

  function ReceiverFields(r: Receiver, rest: seq<Node>): seq<Node> {
    Optional("NPOBAN", r.npoBan) + (Optional("RandomNumber", r.randomNumber) +
    (Optional("BondedAreaConfirm", r.bondedArea) + rest))
  }

  function ReserveFields(r: Reserve, rest: seq<Node>): seq<Node> {
    Optional("ZeroTaxRateReason", r.zeroTaxRateReason) + (Optional("Reserved1", r.reserved1) +
    (Optional("Reserved2", r.reserved2) + rest))
  }

  // ---------------------------------------------------------------- their readers

  function TakeRole(nodes: seq<Node>, tag: string): (r: Option<(RoleDescription, seq<Node>)>)
    ensures r.Some? ==> nodes == [RoleNode(tag, r.value.0)] + r.value.1
  {
    if nodes == [] then None
    else
      var v :- ReadRole(nodes[0], tag);
      Some((v, nodes[1..]))
  }

  function ReadIssue(nodes: seq<Node>): (r: Option<(Issue, seq<Node>)>)
    ensures r.Some? ==> nodes == IssueFields(r.value.0, r.value.1)
  {
    var (number, n1) :- Take(nodes, "InvoiceNumber");
    var (date, n2) :- Take(n1, "InvoiceDate");
    var (time, n3) :- Take(n2, "InvoiceTime");
    var (seller, n4) :- TakeRole(n3, "Seller");
    var (buyer, n5) :- TakeRole(n4, "Buyer");
    Some((Issue(number, date, time, seller, buyer), n5))
  }

  function ReadRemarks(nodes: seq<Node>): (r: (Remarks, seq<Node>))
    ensures nodes == RemarksFields(r.0, r.1)
  {
    var (buyerRemark, n1) := TakeOptional(nodes, "BuyerRemark");
    var (mainRemark, n2) := TakeOptional(n1, "MainRemark");
    var (customsMark, n3) := TakeOptional(n2, "CustomsClearanceMark");
    (Remarks(buyerRemark, mainRemark, customsMark), n3)
  }

  function ReadRelation(nodes: seq<Node>): (r: Option<(Relation, seq<Node>)>)
    ensures r.Some? ==> nodes == RelationFields(r.value.0, r.value.1)
  {
    var (category, n1) := TakeOptional(nodes, "Category");
    var (relateNumber, n2) := TakeOptional(n1, "RelateNumber");
    var (invoiceType, n3) :- Take(n2, "InvoiceType");
    Some((Relation(category, relateNumber, invoiceType), n3))
  }

  function ReadCarrier(nodes: seq<Node>): (r: Option<(Carrier, seq<Node>)>)
    ensures r.Some? ==> nodes == CarrierFields(r.value.0, r.value.1)
  {
    var (groupMark, n1) := TakeOptional(nodes, "GroupMark");
    var (donateMark, n2) :- Take(n1, "DonateMark");
    var (carrierType, n3) := TakeOptional(n2, "CarrierType");
    var (carrierId1, n4) := TakeOptional(n3, "CarrierId1");
    var (carrierId2, n5) := TakeOptional(n4, "CarrierId2");
    var (printMark, n6) :- Take(n5, "PrintMark");
    Some((Carrier(groupMark, donateMark, carrierType, carrierId1, carrierId2, printMark), n6))
  }

  function ReadReceiver(nodes: seq<Node>): (r: (Receiver, seq<Node>))
    ensures nodes == ReceiverFields(r.0, r.1)
  {
    var (npoBan, n1) := TakeOptional(nodes, "NPOBAN");
    var (randomNumber, n2) := TakeOptional(n1, "RandomNumber");
    var (bondedArea, n3) := TakeOptional(n2, "BondedAreaConfirm");
    (Receiver(npoBan, randomNumber, bondedArea), n3)
  }

  function ReadReserve(nodes: seq<Node>): (r: (Reserve, seq<Node>))
    ensures nodes == ReserveFields(r.0, r.1)
  {
    var (zeroTaxRateReason, n1) := TakeOptional(nodes, "ZeroTaxRateReason");
    var (reserved1, n2) := TakeOptional(n1, "Reserved1");
    var (reserved2, n3) := TakeOptional(n2, "Reserved2");
    (Reserve(zeroTaxRateReason, reserved1, reserved2), n3)
  }

  lemma ReadIssueInverts(i: Issue, rest: seq<Node>)
    ensures ReadIssue(IssueFields(i, rest)) == Some((i, rest))
  {
    var n4 := [RoleNode("Buyer", i.buyer)] + rest;
    var n3 := [RoleNode("Seller", i.seller)] + n4;
    var n2 := [Leaf("InvoiceTime", i.time)] + n3;
    var n1 := [Leaf("InvoiceDate", i.date)] + n2;
    TakeInverts("InvoiceNumber", i.number, n1);
    TakeInverts("InvoiceDate", i.date, n2);
    TakeInverts("InvoiceTime", i.time, n3);
    ReadRoleInverts("Seller", i.seller);
    ReadRoleInverts("Buyer", i.buyer);
    assert n3[1..] == n4 && n4[1..] == rest;
    hide Take, ReadRole, RoleNode, Leaf;
  }

  lemma ReadRemarksInverts(r: Remarks, rest: seq<Node>)
    requires Lead(rest) !in {"BuyerRemark", "MainRemark", "CustomsClearanceMark"}
    ensures ReadRemarks(RemarksFields(r, rest)) == (r, rest)
  {
    var n2 := Optional("CustomsClearanceMark", r.customsMark) + rest;
    var n1 := Optional("MainRemark", r.mainRemark) + n2;
    TakeOptionalInverts("CustomsClearanceMark", r.customsMark, rest);
    TakeOptionalInverts("MainRemark", r.mainRemark, n2);
    TakeOptionalInverts("BuyerRemark", r.buyerRemark, n1);
    hide TakeOptional, Optional, Leaf, Lead;
  }

  lemma ReadRelationInverts(r: Relation, rest: seq<Node>)
    ensures ReadRelation(RelationFields(r, rest)) == Some((r, rest))
    ensures Lead(RelationFields(r, rest)) in {"Category", "RelateNumber", "InvoiceType"}
  {
    var n2 := [Leaf("InvoiceType", r.invoiceType)] + rest;
    var n1 := Optional("RelateNumber", r.relateNumber) + n2;
    TakeInverts("InvoiceType", r.invoiceType, rest);
    TakeOptionalInverts("RelateNumber", r.relateNumber, n2);
    TakeOptionalInverts("Category", r.category, n1);
    hide Take, TakeOptional, Optional, Leaf, Lead;
  }

  lemma ReadCarrierInverts(c: Carrier, rest: seq<Node>)
    ensures ReadCarrier(CarrierFields(c, rest)) == Some((c, rest))
  {
    var n5 := [Leaf("PrintMark", c.printMark)] + rest;
    var n4 := Optional("CarrierId2", c.carrierId2) + n5;
    var n3 := Optional("CarrierId1", c.carrierId1) + n4;
    var n2 := Optional("CarrierType", c.carrierType) + n3;
    var n1 := [Leaf("DonateMark", c.donateMark)] + n2;
    TakeInverts("PrintMark", c.printMark, rest);
    TakeOptionalInverts("CarrierId2", c.carrierId2, n5);
    assert "CarrierId1"[9] != "CarrierId2"[9];
    TakeOptionalInverts("CarrierId1", c.carrierId1, n4);
    TakeOptionalInverts("CarrierType", c.carrierType, n3);
    TakeInverts("DonateMark", c.donateMark, n2);
    TakeOptionalInverts("GroupMark", c.groupMark, n1);
    hide Take, TakeOptional, Optional, Leaf, Lead;
  }

  lemma ReadReceiverInverts(r: Receiver, rest: seq<Node>)
    requires Lead(rest) !in {"NPOBAN", "RandomNumber", "BondedAreaConfirm"}
    ensures ReadReceiver(ReceiverFields(r, rest)) == (r, rest)
  {
    var n2 := Optional("BondedAreaConfirm", r.bondedArea) + rest;
    var n1 := Optional("RandomNumber", r.randomNumber) + n2;
    TakeOptionalInverts("BondedAreaConfirm", r.bondedArea, rest);
    TakeOptionalInverts("RandomNumber", r.randomNumber, n2);
    TakeOptionalInverts("NPOBAN", r.npoBan, n1);
    hide TakeOptional, Optional, Leaf, Lead;
  }

  lemma ReadReserveInverts(r: Reserve, rest: seq<Node>)
    requires Lead(rest) !in {"ZeroTaxRateReason", "Reserved1", "Reserved2"}
    ensures ReadReserve(ReserveFields(r, rest)) == (r, rest)
    ensures Lead(ReserveFields(r, rest)) in {Lead(rest), "ZeroTaxRateReason", "Reserved1", "Reserved2"}
  {
    var n2 := Optional("Reserved2", r.reserved2) + rest;
    var n1 := Optional("Reserved1", r.reserved1) + n2;
    TakeOptionalInverts("Reserved2", r.reserved2, rest);
    assert "Reserved1"[8] != "Reserved2"[8];
    TakeOptionalInverts("Reserved1", r.reserved1, n2);
    TakeOptionalInverts("ZeroTaxRateReason", r.zeroTaxRateReason, n1);
    hide TakeOptional, Optional, Leaf, Lead;
  }

  // ---------------------------------------------------------------- the whole element

  function IssueOf(m: Main): Issue { Issue(m.invoiceNumber, m.invoiceDate, m.invoiceTime, m.seller, m.buyer) }
  function RemarksOf(m: Main): Remarks {
    Remarks(Coded(m.buyerRemark, BuyerRemarkCode), m.mainRemark, Coded(m.customsMark, CustomsMarkCode))
  }
  function RelationOf(m: Main): Relation { Relation(m.category, m.relateNumber, InvoiceTypeCode(m.invoiceType)) }
  function CarrierOf(m: Main): Carrier {
    Carrier(m.groupMark, DonateMarkCode(m.donateMark), m.carrierType, m.carrierId1, m.carrierId2,
            PrintMarkCode(m.printMark))
  }
  function ReceiverOf(m: Main): Receiver {
    Receiver(m.npoBan, m.randomNumber, Coded(m.bondedArea, BondedAreaCode))
  }
  function ReserveOf(m: Main): Reserve {
    Reserve(Coded(m.zeroTaxRateReason, ZeroTaxRateReasonCode), m.reserved1, m.reserved2)
  }

  datatype Parts = Parts(issue: Issue, remarks: Remarks, relation: Relation, carrier: Carrier, receiver: Receiver,
                         reserve: Reserve)

  function PartsOf(m: Main): Parts {
    Parts(IssueOf(m), RemarksOf(m), RelationOf(m), CarrierOf(m), ReceiverOf(m), ReserveOf(m))
  }

  function PartFields(p: Parts): seq<Node> {
    IssueFields(p.issue, RemarksFields(p.remarks, RelationFields(p.relation, CarrierFields(p.carrier,
      ReceiverFields(p.receiver, ReserveFields(p.reserve, []))))))
  }

  function MainNode(m: Main): Node { Element("Main", [], PartFields(PartsOf(m))) }

  function ReadParts(nodes: seq<Node>): (r: Option<Parts>)
    ensures r.Some? ==> nodes == PartFields(r.value)
  {
    var (issue, n1) :- ReadIssue(nodes);
    var (remarks, n2) := ReadRemarks(n1);
    var (relation, n3) :- ReadRelation(n2);
    var (carrier, n4) :- ReadCarrier(n3);
    var (receiver, n5) := ReadReceiver(n4);
    var (reserve, n6) := ReadReserve(n5);
    if n6 != [] then None else Some(Parts(issue, remarks, relation, carrier, receiver, reserve))
  }

  lemma ReadPartsInverts(p: Parts)
    ensures ReadParts(PartFields(p)) == Some(p)
  {
    var n5 := ReserveFields(p.reserve, []);
    var n4 := ReceiverFields(p.receiver, n5);
    var n3 := CarrierFields(p.carrier, n4);
    var n2 := RelationFields(p.relation, n3);
    var n1 := RemarksFields(p.remarks, n2);
    ReadReserveInverts(p.reserve, []);
    assert "ZeroTaxRateReason"[0] != "BondedAreaConfirm"[0];
    ReadReceiverInverts(p.receiver, n5);
    ReadCarrierInverts(p.carrier, n4);
    ReadRelationInverts(p.relation, n3);
    assert "InvoiceType"[0] != "BuyerRemark"[0];
    ReadRemarksInverts(p.remarks, n2);
    ReadIssueInverts(p.issue, n1);
    hide ReadIssue, ReadRemarks, ReadRelation, ReadCarrier, ReadReceiver, ReadReserve;
    hide IssueFields, RemarksFields, RelationFields, CarrierFields, ReceiverFields, ReserveFields, Lead;
  }

  /** The typed fields, when every text has its lexical form and every code is known. */
  function Typed(p: Parts): Option<Main> {
    if !IsInvoiceNumber(p.issue.number) || !IsDate(p.issue.date) || !IsTime(p.issue.time) then None
    else
      var buyerRemark :- ReadOptional(p.remarks.buyerRemark, ReadBuyerRemark);
      var customsMark :- ReadOptional(p.remarks.customsMark, ReadCustomsMark);
      var invoiceType :- ReadInvoiceType(p.relation.invoiceType);
      var donateMark :- ReadDonateMark(p.carrier.donateMark);
      var printMark :- ReadPrintMark(p.carrier.printMark);
      var bondedArea :- ReadOptional(p.receiver.bondedArea, ReadBondedArea);
      var reason :- ReadOptional(p.reserve.zeroTaxRateReason, ReadZeroTaxRateReason);
      var npoBan :- ReadOptional(p.receiver.npoBan, ReadBan);
      Some(Main(p.issue.number, p.issue.date, p.issue.time, p.issue.seller, p.issue.buyer,
                buyerRemark, p.remarks.mainRemark, customsMark, p.relation.category, p.relation.relateNumber,
                invoiceType, p.carrier.groupMark, donateMark, p.carrier.carrierType, p.carrier.carrierId1,
                p.carrier.carrierId2, printMark, npoBan, p.receiver.randomNumber, bondedArea, reason,
                p.reserve.reserved1, p.reserve.reserved2))
  }

  lemma CodesExact(p: Parts, m: Main)
    ensures ReadOptional(p.remarks.buyerRemark, ReadBuyerRemark) == Some(m.buyerRemark) <==>
            p.remarks.buyerRemark == Coded(m.buyerRemark, BuyerRemarkCode)
    ensures ReadOptional(p.remarks.customsMark, ReadCustomsMark) == Some(m.customsMark) <==>
            p.remarks.customsMark == Coded(m.customsMark, CustomsMarkCode)
    ensures ReadOptional(p.receiver.bondedArea, ReadBondedArea) == Some(m.bondedArea) <==>
            p.receiver.bondedArea == Coded(m.bondedArea, BondedAreaCode)
    ensures ReadOptional(p.reserve.zeroTaxRateReason, ReadZeroTaxRateReason) == Some(m.zeroTaxRateReason) <==>
            p.reserve.zeroTaxRateReason == Coded(m.zeroTaxRateReason, ZeroTaxRateReasonCode)
    ensures ReadOptional(p.receiver.npoBan, ReadBan) == Some(m.npoBan) <==> p.receiver.npoBan == m.npoBan
  {
    ReadOptionalExact(p.remarks.buyerRemark, m.buyerRemark, ReadBuyerRemark, BuyerRemarkCode);
    ReadOptionalExact(p.remarks.customsMark, m.customsMark, ReadCustomsMark, CustomsMarkCode);
    ReadOptionalExact(p.receiver.bondedArea, m.bondedArea, ReadBondedArea, BondedAreaCode);
    ReadOptionalExact(p.reserve.zeroTaxRateReason, m.zeroTaxRateReason, ReadZeroTaxRateReason, ZeroTaxRateReasonCode);
  }

  /** The texts determine the typed fields, and the other way round. */
  lemma TypedExact(p: Parts, m: Main)
    ensures Typed(p) == Some(m) <==> p == PartsOf(m)
  {
    CodesExact(p, m);
    hide Coded, ReadOptional, IsInvoiceNumber, IsDate, IsTime, IsBan, ReadBan;
    hide ReadInvoiceType, ReadDonateMark, ReadPrintMark, InvoiceTypeCode, DonateMarkCode, PrintMarkCode;
  }

  function ReadMain(node: Node): Option<Main> {
    if !node.Element? || node.name != "Main" || node.attributes != [] then None
    else
      var parts :- ReadParts(node.children);
      Typed(parts)
  }

  /** A tree reads as `m` exactly when it is the tree of `m`. */
  lemma ReadMainExact(node: Node, m: Main)
    ensures ReadMain(node) == Some(m) <==> node == MainNode(m)
  {
    ReadPartsInverts(PartsOf(m));
    TypedExact(PartsOf(m), m);
    if ReadMain(node) == Some(m) {
      TypedExact(ReadParts(node.children).value, m);
    }
    hide ReadParts, PartFields, Typed, PartsOf;
  }
}
