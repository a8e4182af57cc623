# Taiwan e-invoice Turnkey pipeline: verification model

This project models the outbound and inbound pipelines of the e-invoice client and proves
what they promise.

- **Receive.** `receive` runs create, download, fsync, size check, hard link, directory fsync
  and remote delete. `ReceiveProtocol` is the transition system of any number of processes that
  share an inbox, with crashes and losses of power at every step; `Receiver` and
  `Reconciliation` are the imperative code, whose effects are shown to be runs of that system.
- **Printers and their decoders.** F0401 XML (`F0401*`, `Xml*`, `Primitives`), the invoice
  envelope (`LineEnds`, `Envelope*`), BER-encoded CMS (`Ber`, `SignedData*`), Base64 armor
  (`Base64`, `Armor`). Each printer pushes to a buffer as the source does, is proved equal to a
  specification function, and has a decoder written from its standard (XML 1.0 sections 2.4, 3.1
  and 4.6; X.690 sections 8.1 and 8.3; RFC 5652 sections 3, 5.1, 5.2 and 5.3; RFC 4648 section 4;
  RFC 3629 section 3). `TextRewriting`, `F0401Text` and `NormalizedInvoices` say how the text
  fields of an invoice pass through its XML, `ConformingXml` what a conforming XML processor makes
  of it, and `InvoiceLines` what the line profile of the envelope does to it; `SampleInvoice` is the
  document of their failing inputs. `F0401Elements` and `EnvelopeXml` spell out the elements both
  documents read as, and `F0401Faults` what every validation issue says of an invoice. `Pack` composes
  all of them from invoices to upload bytes and back.
- **Reconciliation state.** `Results`, `SubmissionState`, `SubmissionAnswers`,
  `ReconciliationOrder`, `SubmissionStore`: consistency of summaries with wrapping 32-bit addition,
  the mutable record and what each call answers, independence of delivery order, workers over a
  compare-and-swap store, and both together in `SubmissionDelivery`.
- **Submission.** `Filename`, `TurnkeyFilename`, `Transport`, `Client`: what the plan check
  establishes for the later layers, and the trace of network effects.

Text is a sequence of Unicode scalar values and meets octets through UTF-8 (`Utf8`); filenames are
octets. Failures of the network, the filesystem, the signer and the archiver are inputs of the
methods (`Environment`, `Network`, a signing function, an archiving function).

## Findings

Some promises hold only under a condition; each is stated as an equivalence.

- A remote object whose name is a temporary name of the receiver can be lost: `validate_remote_name`
  lets such a name through, the object's file is compared with itself, and dropping the temporary
  file removes the only copy (`TempNamedObjectCanBeLost`). Conservation holds exactly when no
  non-empty object has or may get such a name (`SafeExactlyWithoutTempObjects`, for sizes that cannot be mistaken).
- The size check compares the download with the size the listing tells. If that size is positive and
  smaller than the object, a truncated download passes and the object is deleted
  (`TruncatedObjectCanBeLost`). Conservation holds exactly when, besides, no listing may tell such a
  size (`SafeExactlyWithPlausibleSizes`); larger sizes and zero are harmless.
- The comment on `receive` says that a retry recognises the durable local copy. The branch for an
  existing file deletes the remote object without synchronising the directory, so the local copy
  survives a loss of power exactly when its entry was synchronised before
  (`DeletionSurvivesExactlyWhenSynced`, `PowerSurvivedExactlyWhenSynced` over runs, and a losing run
  in `ReacknowledgedObjectCanBeLost`). Against process crashes the claim holds without condition.
- A carriage return inside an invoice text field becomes a line feed in the envelope, and CR LF one
  line feed. An upload always decodes to the invoices with their line ends normalised in this way, so
  to the original invoices exactly when no text field holds a carriage return
  (`UploadDecodesExactly`); a seller named `A<CR>B`, which validation passes, comes back as another
  seller (`SplitInvoiceIsLost`). Line feeds survive.
- Characters outside the Char production of XML 1.0 are printed as they are. A conforming processor
  refuses the XML exactly when a text field holds one (`ConformingReads`), and validation does not
  catch it: a seller named U+0001 passes both layers (`ControlCharacterIsRefused`).
- The order of delivery decides the terminal summary exactly when two acceptable summaries disagree
  (`TerminalDeterminedExactly`), and two such summaries exist for every submission of one invoice
  (`DisagreeingSummaries`). Transport and diagnostics never depend on the order. The same holds of
  any number of workers over the store (`DeliveryDeterminedExactly`, `SameEventsSameRow`).

## Model

| member | source | states |
|---|---|---|
| ReceiveTheorems.NothingIsLost | crates/einvoice-transport/src/receiver.rs:187-249 | after every interleaving of receivers, crashes and retries, downloads that go on after another receiver deleted the object included, each object ever visible, unless a call was begun for it with an implausible size, is still remote or stored under its own name with the same bytes |
| ReceiveTheorems.RunKeepsInv | crates/einvoice-transport/src/receiver.rs:187-249 | the protocol invariant and conservation survive every run of any number of receivers |
| ReceiveSafety.StepKeepsInv | crates/einvoice-transport/src/receiver.rs:187-249 | every single step keeps the invariant: each call's file, names and durability facts, exclusive temporary names, a sole writer for a growing file |
| ReceiveTheorems.RemovedOnlyWhenStored | crates/einvoice-transport/src/receiver.rs:241-246 | a remote object disappears only in a delete step, and then, unless its size was doubtful, an identical copy is published locally |
| ReceiveTheorems.StepKeepsPublished | crates/einvoice-transport/src/receiver.rs:270-275 | no step renames, removes, overwrites or alters a published file |
| ReceiveTheorems.PublishedForever | crates/einvoice-transport/src/receiver.rs:270-275 | a published file stays the same file with the same contents after every run |
| ReceiveProtocol.RefusedNames | crates/einvoice-transport/src/receiver.rs:252-268 | refused are the empty name, one or two dots, and exactly the names with a slash or a backslash |
| ReceiveLimits.TempNameIsValid | crates/einvoice-transport/src/receiver.rs:252-268 | the name check accepts every temporary name, of any 32-bit process id and 64-bit counter |
| ReceiveLimits.TempNamedObjectCanBeLost | crates/einvoice-transport/src/receiver.rs:318-329 | for every non-empty object with a name some process can draw there is a run without loss of power that loses it |
| ReceiveLimits.SafeExactlyWithoutTempObjects | crates/einvoice-transport/src/receiver.rs:187-249 | with sizes that cannot be mistaken, no run loses an object if and only if no non-empty object has a temporary name, whether present at the start or arriving later |
| ReceiveLimits.TruncatedObjectCanBeLost | crates/einvoice-transport/src/receiver.rs:204-217 | for every object listed with a positive size below its true size there is a run without loss of power that stores a truncated copy and deletes the object |
| ReceiveLimits.SafeExactlyWithPlausibleSizes | crates/einvoice-transport/src/receiver.rs:204-217 | under any policy of arrivals and listings that admits true sizes, with names not yet taken locally: no run loses an object if and only if no non-empty object has or may get a temporary name and no listing may tell a positive size below the true one |
| ReceiveDurability.GuardedRunKeepsDurable | crates/einvoice-transport/src/receiver.rs:219-225 | with deletions only after a synchronised directory entry, durable storage survives runs with losses of power at any step |
| ReceiveDurability.NothingIsLostToPower | crates/einvoice-transport/src/receiver.rs:219-225 | such runs lose no object |
| ReceiveDurability.PersistedDeletionIsGuarded | crates/einvoice-transport/src/receiver.rs:220-225 | the deletion after a fresh publication is guarded by the directory fsync |
| ReceiveDurability.DeletionSurvivesExactlyWhenSynced | crates/einvoice-transport/src/receiver.rs:226-246 | after a deletion the local copy stays the same file through every loss of power if and only if its directory entry was on disk before |
| ReceiveDurability.PowerSurvivedExactlyWhenGuarded | crates/einvoice-transport/src/receiver.rs:219-246 | over runs: every continuation by a loss of power, after every beginning of a run, keeps each undoubted object if and only if at every deletion of one its entry is on disk |
| ReceiveDurability.PowerSurvivedExactlyWhenSynced | crates/einvoice-transport/src/receiver.rs:219-246 | the same told by the steps: if and only if between the link of a name and the deletion of its object some call synchronises the directory, unless the entry was there from the start or has survived a loss of power |
| ReceiveDurability.ReacknowledgedObjectCanBeLost | crates/einvoice-transport/src/receiver.rs:226-237 | a run through the branch for an existing file and a loss of power loses the object |
| Files.FilesEqual | crates/einvoice-transport/src/receiver.rs:277-300 | equality is never reported of different files under any short reads, and is exact when reads fill the buffer; the loop ends |
| Receiver.DurableReceiver.DrawName | crates/einvoice-transport/src/receiver.rs:319-329 | the name loop goes round the 64-bit counter and ends whenever some name of the process is free, with such a name |
| Receiver.RoomIsFree | crates/einvoice-transport/src/receiver.rs:319-329 | a directory with fewer than 2^64 entries has a free name for every process |
| Receiver.DurableReceiver.Publish | crates/einvoice-transport/src/receiver.rs:219-239 | publishing takes the name or compares with the file that has it; the answer to every failure of the link, the directory fsync and the comparison |
| Receiver.DurableReceiver.Receive | crates/einvoice-transport/src/receiver.rs:187-249 | for an object listed with any size: each error and each success exactly under the failures, the bytes that arrived and the local file that call for it (`AnswersCall`), but that short reads can make an identical file look different; success leaves the object stored and gone remotely, any error but a failed deletion leaves the remote side untouched, a failed deletion leaves the copy, no other object is touched; the effects are a run of the protocol, and the object becomes doubtful only if a truncated download can have the size |
| Reconciliation.ReconciliationPoller.PollObject | crates/einvoice-transport/src/reconciliation.rs:223-239 | the attempt is the one the answer of the receiver calls for, and after a success the one the parser calls for on the stored bytes, for any listed size; a parse error leaves the object stored; nothing else is touched |
| Reconciliation.ReconciliationPoller.PollOnce | crates/einvoice-transport/src/reconciliation.rs:219-243 | one attempt per listed object in listing order whatever fails, each the one called for between two successive worlds from the first to the last; every listed object is remote or stored unless it is doubtful, stored if its attempt crossed the boundary; only implausible sizes raise doubt; every visible non-empty object listed with its true size, without faults of its own and without another file in its place, ends stored, gone from the remote, and reported with its outcome and what the parser makes of it |
| Primitives.ParseAccepts | crates/einvoice-mig/src/primitives.rs:137-174 | every decimal within the facets is accepted unchanged |
| Primitives.ParsedDecimal | crates/einvoice-mig/src/primitives.rs:137-174 | an accepted text denotes N / 10^k with k and the size of N bounded by the facets, and a non-negative one when asked |
| Primitives.DecimalRefusals | crates/einvoice-mig/src/primitives.rs:137-174 | refused for the sign exactly when a minus sign may not be there, for its form exactly when it is the text of no decimal, for its precision exactly when that decimal has too many digits, in this order |
| Primitives.CalendarExactly | crates/einvoice-mig/src/primitives.rs:63-85 | a date is accepted exactly when its month has that many days in that year |
| F0401Document.NewInvoice | crates/einvoice-mig/src/f0401.rs:139-158 | construction succeeds exactly for 1 to 9,999 items |
| XmlTree.ParseElementInverts | crates/einvoice-mig/src/f0401.rs:701-746 | parsing a printed well-formed element yields the element and leaves what follows |
| Xml.UnescapeInverts | crates/einvoice-mig/src/f0401.rs:735-746 | reading the five predefined entities inverts the escaping |
| XmlWriter.PushEscaped | crates/einvoice-mig/src/f0401.rs:735-746 | the character loop appends the escaped text |
| F0401Printer.PushOptional | crates/einvoice-mig/src/f0401.rs:719-723 | an absent value appends nothing, an empty one an empty element |
| F0401Printer.PushRole | crates/einvoice-mig/src/f0401.rs:701-717 | appends the element of a party with its optional children in order |
| F0401Printer.PushMain | crates/einvoice-mig/src/f0401.rs:492-528 | appends the printed Main element |
| F0401Printer.PushDetails | crates/einvoice-mig/src/f0401.rs:530-546 | the item loop appends the printed Details element |
| F0401Printer.PushAmount | crates/einvoice-mig/src/f0401.rs:548-578 | appends the printed Amount element |
| F0401Printer.ToXml | crates/einvoice-mig/src/f0401.rs:298-308 | the document printed is that of the element tree of the invoice |
| F0401MainTree.ReadMainExact | crates/einvoice-mig/src/f0401.rs:492-528 | a tree reads as a Main if and only if it is the tree of that Main |
| F0401InvoiceTree.ReadInvoiceExact | crates/einvoice-mig/src/f0401.rs:298-308 | a tree reads as an invoice if and only if it is the tree of that invoice |
| F0401Xml.ParseInvoiceInverts | crates/einvoice-mig/src/f0401.rs:298-308 | parsing the XML recovers every field, every absence, empty strings and all items, whatever follows |
| F0401Elements.DocumentReads | crates/einvoice-mig/src/f0401.rs:492-578 | the text reads as one Invoice element of the F0401 namespace whose Main, party, ProductItem and Amount elements are the listed ones in the listed order, each with the field or code of its name |
| F0401Xml.XmlTextInjective | crates/einvoice-mig/src/f0401.rs:298-308 | two invoices have the same XML if and only if they are equal |
| F0401Xml.InvoiceWellFormed | crates/einvoice-mig/src/f0401.rs:492-578 | the printed tree has names, nesting and content of well-formed XML; the characters of text fields are the subject of ConformingXml.ConformingReads |
| F0401Text.XmlMapped | crates/einvoice-mig/src/f0401.rs:492-578 | a rewrite of the XML text that leaves printable ASCII alone and commutes with escaping has the effect of rewriting the text fields, and no other |
| F0401Text.XmlClearExactly | crates/einvoice-mig/src/f0401.rs:492-578 | the XML holds a character of a class outside printable ASCII if and only if a text field does |
| ConformingXml.ConformingReads | crates/einvoice-mig/src/f0401.rs:298-308 | it refuses the XML exactly when a text field holds a character outside the Char production, and otherwise reads the invoice with its line ends normalised |
| SampleInvoice.NamedIsValid | crates/einvoice-mig/src/f0401.rs:290-294 | validation passes an invoice with any seller name of 1 to 60 characters |
| ConformingXml.ControlCharacterIsRefused | crates/einvoice-mig/src/f0401.rs:735-746 | an invoice that passes both layers of validation, whose seller is named U+0001, is refused by a conforming XML processor |
| ConformingXml.ConformingReadsExactly | crates/einvoice-mig/src/f0401.rs:298-308 | a conforming XML processor reads the invoice back unchanged if and only if every text field consists of XML characters other than carriage returns |
| F0401Validation.ValidateSchemaConstraints | crates/einvoice-mig/src/f0401.rs:167-173 | every schema rule is checked once, in order |
| F0401Validation.ValidateSemantics | crates/einvoice-mig/src/f0401.rs:178-286 | every usage-note rule is checked once, in order |
| F0401Validation.Validate | crates/einvoice-mig/src/f0401.rs:290-294 | the report lists exactly the broken rules in order, and is empty if and only if the documented conditions hold |
| F0401Validation.BrokenExactly | crates/einvoice-mig/src/f0401.rs:693-699 | an issue is reported if and only if a rule that carries it is broken |
| F0401Validation.SchemaRulesExact | crates/einvoice-mig/src/f0401.rs:311-490 | the schema rules all hold if and only if lengths, patterns and numbers meet the documented limits |
| F0401Validation.SemanticRulesExact | crates/einvoice-mig/src/f0401.rs:178-286 | the usage-note rules all hold if and only if the conjunction of the documented conditions does |
| F0401Faults.ReportedExactly | crates/einvoice-mig/src/f0401.rs:167-490 | the report holds an issue if and only if what that path and code say is true of the invoice, and the issues stand in checking order |
| F0401Validation.DecimalRuleExact | crates/einvoice-mig/src/f0401.rs:637-653 | the decimal check passes if and only if the text is a number within the digit limits |
| F0401Validation.FittingValue | crates/einvoice-mig/src/f0401.rs:637-653 | a number within the limits is N / 10^k with bounded N and k |
| F0401Validation.ContiguousNumbers | crates/einvoice-mig/src/f0401.rs:266-283 | contiguous sequence numbers are pairwise distinct and always meet the four-character facet |
| F0401Validation.TenThousandthNumberIsTooLong | crates/einvoice-mig/src/f0401.rs:132-132 | without the item limit that facet would break |
| LineEnds.AppendLikeJavaReadLine | crates/einvoice-envelope/src/wire.rs:149-162 | the two replacements and the line loop append the normalised text |
| LineEnds.AppendedLikeJava | crates/einvoice-envelope/src/wire.rs:149-162 | it equals a one-pass reading of lines printed one by one, if and only if the input is not empty |
| LineEnds.AppendedIdempotent | crates/einvoice-envelope/src/wire.rs:149-162 | normalising twice changes nothing more |
| LineEnds.AppendedShape | crates/einvoice-envelope/src/wire.rs:149-162 | no carriage return remains and the text ends with a line feed |
| Envelope.NewEnvelope | crates/einvoice-envelope/src/lib.rs:93-110 | construction succeeds exactly for 1 to 1,000 payloads |
| XmlWriter.PushTextEscaped | crates/einvoice-envelope/src/wire.rs:164-173 | the character loop appends the text with three characters escaped |
| EnvelopeWire.PushPrincipal | crates/einvoice-envelope/src/wire.rs:117-147 | appends a party or routing entry with its optional description |
| EnvelopeWire.PushPayloads | crates/einvoice-envelope/src/wire.rs:97-104 | appends the concatenation of the normalised payloads, or reports the lowest payload that cannot be embedded |
| EnvelopeWire.ToTurnkeyXml | crates/einvoice-envelope/src/wire.rs:61-108 | fails if and only if some payload cannot be embedded, with the lowest index; otherwise the bytes are the envelope text |
| Envelope.OffenceExactly | crates/einvoice-envelope/src/wire.rs:97-103 | a payload is refused exactly when its octets encode no text, or a text that begins an XML declaration after white space |
| EnvelopeXml.EnvelopeReads | crates/einvoice-envelope/src/wire.rs:61-147 | whenever the middle reads as content, the text is one well-nested InvoiceEnvelope element with its three attributes, the four entries with their identifiers and descriptions, and the pack with count, message type and version, by the element parser of XML 1.0 |
| EnvelopeXml.InvoiceEnvelopeReads | crates/einvoice-envelope/src/wire.rs:61-147 | the envelope of a list of invoices reads as that element with the elements of the invoices, line ends normalised, in its pack |
| Envelope.ParseEnvelopeInverts | crates/einvoice-envelope/src/wire.rs:61-108 | the text determines routing (no description and an empty one apart), message type, count and the middle section |
| Ber.WriteLength | crates/einvoice-signing/src/ber.rs:187-201 | appends the short or long form of a length |
| Ber.EncodedLengthSizeExact | crates/einvoice-signing/src/ber.rs:174-185 | the reserved size of a length is the size written |
| Ber.LengthInverts | crates/einvoice-signing/src/ber.rs:187-201 | a length is read back and never starts with the octet of the indefinite form |
| Ber.EncodeConstructed | crates/einvoice-signing/src/ber.rs:157-172 | the elements are appended and wrapped in one definite element |
| Ber.PositiveInteger | crates/einvoice-signing/src/ber.rs:123-139 | writes the contents octets of a non-negative integer |
| Ber.IntegerBodyExact | crates/einvoice-signing/src/ber.rs:123-139 | their value in two's complement is the magnitude, in the shortest form |
| Ber.ConstructedReads | crates/einvoice-signing/src/ber.rs:157-172 | a definite container of complete elements reads as the tree of these elements, whatever follows |
| Ber.IndefiniteReads | crates/einvoice-signing/src/ber.rs:111-117 | an opened and closed container reads as the tree of its elements, whatever follows |
| Ber.RawIsConsumed | crates/einvoice-signing/src/ber.rs:46-109 | an element keeps the octets it was read from |
| Ber.ElementIsWhole | crates/einvoice-signing/src/ber.rs:46-109 | the octets kept of an element that was read, and of every element inside it, are one complete element each |
| SignedData.EncodeTurnkeySignedData | crates/einvoice-signing/src/ber.rs:46-109 | the in-place encoder opens and closes its containers into the nested structure |
| SignedDataReader.DecodeInverts | crates/einvoice-signing/src/ber.rs:46-109 | the encoding of a certificate and an issuer that are one element each is one element with no octet left over, and reads as SignedData with content, certificate, issuer, serial value, algorithms and signature intact |
| SignedDataReader.DecodesExactly | crates/einvoice-signing/src/ber.rs:46-109 | reading the encoding gives back all parts if and only if certificate and issuer are one element each |
| SignedDataReader.EncodedInjective | crates/einvoice-signing/src/ber.rs:46-109 | equal encodings have equal parts, serial numbers by value |
| SignedDataReader.LayoutReads | crates/einvoice-signing/src/ber.rs:46-109 | the encoding reads as containers of indefinite length down to the wrappers of content and certificate, with algorithms and signer of definite length |
| SignedDataReader.RsadsiIdentifiers | crates/einvoice-signing/src/ber.rs:6-24 | the octets of the identifiers denote the arcs of signed data, data and SHA-256 with RSA |
| SignedDataReader.AlgorithmIdentifiers | crates/einvoice-signing/src/ber.rs:21-51 | each signature algorithm is announced by the identifier with its arcs |
| SignedDataReader.Sha256Identifier | crates/einvoice-signing/src/ber.rs:16-19 | the digest identifier denotes the arcs of SHA-256 |
| Base64.DecodeExact | crates/einvoice-signing/src/lib.rs:124-124 | the decoder accepts a text for some bytes if and only if it is their encoding |
| Base64.Alphabet | crates/einvoice-signing/src/lib.rs:124-124 | the digits are those of the standard alphabet |
| Armor.ToTurnkeyArmored | crates/einvoice-signing/src/lib.rs:121-140 | the character loop writes the encoding in lines |
| Armor.DearmorInverts | crates/einvoice-signing/src/lib.rs:121-140 | dropping line feeds and decoding returns the bytes |
| Armor.ArmoredShape | crates/einvoice-signing/src/lib.rs:121-140 | every line but the last has 64 characters, the last 4 to 64 and a multiple of 4; the text ends with a line feed and has the reserved length |
| Pack.PackAndSign | crates/einvoice-pack/src/lib.rs:64-81 | fails exactly on a refused payload or a failing signer; otherwise the artifact is the armored encoding of the signed envelope, and with a certificate and an issuer of one element each it reads as the serialised envelope with the certificate, issuer, serial number and algorithm of the signer and the signature made of exactly these bytes (`Attested`) |
| Pack.InvoicesAlwaysPack | crates/einvoice-pack/src/lib.rs:64-81 | the XML of an invoice is always a payload, 1 to 1,000 of them always give an envelope, and it is never refused |
| Pack.InvoicesSerialize | crates/einvoice-pack/src/lib.rs:64-81 | what is signed for a list of invoices is the envelope text of their XML |
| Pack.UploadDecodesExactly | crates/einvoice-pack/src/lib.rs:64-81 | decoding the upload returns routing, message type, the invoices with their line ends normalised, and content, certificate, issuer, serial number, algorithm and signature, if and only if certificate and issuer are one element each; it returns the original invoices if and only if, besides, no text field holds a carriage return |
| NormalizedInvoices.XmlNormalized | crates/einvoice-envelope/src/wire.rs:149-162 | normalising the line ends of the XML is normalising them in each text field |
| InvoiceLines.MiddleReads | crates/einvoice-envelope/src/wire.rs:97-162 | the middle section reads as the invoices with their line ends normalised, whatever their text |
| InvoiceLines.MiddleReadsExactly | crates/einvoice-envelope/src/wire.rs:97-104 | the middle section reads as the invoices if and only if no text field holds a carriage return |
| InvoiceLines.XmlCarriageReturn | crates/einvoice-mig/src/f0401.rs:298-308 | the XML of an invoice holds a carriage return if and only if a text field does |
| InvoiceLines.SplitInvoiceIsLost | crates/einvoice-envelope/src/wire.rs:149-162 | an invoice that passes both layers of validation, whose seller is named with a carriage return, comes back with another name |
| Pack.UploadSize | crates/einvoice-pack/src/lib.rs:30-32 | the reported size is the number of characters of the armor |
| Results.ValidationIssues | crates/einvoice-results/src/lib.rs:118-162 | the loop and the two comparisons report the issues in order |
| Results.IssuesExactly | crates/einvoice-results/src/lib.rs:118-162 | an issue is reported if and only if what it claims of the summary is true; buckets first, then the sum, then the quantity |
| Results.ConsistentExactly | crates/einvoice-results/src/lib.rs:118-169 | with wrapping addition the checks accept exactly the summaries whose integers add up, meet the quantity and match their lists |
| Results.TotalAcceptedExactly | crates/einvoice-results/src/lib.rs:144-150 | the comparison of totals passes if and only if good and failed add up to total modulo 2^32 |
| Results.WrappedSumIsNegative | crates/einvoice-results/src/lib.rs:120-150 | whenever the sum wraps into a total it does not equal, a negative count is reported: of the total if the sum overflowed, of both parts if it underflowed |
| Results.WrappedTotalIsAccepted | crates/einvoice-results/src/lib.rs:144-150 | one summary whose sum wraps into its total: the comparison accepts it, the checks together refuse it |
| SubmissionState.ConsistentIsConvertible | crates/einvoice-state/src/lib.rs:56-62 | the three conversions of an accepted summary cannot fail |
| SubmissionState.NewSubmission | crates/einvoice-state/src/lib.rs:105-124 | creation succeeds exactly for a non-empty ID and a positive quantity |
| SubmissionState.SubmissionRecord.AdvanceTransport | crates/einvoice-state/src/lib.rs:152-165 | changes the state only upwards, with the answers of SubmissionAnswers.AdvanceAnswers |
| SubmissionState.SubmissionRecord.ApplyProcessResult | crates/einvoice-state/src/lib.rs:174-187 | records a new diagnostic once, or refuses another ID, with the answers of SubmissionAnswers.ProcessAnswers |
| SubmissionState.SubmissionRecord.ApplySummaryMessage | crates/einvoice-state/src/lib.rs:229-259 | records the terminal once, recognises a replay, refuses a conflict, with the answers of SubmissionAnswers.MessageAnswers |
| SubmissionState.SubmissionRecord.ApplySummaryResult | crates/einvoice-state/src/lib.rs:194-222 | applies the only entry with this ID, refuses none or several, with the answers of SubmissionAnswers.SummaryAnswers |
| SubmissionAnswers.AdvanceAnswers | crates/einvoice-state/src/lib.rs:152-165 | advanced, unchanged or stale, with both states, exactly as the target comes after, is or comes before the current state in declaration order |
| SubmissionAnswers.ProcessAnswers | crates/einvoice-state/src/lib.rs:174-187 | another ID, a replay and a new diagnostic are answered exactly when they occur, and only the last changes the record |
| SubmissionAnswers.MessageAnswers | crates/einvoice-state/src/lib.rs:229-259 | for every record and message: refused exactly for another ID, then exactly for an inconsistency with its true claims; recorded exactly when no terminal is set; a replay exactly when the set terminal stands for this message; otherwise a conflict with both summaries |
| SubmissionAnswers.SummaryAnswers | crates/einvoice-state/src/lib.rs:194-222 | missing exactly when no entry has the ID, duplicate with their number exactly when several have; the only one is answered as a message |
| SubmissionAnswers.AcknowledgedForever | crates/einvoice-state/src/lib.rs:229-259 | after a run, the terminal stands for every message that was answered with success in it |
| SubmissionAnswers.NoContradictionAcknowledged | crates/einvoice-state/src/lib.rs:229-259 | two different messages are never both answered with success in one run |
| SubmissionState.StepKeepsInv | crates/einvoice-state/src/lib.rs:151-259 | every call keeps distinct diagnostics, the transport they imply and a sound terminal; only adds; and changes nothing when it fails |
| SubmissionState.RunKeepsInv | crates/einvoice-state/src/lib.rs:151-259 | over every run transport never falls, the terminal is written once, diagnostics only grow |
| ReconciliationOrder.FinalTransport | crates/einvoice-state/src/lib.rs:152-165 | the transport reached is the highest any event vouches for |
| ReconciliationOrder.OrderInsensitive | crates/einvoice-state/src/lib.rs:151-259 | any order and duplication of the same events gives the same transport, the same diagnostics and, if summaries agree, the same terminal |
| ReconciliationOrder.TerminalDeterminedExactly | crates/einvoice-state/src/lib.rs:229-259 | the terminal is independent of order and duplication, and of order alone, if and only if one is set or all acceptable summaries agree |
| ReconciliationOrder.DisagreeingSummaries | crates/einvoice-state/src/lib.rs:229-259 | for every submission of one invoice two acceptable summaries disagree, and swapping them changes the terminal |
| SubmissionStore.MemoryStore.CompareAndSwap | crates/einvoice-state/src/lib.rs:607-628 | writes and increments only at the expected revision |
| SubmissionStore.SwapAnswers | crates/einvoice-state/src/lib.rs:607-628 | creation and update are stored exactly when expectation and row agree, with the next revision; every other case is a conflict with the current revision and changes nothing |
| SubmissionStore.UpdateAppliesToCurrent | crates/einvoice-state/src/lib.rs:346-382 | a stored write is one event applied to the row as it is, one revision later; a stale one changes nothing |
| SubmissionStore.Process | crates/einvoice-state/src/lib.rs:346-382 | applying an event to what was loaded and swapping is the action of the system; it is stored if and only if the loaded revision is still current, and conflicts with the current one otherwise |
| SubmissionStore.LoadAndProcess | crates/einvoice-state/src/lib.rs:346-382 | undisturbed, loading, applying one event and swapping stores it at the first attempt, one revision later |
| SubmissionStore.NextKeepsInv | crates/einvoice-state/src/lib.rs:346-382 | whatever the workers do, every row is the sequential run of its stored events |
| SubmissionStore.StoredRowsAreSequential | docs/state-persistence.md:56-64 | from an empty store every row at revision r is r events applied one after the other to a new record |
| SubmissionStore.NoLostUpdate | docs/state-persistence.md:56-64 | between any two points of any interleaving no stored diagnostic disappears, transport does not fall, no terminal is replaced |
| SubmissionDelivery.SameEventsSameRow | docs/state-persistence.md:56-64 | two interleavings of workers that store the same set of events for a submission end with the same transport and diagnostics, and with the same terminal if the summaries agree |
| SubmissionDelivery.DeliveryDeterminedExactly | docs/state-persistence.md:56-64 | every interleaving that stores the same events ends with the same terminal if and only if one is set already or all acceptable summaries agree |
| Filename.CommonAcceptedExactly | crates/einvoice-transport/src/filename.rs:30-55 | accepted exactly: 65 octets with hyphens at the eight offsets and nowhere else |
| Filename.CommonFields | crates/einvoice-transport/src/filename.rs:30-55 | which offsets of an accepted name each field occupies |
| Filename.CommonRefusals | crates/einvoice-transport/src/filename.rs:30-55 | refused for the number of parts, or for the first part of the wrong length, with both lengths |
| Filename.RenderInvertsCommon | crates/einvoice-transport/src/filename.rs:83-88 | rendering a parsed name gives the text back |
| Filename.ParseInvertsCommonExactly | crates/einvoice-transport/src/filename.rs:30-88 | parsing a rendered name gives the name back if and only if its fields have the lengths of the grammar |
| TurnkeyFilename.ParseInvertsPackExactly | crates/einvoice-transport/src/filename.rs:113-149 | parsing a rendered filename gives it back if and only if only its source name holds underscores and its name is valid |
| TurnkeyFilename.ParsedPackSurvives | crates/einvoice-transport/src/filename.rs:113-149 | every parsed filename survives rendering and parsing |
| TurnkeyFilename.RenderInvertsPackExactly | crates/einvoice-transport/src/filename.rs:113-149 | rendering gives the text back if and only if the count was written canonically |
| TurnkeyFilename.RemoteNameFields | crates/einvoice-transport/src/filename.rs:153-155 | the remote name is the common name alone, its five fields joined by hyphens |
| TurnkeyFilename.SectionsAnswered | crates/einvoice-transport/src/filename.rs:113-136 | what a text of five sections is answered, section by section, the first reason first |
| TurnkeyFilename.TooFewSections | crates/einvoice-transport/src/filename.rs:113-136 | any other text is refused as no filename |
| Transport.NativeSubmitter.Submit | crates/einvoice-transport/src/native.rs:150-204 | effects and answer are those the request and the network call for, upload before notification |
| Transport.NativeSubmitter.SubmitPackArtifact | crates/einvoice-transport/src/packed.rs:49-79 | the count is checked before any effect |
| Transport.CountRefusedExactly | crates/einvoice-transport/src/packed.rs:49-66 | a count that is not positive, or differs from the notified quantity, is refused with its numbers before any effect, and no other |
| Transport.PrepareFailsExactly | crates/einvoice-transport/src/package.rs:36-92 | preparing the object fails for the first of an unusable local name, an unusable remote name, more than 20 MiB, or the archiver, and for nothing else |
| Transport.AnsweredExactly | crates/einvoice-transport/src/native.rs:154-203 | with a prepared object, each answer exactly for the upload outcome and gateway reply that call for it; accepted means status code 0 |
| Transport.NotificationFields | crates/einvoice-transport/src/native.rs:168-183 | every field of a notification is that of the metadata, the uploaded name and the source size |
| Transport.GatewayIntegersExactly | crates/einvoice-transport/src/gateway.rs:119-168 | the three numbers are those of the notification if all are below 2^31; otherwise the first that is not is named |
| Client.PrepareSubmission | crates/einvoice-client/src/lib.rs:125-160 | succeeds exactly for a consistent plan whose payloads embed and whose signing succeeds, with metadata that tell sender, receiver, routing entries, service, message, quantity, MIG 4.1, retry 0 and versions of the plan, and an artifact of this signer; an inconsistent plan is refused for its first disagreement; no count is out of range |
| Client.PlanRefusals | crates/einvoice-client/src/lib.rs:174-221 | which disagreement between filename and envelope a plan is refused for, the first in this order |
| Client.PreparedAnswers | crates/einvoice-client/src/lib.rs:97-112 | for a prepared submission the count errors cannot occur, the trace is empty, one upload, or one accepted upload and its notification; each answer is given exactly for the upload outcome and gateway reply that call for it; every notification tells field by field sender, receiver, routing entries, service, message, action, count of the envelope, MIG 4.1, uploaded name, size before compression, retry 0 and versions, and is within int32 |
| Client.Submit | crates/einvoice-client/src/lib.rs:97-112 | the network phase of a prepared submission has such an answer and such a trace |
| Client.UploadStoppedExactly | crates/einvoice-transport/src/package.rs:79-92 | preparing the object fails exactly for a separator or NUL in the names, an oversized artifact or a failing archiver |
| Client.PreparedInvoices | crates/einvoice-client/src/lib.rs:125-160 | the artifact of a plan over F0401 invoices carries them with their line ends normalised, and exactly them if and only if no text field holds a carriage return |
| Client.UploadedInvoices | crates/einvoice-client/src/lib.rs:97-112 | so does the uploaded object, uncompressed or, if the archive can be opened again, as the entry of its archive under the name of the pack |

## Left out

- SFTP, HTTP and TLS clients: the network is an input of the methods, with the outcome of each operation chosen freely.
- Cryptography and PFX: the signature is an arbitrary function of the content; nothing is said about its validity.
- ZIP and Deflate: an arbitrary function of entry name and bytes that may fail; Client.UploadedInvoices supposes of an archived object that some function opens the archive again.
- XML and JSON deserialisation by serde and quick-xml, the `Wire*` conversions, `DurableInboundRecord::load` and `correlation_ids`: parsing a stored object is a parameter of the poller.
- XML conformance of the whole envelope: its elements are those of `EnvelopeXml`; Char production and line ends are treated for the invoice document only.
- ReceiveTheorems.NothingIsLost: assumes that remote bytes do not change while an object is present, that names are not reused, and a process crash; loss of power is treated in ReceiveDurability.
- ReceiveDurability.NothingIsLostToPower: assumes that the inbox directory itself is on disk; `DurableReceiver::new` (receiver.rs:154-158) creates it without synchronising its parent.
- Receiver.DurableReceiver.Receive: one call runs without interference between its effects; interference is treated in ReceiveProtocol, whose steps it takes.
- Revision numbers are unbounded; the source keeps them in 64 bits.
- Receiver.DurableReceiver.DrawName: asks that some temporary name of the process is free, and so do `Receive` and `PollObject`; `PollOnce` asks for fewer than 2^64 directory entries. With all 2^64 names taken the source never returns.
- Issue messages and the spelling of issue paths: an issue is a structured place and a code.
- Pack.UploadDecodesExactly: everything must fit in a 64-bit address space.
- Client.PreparedInvoices: supposes that certificate and issuer are one BER element each, as those of an X.509 certificate are.
- High tag numbers in BER: none occur.
- Display, Debug and Error implementations, redaction, the command line, catalogues and the unused transport types.
