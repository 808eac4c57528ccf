# Simulboot session spine, verified

A Dafny model of the cross-platform core of Simulboot: the session image and its content id, the
v0/v1 Galois connection, the framing and the link protocol between host and compositor, the
surface strip, the broker, and the way a suspended session takes to another device. What the code
updates step by step (writers, event loops, readers, the strip, the control loop) is imperative
Dafny, proved equal to a function of its input; the laws are then proved of those functions.

| Modules | What they model |
|---|---|
| `Wrappers`, `Text`, `Utf8`, `Sorting` | `Option` and `Result`, escaping, trimming, decimal and hexadecimal text, UTF-8, Rust's stable sort |
| `Xml` | a tokenizer for the XML grammar the two writers use, with `trim_text` explicit and end tags matched |
| `Session`, `SessionWriter`, `SessionParse`, `SessionRoundTrip`, `SessionLaws` | the v0 image: printer, parser, canonical form, content id |
| `Nesting`, `ParsedForm`, `Observation`, `Distinction`, `ForeignElements` | matching end tags, what any accepted document yields, which parser states can be told apart, elements of another namespace |
| `Coefficients`, `Galois`, `GaloisXml`, `CoefficientParse`, `GaloisLaws`, `V1RoundTrip`, `V1Canonical` | the v1 image, its order, alpha and gamma, its XML carrier |
| `Wire`, `Messages`, `Host`, `Protocol`, `LateAcks`, `WireLink` | frames, reassembly, the host's control loop, the link as a transition system, suspends that time out or overlap, the link on bytes |
| `CivilDate`, `Timestamp` | the creation timestamp |
| `StripModel`, `StripClass`, `Migration` | the strip as a value, the strip as the object the code mutates, suspend and resume |
| `Http`, `Broker`, `Fetch`, `EndToEnd`, `Relay` | serving an image, fetching it, the way from one device to the next, and whole journeys |

Three things stay parameters of the model, so that every law says what it needs of them. `sha` is
SHA-256 as a function from bytes to 32 bytes; a law that needs two images kept apart has
`NoCollision` of those two images as a hypothesis. `show` and `scan` are float formatting and
parsing; `Prints` asks of one value that it prints without `"` and `&` and scans back to itself
(`SessionLaws.WholePositionsPrint` gives a layer that satisfies it). `Network` and `Exchange` are
what hosts announce and what a peer answers.

## Where the code and its documentation differ

The model follows the code. Each difference is stated as a lemma, with the exact condition under
which the documented law does hold.

- `docs/persistence/galois-connection.md` states the adjunction for every v1 image. The code's
  order makes coefficients with different numbers of delay paths incomparable, and `validate`
  accepts repeated surface ids. The law holds exactly on images with distinct surface ids and one
  delay path a coefficient (`Galois.AdjunctionExact`); `Galois.TwoDelayPathsBreakTheLaw` and
  `Galois.RepeatedIdsPassValidation` are inputs on which it fails.
- The same document has the v0 reader ignore every element of another namespace, with all in it. The
  parser reads on inside, matching local names only. What it keeps of such an element is stated
  exactly: leaving whole elements out at a place changes the outcome of no continuation if and only
  if the parser gets through them to a state alike to the one before (`ForeignElements.ElementsExact`),
  and states are alike exactly when no continuation with matching end tags tells them apart
  (`Distinction.AlikeExact`). For an element of text and unknown tags that means: no text element is
  being read, or its texts can be unescaped and, where the text collected so far counts, the element
  leaves just that text behind its last opening tag (`ForeignElements.UnknownElementExact`). A
  qualified name is safe in elements without text exactly when its local name is none of the
  parser's own (`ForeignElements.NameExact`). Documents whose foreign elements are all read over are
  read as what deleting them leaves (`ForeignElements.ForeignElementsInvisible`). It fails for
  `<c:strip scroll-pos="9"/>`, for a `strip` inside a foreign element
  (`ForeignElements.ForeignStripScrolls`), and for a foreign element with text inside a machine name
  (`ForeignElements.ForeignTextRead`).
- The reader trims a text before it resolves character references, and the writer never writes one.
  So `<machine>&#32;m</machine>` is read as a name with a leading space, written with a plain one, and
  read again without it (`ParsedForm.ReferenceNotKept`). An accepted document survives being written
  again exactly when the texts it gave are without edge whitespace (`ParsedForm.ParsedReserialises`,
  `ParsedForm.ParsedStorable`), as those of a document without numeric references are
  (`ParsedForm.PlainDocumentStorable`).
- The text form loses edge whitespace of address, machine and capture, and sorts the surfaces. The
  content id is computed before that, so a session with such whitespace, or out of order, is served
  but can never be fetched (`EndToEnd.FetchExact`). One host whose machine name starts with a space is
  enough (`Relay.SpacedSessionUnfetchable`), and so is a host appended after restoring an image with
  a gap between its orders (`Relay.GapSessionUnfetchable`).
- `Link::suspend` is documented to resolve when the host's acknowledgement is seen; it resolves on
  any acknowledgement. With calls made one at a time, when the `n`-th call returns true as the `k`-th
  success, its own Suspend has been processed for certain exactly when `k == n`, that is, when no
  earlier call failed (`LateAcks.SuspendGuaranteeExact`); for every `k < n` a late acknowledgement
  can answer it while its Suspend is still queued (`LateAcks.LateAckAnswers`). With calls that overlap
  the same holds without any failure (`LateAcks.OverlapExact`). What `k` successes do guarantee is
  everything up to the `k`-th Suspend (`Protocol.SuspendOrdering`).
- `fetch_image` discards the result of `verify`, so the id a document declares plays no part
  (`Fetch.WrittenBodyChecked`); its own check is enough against substitution
  (`Fetch.FetchedIsNamed`). A URL with a slash at its end is served and never fetched
  (`Fetch.TrailingSlashNeverFetched`).
- `encode_frame` does not check the limit `decode_frame` enforces, so the round trip holds exactly
  for bodies within it; a longer body is refused, and at 4 GiB and more, where its length wraps, it is
  never read back whole (`Wire.FrameRoundTripExact`).

## Model

| member | source | states |
|---|---|---|
| Text.EscapeTextIsOnePass | simulboot-common/src/session.rs:379-381 | the chained replacements equal one pass that escapes each character once: no link touches an entity an earlier link wrote |
| Text.EscapeAttrIsOnePass | simulboot-common/src/session.rs:372-377 | the same for the four links of attribute escaping |
| Text.EscapedHasNoDelimiter | simulboot-common/src/session.rs:372-381 | escaped text holds no `<` or `>`, escaped attribute values no quote, and only empty text escapes to nothing |
| Text.EscapeRoundTrip | simulboot-common/src/session.rs:372-381 | unescaping gives back every string, in text and in attributes |
| Text.TrimEscape | simulboot-common/src/session.rs:394 | trimming commutes with escaping, so `trim_text` removes exactly the edge whitespace of the text itself |
| Text.HexRoundTrip | simulboot-common/src/session.rs:340-358 | hexadecimal reading inverts writing; two digits a byte, none of them markup |
| Text.DecRoundTrip | simulboot-common/src/session.rs:606-611 | decimal text within the type's limit reads back as its number |
| Sorting.StableSortSound | simulboot-common/src/session.rs:466 | the sort by order is sorted, a permutation, and keeps equal keys in their original order |
| Sorting.SortFixedPoint | simulboot-common/src/session.rs:466 | a list is left alone exactly when it is already in order |
| Utf8.RoundTrip | simulboot-client/src/session/mod.rs:47 | strict reading gives back every text from its own bytes |
| Utf8.EncodeInjective | simulboot-common/src/session.rs:156-158 | texts have the same bytes exactly when they are the same text |
| Utf8.LossyPrefix | simulboot-broker/src/lib.rs:136 | lossy reading keeps a text intact whatever bytes follow it |
| Utf8.LossyAgrees | simulboot-client/src/session/mod.rs:135 | lossy reading is strict reading where that succeeds, and shows a replacement character where it fails |
| Xml.LexLines | simulboot-common/src/session.rs:187-247 | the tokens read from written lines are the tokens written, with or without indentation and whatever follows |
| Session.SurfaceIdRoundTrip | simulboot-common/src/session.rs:340-358 | `parse_surface_id` inverts `surface_id_to_str`, and the text needs no escaping |
| SessionWriter.WriteTextEl | simulboot-common/src/session.rs:291-303 | appends exactly the line of the text element, escaped and indented |
| SessionWriter.WriteHost | simulboot-common/src/session.rs:263-273 | appends exactly the lines of the host block |
| SessionWriter.WriteSurface | simulboot-common/src/session.rs:251-289 | appends exactly the lines of one surface |
| SessionWriter.WriteSurfaces | simulboot-common/src/session.rs:214-216 | the loop appends the lines of every surface, in list order |
| SessionWriter.WriteLayout | simulboot-common/src/session.rs:221-238 | appends the layout, with a focus line exactly when there is a focus |
| SessionWriter.WriteRoot | simulboot-common/src/session.rs:197-207 | writes the root tag, with an id attribute exactly when there is an id |
| SessionWriter.WriteDocWithId | simulboot-common/src/session.rs:187-248 | the step-by-step writer yields the rendered lines of the document, the spliced block included |
| SessionWriter.WriteCanonical | simulboot-common/src/session.rs:156-158 | writes the bytes of the canonical form |
| SessionWriter.WriteXml | simulboot-common/src/session.rs:162-167 | writes the declared, indented document, under the declared or the computed id |
| SessionParse.FromXml | simulboot-common/src/session.rs:392-475 | the event loop over builders and buffer returns what the fold over events returns, errors included |
| SessionRoundTrip.SurfaceRun | simulboot-common/src/session.rs:537-583 | the parser fed the lines of one surface adds that surface, trimmed, and returns to its resting state |
| SessionRoundTrip.BaseRun | simulboot-common/src/session.rs:406-461 | the parser fed a base document ends in the state that holds that image |
| SessionLaws.XmlRoundTrip | simulboot-common/src/session.rs:162-175 | for every image, `from_xml(to_xml(img))` is `img` with its id filled in, surfaces stably sorted by order and edge whitespace trimmed |
| SessionLaws.XmlRoundTripExact | simulboot-common/src/session.rs:392-475 | the text round trip is the identity exactly on images with an id, sorted and trimmed |
| SessionLaws.NormalisedStorable | simulboot-common/src/session.rs:463-474 | the normal form of every image is sorted by order and has no edge whitespace |
| SessionLaws.NormalisedFixedPoint | simulboot-common/src/session.rs:463-474 | normalising leaves an image alone exactly when it is sorted, trimmed and carries that id |
| SessionLaws.WholePositionsPrint | simulboot-common/src/session.rs:363-370 | whole scroll positions printed in decimal satisfy what the laws ask of the float layer |
| SessionLaws.CanonicalInjective | simulboot-common/src/session.rs:153-158 | two images have the same canonical bytes exactly when they agree on all but the id |
| SessionLaws.IdIsContent | simulboot-common/src/session.rs:126-131 | short of a collision, two images have the same computed id exactly when they have the same content |
| SessionLaws.VerifyDetectsTampering | simulboot-common/src/session.rs:139-151 | `verify` accepts a document under an id exactly when its content is what the id was computed from |
| ParsedForm.ParsedStorable | simulboot-common/src/session.rs:434-474 | whatever document the parser accepts, the image it returns is in order, and it is storable exactly when the texts of its hosts have no edge whitespace |
| ParsedForm.PlainDocumentStorable | simulboot-common/src/session.rs:392-475 | a document without numeric character references yields a storable image |
| ParsedForm.ParsedReserialises | simulboot-common/src/session.rs:162-175 | an accepted document, written again, reads back as the image it was read as, its id filled in, exactly when that image is storable |
| ParsedForm.ReferenceNotKept | simulboot-common/src/session.rs:434-440 | an accepted document with a space spelled as a reference, whose image is not storable and reads back with another machine name |
| Nesting.DocNests | simulboot-common/src/session.rs:187-248 | the tokens of every written document, spliced block included, are properly nested elements |
| Observation.OutcomeAlike | simulboot-common/src/session.rs:406-474 | parser states that are alike have the same outcome, errors included, over every continuation whose end tags match |
| Distinction.AlikeExact | simulboot-common/src/session.rs:406-474 | two states of the parser with given open elements have the same outcome over every continuation with matching end tags exactly when they are alike: what differs is never used |
| ForeignElements.ElementsExact | simulboot-common/src/session.rs:406-461 | after any accepted beginning, leaving whole elements out changes no continuation's outcome exactly when the parser reads them without error to an alike state |
| ForeignElements.UnknownElementExact | simulboot-common/src/session.rs:409-450 | for an element of text and unknown tags that holds exactly when no text is being read, or its texts unescape and, if the collected text counts, the element leaves just that text behind its last opening tag |
| ForeignElements.NameExact | simulboot-common/src/session.rs:585-591 | elements of a qualified name without text or known tags in them can be left out wherever no text that counts has been collected, exactly when the local name is none of the parser's own |
| ForeignElements.ForeignElementsInvisible | docs/persistence/galois-connection.md:63-70 | a document whose foreign elements are all read over is parsed, or refused, as what deleting them with all in them leaves, which is nested and free of them |
| ForeignElements.ForeignTextRead | simulboot-common/src/session.rs:434-450 | inside a machine name a foreign element with text replaces the text before it by its own, where deletion would keep it |
| ForeignElements.ForeignStripScrolls | simulboot-common/src/session.rs:409-433 | a foreign `strip`, and a plain one inside a foreign element, scroll a session that deletion leaves unscrolled |
| Coefficients.BoundRoundTrip | simulboot-common/src/coefficients.rs:64-82 | a bound's text reads back as the bound, infinities included |
| Coefficients.LinearityRoundTrip | simulboot-common/src/coefficients.rs:191-203 | a usage count reads back as itself, `omega` included |
| Galois.Validate | simulboot-common/src/galois.rs:85-105 | the scan reports the first fault in the code's order, and accepts exactly the valid images |
| Galois.ValidIsBijection | simulboot-common/src/galois.rs:69-72 | on distinct surface ids, validity says that references and surfaces correspond one to one |
| Galois.RefsResolveIffDistinct | simulboot-common/src/galois.rs:69-105 | in a valid image every reference resolves exactly when the surface ids are distinct |
| Galois.GammaValidIffDistinct | simulboot-common/src/galois.rs:236-245 | the embedding of a v0 image is valid exactly when its surface ids are distinct |
| Galois.LookupFirst | simulboot-common/src/galois.rs:107-110 | a surface's coefficient is the first that names it, whatever follows |
| Galois.Adjunction | simulboot-common/src/galois.rs:123-135 | for valid `x` and every `y`: `x` is below `gamma(y)` exactly when `alpha(x)` and `y` have equal canonical bytes, ids are distinct and every coefficient has one delay path |
| Galois.AdjunctionExact | docs/persistence/galois-connection.md:94-99 | the documented law holds of `x` for all `y` exactly when ids are distinct and every coefficient has one delay path |
| Galois.LeqReflexive | simulboot-common/src/galois.rs:123-135 | a valid image with distinct ids is below itself |
| Galois.LeqTransitive | simulboot-common/src/galois.rs:123-135 | the image order is transitive |
| Galois.LeqAntisymmetric | simulboot-common/src/galois.rs:123-135 | valid images below each other have the same content and the same coefficient for every id |
| Galois.RoundTripInflates | simulboot-common/src/galois.rs:33-44 | a valid single-path image with distinct ids is below its round trip through v0 |
| Galois.RoundTripMonotone | simulboot-common/src/galois.rs:230-245 | the round trip through v0 keeps the order |
| Galois.RoundTripReturnsIffTop | simulboot-common/src/galois.rs:112-116 | the round trip is idempotent, and comes back below the image exactly when every coefficient was the top |
| Galois.TwoDelayPathsBreakTheLaw | simulboot-common/src/coefficients.rs:238-247 | a valid image with distinct ids and two delay paths is not below its own round trip |
| Galois.RepeatedIdsPassValidation | simulboot-common/src/galois.rs:87-105 | `validate` accepts an image with a repeated id that is not below its own round trip |
| GaloisXml.WriteTiming | simulboot-common/src/galois.rs:188-203 | the loop appends one delay-path line an interval, in order, inside the timing element |
| GaloisXml.WriteCoefficient | simulboot-common/src/galois.rs:179-220 | appends exactly the block of one coefficient |
| GaloisXml.WriteEach | simulboot-common/src/galois.rs:178-221 | the loop follows the surface list and skips a surface without a coefficient |
| GaloisXml.WriteCoefficients | simulboot-common/src/galois.rs:164-227 | the written block is the rendered lines of the coefficient block |
| GaloisXml.WriteXmlV1 | simulboot-common/src/galois.rs:137-144 | the written v1 document is the base document with the block spliced in, always under the computed id |
| CoefficientParse.ParseCoefficients | simulboot-common/src/galois.rs:249-318 | the second event loop returns what the fold over events returns, errors included |
| GaloisLaws.ForeignRun | simulboot-common/src/session.rs:432-457 | lines of tags the v0 parser does not know leave its state as it was |
| GaloisLaws.CForeignRun | simulboot-common/src/galois.rs:260-316 | tokens of the base leave the coefficient parser's state as it was |
| GaloisLaws.EachRun | simulboot-common/src/galois.rs:266-354 | the coefficient parser fed the block yields the coefficients in surface order, or the missing-timing error exactly when one has no delay path |
| V1RoundTrip.FromXmlV1 | simulboot-common/src/galois.rs:153-162 | two passes and the check; whatever is returned is valid |
| V1RoundTrip.ParserLevelAlpha | simulboot-common/src/galois.rs:153-162 | the v0 parser reads every written v1 document as it reads the v0 document of its base, and recovers that base and id |
| V1RoundTrip.CoefficientsParsed | simulboot-common/src/galois.rs:249-318 | the second pass over a written v1 document yields its coefficients in surface order, whatever the base says |
| V1RoundTrip.NormalisedIds | simulboot-common/src/session.rs:466 | parsing permutes the surfaces and keeps the multiset of their ids |
| V1RoundTrip.V1XmlRoundTrip | simulboot-common/src/galois.rs:138-162 | for every image, parsing the written v1 document succeeds exactly when ids are distinct and every surface has a coefficient with a delay path, and yields the normalised base with the coefficients in surface order |
| V1RoundTrip.V1KeepsCoefficients | simulboot-common/src/galois.rs:107-110 | a valid image with distinct ids comes back with the same coefficient for every id |
| V1RoundTrip.V1RoundTripExact | simulboot-common/src/galois.rs:138-162 | the v1 round trip is the identity exactly when ids are distinct, every written coefficient has a delay path, the base is storable under the computed id and the coefficients stand in surface order |
| V1RoundTrip.ForwardMigration | docs/persistence/galois-connection.md:118-133 | a v0 image embedded and written by v1 is read by the v0 parser as its own v0 document, under the same id and unchanged if storable; the v1 parser accepts it exactly when ids are distinct and abstracts it to the same image |
| V1Canonical.WriteCanonicalV1 | simulboot-common/src/galois.rs:146-151 | writes the bytes of the canonical v1 form |
| V1Canonical.CanonicalV1Injective | simulboot-common/src/galois.rs:146-151 | any two images have equal canonical v1 bytes exactly when their bases have the same content and every surface the same coefficient, or none, in both |
| V1Canonical.RoundTripKeepsCanonical | simulboot-common/src/galois.rs:138-162 | a valid image with distinct ids and a storable base keeps its canonical v1 bytes through the text form |
| Wire.BigEndianRoundTrip | simulboot-common/src/wire.rs:144-159 | the four-byte length prefix reads back as the length |
| Wire.FrameRoundTrip | simulboot-common/src/wire.rs:139-169 | a frame decodes to its message and its own length, whatever follows it |
| Wire.FrameRoundTripExact | simulboot-common/src/wire.rs:139-169 | at every length, wrapped ones included, a frame decodes to its message and its own length exactly when the body is within the limit |
| Wire.DecodeSettled | simulboot-common/src/wire.rs:149-169 | bytes that arrive later change neither a decoded message nor an error other than incompleteness |
| Wire.FramePrefix | simulboot-common/src/wire.rs:156-166 | every proper prefix of a frame is incomplete, never an error and never a message |
| Wire.MessageReader.constructor | simulboot-client/src/conn.rs:91 | a reader starts with an empty buffer |
| Wire.MessageReader.ReadMessage | simulboot-client/src/conn.rs:202-227 | draining and extending the buffer in place, one call returns the next message of the pending bytes and leaves the rest, however they arrive |
| Wire.MessageReader.ReadAll | simulboot-client/src/conn.rs:131-154 | the reader loop returns every message of the stream and how it ended |
| Wire.StreamReassembly | simulboot-common/src/wire.rs:149-169 | the frames of a list of messages read as that list and then a clean end |
| Wire.CutStream | simulboot-host/src/main.rs:226-232 | a stream cut anywhere yields every message complete before the cut, then a clean end exactly when the cut falls between frames and the mid-frame error otherwise |
| Wire.ReceiveAll | simulboot-host/src/main.rs:211-236 | for every split of the frames into non-empty pieces, exactly the sent messages arrive, then a clean end |
| Host.ServeConnection | simulboot-host/src/main.rs:80-152 | the loop announces, answers and routes what it handled, in order, and stops exactly at the end, after a Disconnect, or where backend or stream is gone |
| Host.RepliesInOrder | simulboot-host/src/main.rs:124-134 | the replies are one ack a Suspend and one ReconnectOk with the announce a Reconnect, in the order asked |
| Protocol.StepInv | simulboot-client/src/conn.rs:99-155 | every step of every task, failures included, keeps the link invariant: nothing duplicated, reordered or invented, outputs determined by what was processed, every ack accounted for |
| Protocol.RunInv | simulboot-client/src/conn.rs:73-180 | the invariant holds after every run from a new link, live or resumed |
| Protocol.AcksAreEarned | simulboot-client/src/conn.rs:134-136 | no more suspends have succeeded than Suspends were processed |
| Protocol.HostOutputRefinesInput | simulboot-host/src/main.rs:105-143 | in every reachable state the host has sent one Announce and then one answer a question, in order, with the same announce; the compositor has read a prefix of it; the backend got this surface's processed events |
| Protocol.SuspendAccounting | simulboot-client/src/conn.rs:53-67 | in every reachable state each Suspend is queued, written, lost to a failure, or answered by an ack that is in flight, buffered, dropped or read; at most one ack is buffered |
| Protocol.SuspendOrdering | simulboot-client/src/conn.rs:53-67 | over all interleavings, after `n` successful suspends every event queued before the `n`-th Suspend has reached the capture channel, once and in order |
| Protocol.FirstSuspendOrdering | simulboot-client/src/conn.rs:53-67 | the same for the first Suspend once any suspend has succeeded |
| Protocol.EverySuspendAnswered | simulboot-client/src/conn.rs:53-67 | when no suspend timed out the guarantee holds of every Suspend |
| Protocol.NothingAfterDisconnect | simulboot-client/src/conn.rs:122-125 | in every reachable state the host has handled nothing put on the link after a Disconnect, and its loop has ended once it handled that |
| Protocol.InternalStepsSettle | simulboot-client/src/conn.rs:109-155 | every step the link takes by itself leaves less work |
| Protocol.SettledDelivers | simulboot-host/src/main.rs:105-143 | a settled link with its tasks running has processed everything sent, delivered every event and answered every Suspend |
| Protocol.EventuallyDelivered | simulboot-client/src/conn.rs:108-155 | from every reachable state with its tasks running and no Disconnect sent, a finite run of the link's own steps delivers everything sent and answers every Suspend |
| LateAcks.SuspendGuaranteeExact | simulboot-client/src/conn.rs:53-67 | when the `n`-th call returns true as the `k`-th success, its own Suspend has been processed in every state where that can happen exactly when `k == n` |
| LateAcks.LateAckAnswers | simulboot-client/src/conn.rs:59-66 | for all `k < n` the `n`-th call can return true as the `k`-th success while its Suspend and an event queued before it have not left the queue |
| LateAcks.LastSuspendOrdering | simulboot-client/src/conn.rs:53-67 | when no call failed, a call that returns true finds every event queued before its Suspend with the capture channel, once and in order |
| LateAcks.OverlapExact | simulboot-client/src/conn.rs:53-67 | with calls that overlap and none failed, the `k`-th success may answer the last of `n` calls before its Suspend is processed exactly when `k < n` |
| WireLink.ByteRunsRefine | simulboot-client/src/conn.rs:108-155 | every run of the link on bytes, with frames arriving in any pieces and cut off where a task fails, ends in a state that a run of the link on messages reaches |
| WireLink.ByteSuspendOrdering | simulboot-client/src/conn.rs:201-227 | so the suspend guarantee holds of the link on bytes |
| CivilDate.CivilIsCalendar | simulboot-client/src/session/mod.rs:75-92 | for every day count the closed form is the date counted day by day through the Gregorian calendar, and a valid date |
| CivilDate.CivilStep | simulboot-client/src/session/mod.rs:82-92 | the closed form of the next day is the calendar successor of the day |
| CivilDate.YearOfEraSound | simulboot-client/src/session/mod.rs:86 | the division chain picks the one year of the era the day falls in |
| Timestamp.CivilInverse | simulboot-client/src/session/mod.rs:82-92 | counting the days of years and months back from the date gives the day count |
| Timestamp.CivilOnto | simulboot-client/src/session/mod.rs:82-92 | every valid date from 1970 on is the date of its day number |
| Timestamp.FormatNamesInstant | simulboot-client/src/session/mod.rs:77-95 | before year 10000 the text is an RFC 3339 date-time and names the second it was made from |
| Timestamp.FormatKeepsOrder | simulboot-client/src/session/mod.rs:77-95 | before year 10000 two timestamps compare as texts exactly as the instants they name |
| Timestamp.YearLimit | simulboot-client/src/session/mod.rs:92-94 | year 10000 begins at second 253402300800 |
| StripModel.OneSurfacePerPoint | simulboot-client/src/strip.rs:241-251 | every point of the content lies in exactly one surface, and no other point in any |
| StripModel.HitGivesPointBack | simulboot-client/src/strip.rs:231-252 | a point hits exactly when it lies over the content, and the hit's surface and fractions give the point back; over a surface of no height the vertical fraction alone is undefined |
| StripModel.VisibleMembers | simulboot-client/src/strip.rs:214-229 | the visible list holds exactly the surfaces that meet the viewport |
| StripModel.VisibleIffHit | simulboot-client/src/strip.rs:214-252 | a surface is visible exactly when some point of the viewport hits it |
| StripModel.VisibleFillsViewport | simulboot-client/src/strip.rs:214-229 | the clipped widths of the visible surfaces add up to the lesser of viewport and content |
| StripModel.RunKeepsGood | simulboot-client/src/strip.rs:109-260 | every run of operations, ordered inserts of some width included, keeps widths positive, the scroll position in bounds and the focus on a surface that is there |
| StripModel.RunKeepsTall | simulboot-client/src/strip.rs:109-143 | every run whose ordered inserts have a height keeps heights positive |
| StripModel.RunKeepsPlaces | simulboot-client/src/strip.rs:109-143 | over every run without ordered inserts each surface's order is its place |
| StripModel.RemoveTakesOne | simulboot-client/src/strip.rs:129-143 | removal takes the first surface with the id, keeps the others' order and fields, renumbers them, clears only that focus, and narrows the content by the removed width |
| StripModel.AppendThenRemove | simulboot-client/src/strip.rs:109-143 | removing a surface just appended gives the strip back |
| StripClass.Strip.constructor | simulboot-client/src/strip.rs:63-71 | a new strip is empty, unscrolled and unfocused |
| StripClass.Strip.Append | simulboot-client/src/strip.rs:106-120 | the new state holds the surface at the end under the returned order, with missing sizes filled in |
| StripClass.Strip.InsertOrdered | simulboot-client/src/strip.rs:122-127 | the new state holds the old surfaces and the new one stably sorted by order |
| StripClass.Strip.Remove | simulboot-client/src/strip.rs:129-143 | the in-place renumbering loop reaches the specified state, and the result is the removed surface or nothing |
| StripClass.Strip.NoteFrame | simulboot-client/src/strip.rs:153-159 | only the named surface's last timestamp and frame count change |
| StripClass.Strip.ScrollBy | simulboot-client/src/strip.rs:183-188 | the scroll position moves and is clamped; nothing else changes |
| StripClass.Strip.SetScroll | simulboot-client/src/strip.rs:190-194 | the scroll position is set and clamped; nothing else changes |
| StripClass.Strip.ClampScroll | simulboot-client/src/strip.rs:196-198 | the scroll position is clamped to its bounds; nothing else changes |
| StripClass.Strip.SetFocus | simulboot-client/src/strip.rs:200-208 | the focus moves exactly when the surface is there, and the result says so |
| StripClass.Strip.SetFocusOpt | simulboot-client/src/strip.rs:210-212 | the focus becomes the given id if it is there, and none otherwise |
| StripClass.Strip.SurfaceLeft | simulboot-client/src/strip.rs:161-171 | the scan returns the sum of the widths before the first surface with the id, or nothing |
| StripClass.Strip.Visible | simulboot-client/src/strip.rs:214-229 | the scan returns the surfaces in view, in strip order |
| StripClass.Strip.HitTest | simulboot-client/src/strip.rs:231-252 | the scan returns the first surface that covers the point, with the point in its coordinates |
| StripClass.Strip.Click | simulboot-client/src/strip.rs:254-260 | the hit surface gets the focus; a miss changes nothing |
| Migration.ConnectLive | simulboot-client/src/main.rs:109-128 | the loop leaves the strip with one appended surface a host, or returns the first host that did not answer |
| Migration.Resume | simulboot-client/src/main.rs:132-170 | the loop leaves the strip with every entry restored in image order, then scrolled and focused, or returns the first failure |
| Migration.LivePlacement | simulboot-client/src/main.rs:115-128 | hosts stand in the order given, each numbered by its place and a third of the viewport wide; otherwise the first silent host is named |
| Migration.ResumeFailsFirst | simulboot-client/src/main.rs:144-154 | resume succeeds exactly when every entry can be reconnected, and otherwise reports the first that cannot, in image order |
| Migration.ImageRecordsHosts | simulboot-client/src/session/mod.rs:16-38 | the image of a live session holds one entry a host, in order, with the address dialled and everything that host announced, and passes `verify` |
| Migration.ResumeMoves | simulboot-client/src/main.rs:143-170 | resuming a suspended session on any viewport gives the same surfaces, orders and focus at that device's sizes, scrolled as far as before or as far as it goes |
| Migration.MoveRestoresExactly | simulboot-client/src/strip.rs:178-198 | a move restores the scroll position, and the next suspend the same image and id, exactly when the device scrolls that far; an equally wide or wider device does |
| Migration.RestoredInPlace | simulboot-client/src/main.rs:143-155 | an image comes back with each surface's order its place exactly when its entries are numbered `0` to `n - 1`, in any listing order and whatever its hosts now announce |
| Migration.RestoredRunKeepsPlaces | simulboot-client/src/strip.rs:109-143 | after such a restore, every run without ordered inserts keeps each surface's order its place |
| Migration.LivesStayNumbered | simulboot-client/src/main.rs:132-231 | over any chain of restore, use and suspend on any devices and networks, the images stay numbered `0` to `n - 1` |
| Migration.JourneyKeeps | simulboot-client/src/main.rs:132-170 | over any chain of viewports, with any frames arriving on the way, entries, orders and focus stay, and the scroll position ends at the least of the first one and every device's limit |
| Migration.LiveIsPortable | simulboot-client/src/main.rs:109-128 | a session placed live satisfies what the chain asks of it |
| Http.HeadEnds | simulboot-broker/src/lib.rs:202-204 | the first blank line of a response is the end of its head, whatever the body holds |
| Http.HeadSplits | simulboot-client/src/session/mod.rs:131-140 | split there, the head reads as its lines and the rest is the body, byte for byte |
| Broker.RouteFound | simulboot-broker/src/lib.rs:155-163 | the image is served exactly to a GET of `/session/` and its full id or bare hash, with any number of slashes after it |
| Broker.ResponsePlain | simulboot-broker/src/lib.rs:165-195 | every response head is a list of lines without line breaks in them, if the content type is one |
| Broker.DeclaredLength | simulboot-broker/src/lib.rs:173-195 | every response, refusals included, declares the length of what follows its head |
| Broker.HandleConnection | simulboot-broker/src/lib.rs:120-144 | the read loop answers the first line of what it received before a blank line, the limit or the end |
| Broker.FirstLineDecides | simulboot-broker/src/lib.rs:120-144 | however a request is split and wherever the reader stops, the answer is the answer to its first line |
| Fetch.UrlRoundTrip | simulboot-client/src/session/mod.rs:97-112 | a URL made of host, port and path reads back as them, colons in the host included; without a port it is 80 |
| Fetch.UrlEdges | simulboot-client/src/session/mod.rs:99-112 | a URL without a path asks for `/`; one that is not http, or whose port is no 16-bit number, is refused |
| Fetch.BodyRecovered | simulboot-client/src/session/mod.rs:131-140 | from the broker's response the client takes exactly the served body, and refuses its 404 and 405 |
| Fetch.FetchedIsNamed | simulboot-client/src/session/mod.rs:40-56 | whatever bytes the peer answers with, an accepted image has the content of the image the URL names, short of a collision |
| Fetch.WrittenBodyChecked | simulboot-client/src/session/mod.rs:50-62 | a written image is accepted, in normal form, exactly when the URL names the content of that normal form, whatever id it declares |
| Fetch.TrailingSlashNeverFetched | simulboot-client/src/session/mod.rs:51-57 | a URL that ends in a slash is refused for every answer |
| EndToEnd.BodyArrives | simulboot-client/src/session/mod.rs:116-141 | over any split of the request, a GET of the image's id or bare hash recovers the served body |
| EndToEnd.FetchServed | simulboot-client/src/main.rs:213-230 | a fetch of a suspended and served image yields the checks' verdict on its normal form |
| EndToEnd.FetchExact | simulboot-client/src/session/mod.rs:44-63 | suspend, serve and fetch is the identity exactly on storable images, and the integrity error on every other |
| EndToEnd.StorableStrip | simulboot-client/src/session/mod.rs:16-38 | a strip suspends to a storable image exactly when it is in order of position and its texts have no edge whitespace |
| EndToEnd.SuspendServeFetchResume | simulboot-client/src/main.rs:132-231 | a session suspended, served, fetched by id and resumed on another device is the session moved to that device |
| Relay.HopMoves | simulboot-client/src/main.rs:132-231 | suspending, serving, fetching and resuming over one broker is one move |
| Relay.RelayIsJourney | simulboot-client/src/main.rs:132-231 | a whole chain of devices, every image written, served, fetched over any split, parsed and checked, ends as the journey in which images are handed over, with every surface and the focus kept |
| Relay.ServedLivesAreLives | simulboot-client/src/main.rs:132-231 | over any chain of restores, use and suspends from a numbered session, images that are served and fetched between the lives arrive as if handed over, failures to resume included |
| Relay.WholeWayOpen | simulboot-broker/src/lib.rs:120-144 | a network that delivers each request in one piece meets what the chain asks |
| Relay.UnstorableUnfetchable | simulboot-client/src/session/mod.rs:44-63 | short of a collision, a strip out of order or with edge whitespace in its texts is served under its own id and every fetch of it ends in the integrity error |
| Relay.SpacedSessionUnfetchable | simulboot-client/src/session/mod.rs:16-63 | one host with a leading space in its machine name gives a live session whose image verifies and cannot be fetched |
| Relay.GapSessionUnfetchable | simulboot-client/src/main.rs:115-170 | a session restored with a gap between its orders and extended by one host verifies and cannot be fetched |

## Left out

- QUIC, TLS, sockets, tasks and timers: streams are byte pieces in any split, tasks are steps in any order, and a timeout may strike at any time.
- SHA-256 itself, and how surface ids are made from a seed: a digest is a parameter.
- IEEE rounding, NaN and infinities: strip geometry and floats are real numbers; formatting and parsing are parameters, and zero has one sign.
- postcard: a codec of message bodies is a parameter, with reading back what it wrote as a hypothesis on the messages sent; content datagrams and their header are not modelled.
- quick-xml beyond the grammar the two writers use: comments, CDATA, processing instructions, attributes in other quotes or spacing, repeated attributes, line-end and attribute-value normalisation (sections 2.11 and 3.3.3 of XML 1.0); strings with carriage returns, or with tabs and line feeds in attributes, round-trip in the model only. End-tag matching and numeric character references are modelled.
- SessionParse.FromXml: a document is tokenized and its end tags matched before the first event is handled, so when it has both a malformed or mismatched tag and an earlier fault the model reports the tag.
- SessionWriter.WriteDocWithId: the spliced block comes with its lines as a ghost argument, which the code does not have.
- Wire.MessageReader.ReadMessage: an empty read is the end of the stream, as in the code; read errors of the transport are not modelled.
- Protocol.EventuallyDelivered: says that a delivering run exists; that the scheduler lets every task run is not modelled.
- The writer task skips a message that fails to serialise; in the model every message serialises.
- Host.ServeConnection: when the backend goes away and when the stream stops taking replies are two counts given at the start.
- Migration.JourneyKeeps: nothing scrolls, focuses or appends between moves, and the hosts announce the same each time; `Migration.LivesStayNumbered` allows all of that for the orders.
- Migration.Resume: a socket address is its canonical text, and resolving text to it is a parameter.
- StripModel.RunKeepsPlaces: is stated of runs without ordered inserts, which can leave orders with gaps; the ordered inserts of a restore are the subject of `Migration.RestoredInPlace`.
- Migration.LivesStayNumbered: needs fewer than 2^32 surfaces, past which orders wrap and repeat.
- ForeignElements.ForeignElementsInvisible: a foreign element is one whose name has a prefix; prefixes are not resolved to namespaces, and a default namespace declared on an element is not seen. One-way for a whole document, because differences may cancel; each element's condition is exact (`ForeignElements.ElementsExact`).
- StripModel.HitGivesPointBack: division by a height of zero is an absent fraction, where the code has an infinity or NaN.
- The frame counter is unbounded; orders wrap at 32 bits as in the code.
- EndToEnd.SuspendServeFetchResume: the peer answers with what the broker makes of the request; accepting connections, shutting down and writing the image to disk are not modelled.
- The text of error messages carries only what identifies the error.
- The renderer, command lines, capture backends, certificates, Fast Infoset, and the semiring's composition laws, which only the documentation has.
