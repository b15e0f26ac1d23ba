# Askrelay, modelled and proved in Dafny

Askrelay lets the AI sessions of different people exchange messages through a relay that they host themselves. A message
is an envelope, signed over a canonical form. The relay keeps messages, threads, drafts, grants and delivery rows in a
store, holds every message behind an approval gate, and pushes mail to connected devices over WebSockets. Clients get in
through OAuth codes and rotating refresh tokens.

This project models the four parts of it that are hardest to get right, and proves what they promise.

**The canonical form** (RFC 8785, section 3.2). `Unicode` has UTF-8 with its reader and the UTF-16 order of member names;
`Decimal` the layout of numbers and what it denotes; `JsonText` and `JsonGrammar` the grammar of JSON (RFC 8259): every
way to spell a string or a value, and what is spelled; `JsonString` the escapes and a reader for them; `Canonical` the
printer, as a mathematical function and as the loops that compute it, down to the in-place sort of the keys; `JsonReader` a
reader, proved to take exactly the texts of that grammar, each as the value it spells. So the canonical text can be read
back, two values print alike exactly when they are equal, and whatever the spelling of a text its canonical form is that of
the value it spells. `Envelope` has what json.Marshal writes, the canonical bytes of that, a decoder that looks fields up by
name and gives the envelope back, and Sign and Verify; `Spotlight` is the code fence around rendered mail.

**The store**. `Gate` decides verdicts. `Tables` has the tables as maps and each transaction as a function from tables to
new tables or an error. `Store` is the store as it runs: a class whose methods change a working copy statement by
statement, then commit or drop it; each is proved to do what the function says, and `Store.Relay.Perform` ties the class as
a whole to the machine. `Invariants` is what every transaction keeps, and `Runs` are sequences of transactions from empty
tables. On runs stand the results: `Replay`, `Releases`, `AwaitingVerdicts`, `Shown`, `Retention`, `AssertedState`,
`Enrollment` and `Standing`; `Refusals` has the errors. `Outbound` is the order in which the send tools call the store and notify, and says exactly when they
send, ask or refuse.

**Delivery**. `Registry` and `Hub` are the map of live sockets and its operations over socket objects. `Delivery` is the
protocol as interleaved steps of handlers, writers, Notify calls and the store, `Sockets` what becomes of each socket, and
`Progress` how what is owed gets pushed in finitely many of the relay's own steps. `Bridge` joins the two halves: a run of the store is a run of the
protocol, and what the store releases is pushed.

**OAuth**. `OAuthTables` and `OAuthServer` are the rows, the store methods and the token endpoint. `TokenRequests`
interleaves any number of token requests, each made of several transactions.

Conventions and assumptions:

- Times are whole nanoseconds. Stored times are seconds rounded down, as `Unix()` gives them, and the proofs depend on
  where that happens. In runs of the store the clock never goes back along the order of commits; the relay reads it just
  before it takes the writer lock. Nothing is assumed about clocks in the OAuth part.
- Freshly minted ids, codes and tokens are arguments. In the interleaved machines a new one was never used before; in the
  store, an id that is in use makes the insert fail as the schema does.
- A string is a sequence of Unicode scalar values. Byte order and lengths are those of its UTF-8 form.
- Where an id or a parameter is a number, 0 stands for the empty text. An id's number is its place in the byte order of
  id texts.
- A signature is either one that Sign made, which records its key and text, or other octets, which never verify.
  The S256 challenge of a PKCE verifier is the parameter `pkce`; in `TokenRequests` a `proof` stands for that challenge.
- Parsing a decimal into a double is the parameter `Rounding`; the shortest decimal digits of that double are its result.
- A WebSocket on which any call failed is closed, as the library promises. Store reads during delivery do not fail.
- `docs/askrelay-architecture-diagrams.md` still draws a submit path over `/ws` and a `DeliverDraft` step. The code has
  neither: delivery happens in the transaction that releases a draft. The model follows the code.

A row that begins with "Helper:" names a member that other proofs use but that only reads its definitions back.

## Model

| member | source | states |
|---|---|---|
| Unicode.ReadRuneOfUtf8 | internal/envelope/canon.go:125 | Reading UTF-8 gives back the character written, whatever follows |
| Unicode.ReadRuneOnlyUtf8 | internal/envelope/canon.go:125 | Nothing else reads as that character: the encoding is unique |
| Unicode.NamesEqual | internal/envelope/canon.go:205-225 | The UTF-16 comparison is zero exactly for equal names |
| Unicode.NamesTotal | internal/envelope/canon.go:205-225 | Swapping the names flips the sign: exactly one of less, equal and greater holds |
| Unicode.NamesTransitive | internal/envelope/canon.go:205-225 | The order is transitive |
| Unicode.OrdersDisagreeExactly | internal/envelope/canon.go:202-204 | UTF-16 and code-point order differ exactly when the first differing pair is a supplementary character and one in U+E000..U+FFFF |
| Unicode.OrdersAgreeOnPrefix | internal/envelope/canon.go:217-224 | When one name is a prefix of the other the two orders agree |
| Unicode.CompareUTF16 | internal/envelope/canon.go:205-225 | The loop over code units computes that comparison |
| Decimal.LayoutDenotes | internal/envelope/canon.go:154-200 | The text laid out denotes exactly digits x 10^(n-k), with its sign |
| Decimal.FormatIsSpelledLayout | internal/envelope/canon.go:173-199 | The branches of formatFloatES spell exactly that layout |
| Decimal.LayoutHasEcmaShape | internal/envelope/canon.go:174-195 | The layout is of the one form that ECMAScript asks for at that exponent |
| Decimal.LayoutUnique | internal/envelope/canon.go:174-195 | It is the only numeral of that form with that value, and conversely |
| Decimal.LayoutAtThresholds | internal/envelope/canon.go:174-195 | On both sides of each threshold: 1e20 and 1e-6 are written out, 1e21 and 1e-7 take an exponent, -1.25 a point |
| Decimal.ReadFormat | internal/envelope/canon.go:154-200 | Reading the text back gives the same sign, digits and exponent |
| Decimal.FormatInjective | internal/envelope/canon.go:154-200 | Distinct numbers never share a text |
| Decimal.ReadNumeralOfWritten | internal/envelope/canon.go:32-37 | Every spelling of a number in the JSON grammar is read as that number, up to where it ends |
| Decimal.OnlyNumeral | internal/envelope/canon.go:32-37 | And what is read as a number was one of those spellings |
| JsonString.AppendString | internal/envelope/canon.go:103-130 | The loop appends the quoted, escaped string and nothing else |
| JsonString.ReadText | internal/envelope/canon.go:32-37 | Every spelling of a string, with literal characters, short escapes, \u escapes in either case of digit and surrogate pairs, is read as that string |
| JsonString.OnlyText | internal/envelope/canon.go:32-37 | And what is read as a string was one of those spellings |
| JsonString.ReadPrintString | internal/envelope/canon.go:103-130 | A JSON reader gets back exactly the string printed |
| JsonString.EscapeRuneShape | internal/envelope/canon.go:105-127 | Which escape each character takes (section 3.2.2.2 of RFC 8785): exactly controls, quote and backslash are escaped, by the short form where there is one, otherwise with lower-case digits |
| Canonical.SortedUnique | internal/envelope/canon.go:72-77 | Two strictly sorted lists of the same names are equal, so map order cannot show |
| Canonical.SortNames | internal/envelope/canon.go:77 | Sorting the keys in place leaves them strictly sorted, with the same names |
| Canonical.CollectKeys | internal/envelope/canon.go:73-76 | The keys collected are the object's names, once each |
| Canonical.AppendCanonical | internal/envelope/canon.go:47-94 | The recursive printer appends the canonical text of the value with its numbers rounded, and fails exactly when one is out of range |
| Canonical.AppendMembers | internal/envelope/canon.go:79-90 | Members come out in the sorted order, separated by commas |
| Canonical.AppendItems | internal/envelope/canon.go:60-71 | Items come out in order, separated by commas |
| JsonReader.ReadPrint | internal/envelope/canon.go:47-130 | For every value, reading its canonical text by the JSON grammar gives back that value and leaves what follows |
| JsonReader.PrintInjective | internal/envelope/canon.go:47-130 | Two values print the same bytes exactly when they are equal |
| JsonReader.ReadAnySpelling | internal/envelope/canon.go:32-42 | A document in any spelling is read as the value it spells, of repeated names the last |
| JsonReader.ReadsExactly | internal/envelope/canon.go:32-42 | The reader takes exactly the texts of the JSON grammar, each as the value it spells |
| JsonReader.CanonicalTextOfSpelling | internal/envelope/canon.go:30-44 | Whatever its spelling, a text has the canonical form of the value it spells, numbers as doubles |
| JsonReader.Jcs | internal/envelope/canon.go:32-44 | Parsing and printing gives the canonical text of the value read, and fails on malformed or trailing input and on numbers out of range |
| JsonReader.CanonicalTextStable | internal/envelope/canon.go:30-44 | Canonicalising canonical text changes nothing |
| JsonReader.SameCanonicalText | internal/envelope/canon.go:30-44 | Two documents have the same canonical text exactly when they read as the same value, numbers as doubles |
| Envelope.MarshalMeans | internal/envelope/canon.go:21-28 | What json.Marshal writes, with `<`, `>`, `&`, U+2028 and U+2029 escaped, is a text of the JSON grammar that spells the unsigned envelope |
| Envelope.SignedBytesDecode | internal/envelope/envelope.go:126-141 | Decoding the signed bytes, by looking fields up by name, gives back the envelope but for Sig, or ErrBadVersion exactly for another version; so does decoding the marshalled bytes |
| Envelope.SignedBytesNames | internal/envelope/envelope.go:84-95 | The signed object has exactly the nine field names, `sig` not among them |
| Envelope.SignedBytesInjective | internal/envelope/canon.go:21-28 | Where the version is written exactly (up to 2^53), envelopes have the same signed bytes exactly when they agree in every field but Sig, nil and empty parts kept apart |
| Envelope.BytesThroughDoubles | internal/envelope/canon.go:21-44 | With numbers read as doubles, the canonical bytes are the same exactly when all other fields agree and the two versions are the same double |
| Envelope.BodySize | internal/envelope/envelope.go:157-163 | The UTF-8 bytes of all part texts |
| Envelope.TextBytesAdds | internal/envelope/envelope.go:157-163 | Each part adds the length of its UTF-8 form |
| Envelope.Check | internal/envelope/envelope.go:176-194 | Version and the three caps, in that order, with their errors |
| Envelope.CapsInOrder | internal/envelope/envelope.go:165-194 | Each error exactly when its cap is the first one broken: version 1, 16 parts, 32768 bytes of text, 65536 on the wire |
| Envelope.Outgoing.Sign | internal/envelope/sign.go:13-23 | Signs in place, changing only Sig and only when everything is in order |
| Envelope.Verify | internal/envelope/sign.go:32-46 | Caps first, then key and signature sizes, then the signature |
| Envelope.TamperEvident | internal/envelope/sign.go:13-46 | A signature made by Sign verifies exactly on the envelope signed, up to Sig |
| Envelope.AcceptedOnlyIfSigned | internal/envelope/sign.go:32-46 | Helper: what Verify accepts carries a signature made with the matching key, and meets all caps |
| Envelope.SignedThenAccepted | internal/envelope/sign.go:13-46 | Exactly what meets all caps is signed, and what Sign signs Verify accepts |
| Spotlight.Fence | internal/relay/mcp/spotlight.go:45-54 | The fence is the shortest of at least three backticks that no run in the text reaches |
| Spotlight.OnlyOuterLinesFence | internal/relay/mcp/spotlight.go:43-54 | Of the fenced text's lines only the first and the last can be read as a fence (section 4.5 of CommonMark) |
| Gate.ApplyInbound | internal/gate/gate.go:52-67 | Only a thread awaiting a verdict takes one; approval and rejection lead apart |
| Gate.ApplyOutbound | internal/gate/gate.go:123-141 | A Release is minted exactly by approving a pending outbound draft, and for that draft |
| Gate.InboundGrantIsApproval | internal/gate/gate.go:173-195 | Helper: a grant does what a human approval would, where it covers the message |
| Gate.OutboundGrantIsApproval | internal/gate/gate.go:201-210 | Helper: the same outbound, with the Release marked |
| Invariants.StepKeeps | internal/relay/store/identity.go:47-64 | Every transaction keeps all tables well formed and every thread with its parties |
| Refusals.IngestErrors | internal/relay/store/message.go:72-159 | Past id and freshness: ErrNotParticipant exactly on an existing thread of others, a constraint error exactly for a new thread without two people of the roster or a message id in use |
| Refusals.CreateDraftErrors | internal/relay/store/draft.go:33-70 | Helper: each error of a draft, exactly when |
| Refusals.ReleaseErrors | internal/relay/store/draft.go:80-126 | Someone else's draft is not found, and an edit that does not fit is a bad envelope, exactly then |
| Refusals.OwnReleaseErrors | internal/relay/store/draft.go:80-144 | One's own fails as an illegal transition exactly when decided, as a replay exactly when its id was ingested and remembered, and never as an unknown state |
| Refusals.DiscardErrors | internal/relay/store/draft.go:148-167 | A discard fails as not found exactly for no draft of one's own, as an illegal transition exactly for a decided one, and in no other way |
| Refusals.VerdictErrors | internal/relay/store/approval.go:73-103 | A verdict is not found exactly on no message, on one to someone else and on one followed in a later second; otherwise it can only be an illegal transition |
| Refusals.GrantErrors | internal/relay/store/approval.go:105-179 | Helper: the errors of issuing and revoking a grant, exactly when |
| Refusals.EnrollErrors | internal/relay/store/identity.go:95-160 | Helper: the invite is judged before the key, and each error is exact |
| Store.Relay.EndTx | internal/relay/store/identity.go:49-64 | Commit on no error, otherwise the tables are as they were |
| Store.Relay.Perform | internal/relay/store/identity.go:49-64 | Any operation takes the store one step of the machine, and leaves it well formed |
| Store.Relay.CreateInvite | internal/relay/store/identity.go:74-93 | One new unused invite |
| Store.Relay.Enroll | internal/relay/store/identity.go:100-160 | Invite used, person found or made and device registered together, or nothing at all |
| Store.Relay.FindOrCreatePerson | internal/relay/store/identity.go:164-184 | The one person with that email, made only if there was none |
| Store.Relay.RevokeDevice | internal/relay/store/identity.go:190-216 | Revoked once; a second time changes nothing; unknown is an error |
| Store.Relay.StartThread | internal/relay/store/read.go:39-54 | A submitted thread between two distinct persons of the roster |
| Store.Relay.IngestMessage | internal/relay/store/message.go:54-66 | Id and freshness first, then the ingest transaction |
| Store.Relay.IngestInTx | internal/relay/store/message.go:72-112 | Dedup, thread, message, tombstone, surfacing and fan-out, or the first error |
| Store.Relay.EnsureThread | internal/relay/store/message.go:136-159 | A new thread awaiting a verdict, or a check that both ends are its parties |
| Store.Relay.FanOutDeliveries | internal/relay/store/message.go:165-193 | One open delivery row per active device of the recipient, no other |
| Store.Relay.ReportReceipt | internal/relay/store/message.go:225-257 | MarkDelivered and Ack: a time is written only where there was none |
| Store.Relay.Inbox | internal/relay/store/message.go:196-221 | Exactly the device's unacked messages, oldest first and by id within a second |
| Store.OrderUnique | internal/relay/store/message.go:196-202 | That order leaves no choice: a device's inbox is one list |
| Store.MarkedMeans | internal/relay/store/message.go:223-238 | Reporting messages delivered gives each of their rows for the device a delivery time if it had none, and touches nothing else |
| Store.MarkedKeepsInbox | internal/relay/store/message.go:195-238 | Delivered is not acked: every inbox stays as it was |
| Store.Relay.InboundAwaiting | internal/relay/store/read.go:73-100 | Exactly what awaits the person's verdict, oldest first |
| Store.Relay.CreateDraft | internal/relay/store/draft.go:33-70 | A pending draft by one party of the thread to the other |
| Store.Relay.ReleaseDraft | internal/relay/store/draft.go:80-126 | The author's own pending draft, edited or not, decided and delivered in one transaction |
| Store.Relay.DecideAndDeliver | internal/relay/store/draft.go:138-144 | The decided row and its ingest, sent at the time of release |
| Store.Relay.DiscardDraft | internal/relay/store/draft.go:148-167 | The author's own pending draft, discarded |
| Store.Relay.ReleaseReplyViaGrant | internal/relay/store/draft.go:174-217 | The same release under an active outbound grant of the author; otherwise nothing changes |
| Store.Relay.TransitionInbound | internal/relay/store/approval.go:28-57 | The gate's verdict on the stored state of the thread |
| Store.Relay.InboundMessageVerdict | internal/relay/store/approval.go:73-103 | Only on the thread's latest message, only by the party that did not send it |
| Store.Relay.ApproveInboundViaGrant | internal/relay/store/approval.go:185-227 | Fires under an active inbound grant; marks only a message of that thread |
| Store.Relay.SetThreadGrant | internal/relay/store/approval.go:127-152 | One active grant per thread, person and direction; issuing again changes nothing |
| Store.Relay.RevokeThreadGrant | internal/relay/store/approval.go:156-179 | Marks the active grant revoked; none active is an error |
| Store.Relay.SweepMessages | internal/relay/store/retention.go:20-46 | Exactly the expired messages and their delivery rows go; their number is returned |
| Store.Relay.SweepDrafts | internal/relay/store/retention.go:50-68 | Exactly the stale decided drafts go |
| Store.Relay.PruneTombstones | internal/relay/store/retention.go:76-91 | Exactly the tombstones before the freshness horizon go |
| Runs.RunWellFormed | internal/relay/store/identity.go:47-64 | Every reachable state is well formed |
| Runs.InboxIsAddressed | internal/relay/store/message.go:161-221 | Over every run, a device's inbox shows only mail addressed to its person by the thread's other party |
| Runs.PartiesNeverChange | internal/relay/store/message.go:129-159 | Along a run a thread keeps its two parties |
| Runs.StepMessage | internal/relay/store/message.go:68-193 | What any transaction can do to one message: bring it in, keep it but for receipts and the grant mark, or sweep it once expired |
| Runs.ReleaseArrives | internal/relay/store/draft.go:128-144 | A release brings in the draft's message and touches no other |
| Replay.ReplayRefused | internal/relay/store/message.go:54-127 | Over every run, an id and signed time that came in once are refused ever after, through sweeps and prunes |
| Replay.ArrivalStaysSpent | internal/relay/store/retention.go:70-91 | What came in is for ever either under its tombstone or too old |
| Replay.IngestIsExact | internal/relay/store/message.go:54-159 | Exactly when an ingest is admitted, and exactly when it is refused as stale or post-dated, and as a replay |
| Replay.ArrivedFresh | internal/relay/store/message.go:54-66 | Over every run, nothing comes in signed outside the window around its arrival; a release is signed when it is released |
| Replay.FirstMessageOpens | internal/relay/store/message.go:136-148 | The first message of a thread opens it, from its sender to its addressee |
| Replay.UnixRoundsDown | internal/relay/store/message.go:107 | Stored times are whole seconds, rounded down |
| Releases.DraftStory | internal/relay/store/draft.go:80-250 | Over every run, a draft is sent exactly when one later step released it with its author's consent, discarded exactly when its author discarded it, and otherwise as created and never released |
| Releases.SentWasDelivered | internal/relay/store/draft.go:72-144 | A sent draft was delivered by the step that released it: its envelope with its edits, sent then, by its author |
| Releases.DecidedForever | internal/relay/store/draft.go:239-250 | A decided draft never changes again |
| Releases.ArrivalHadConsent | internal/relay/store/draft.go:128-144 | A message comes in by ingest or by a consented release, and in no third way |
| AwaitingVerdicts.ShownIsDecidable | internal/relay/store/approval.go:73-103 | A verdict on a message succeeds exactly when the message is on that person's list |
| AwaitingVerdicts.VerdictClears | internal/relay/store/read.go:69-72 | A verdict takes exactly its thread's messages off every list |
| AwaitingVerdicts.ShownDraftIsDiscardable | internal/relay/store/draft.go:148-167 | A draft can be discarded exactly when it is on its author's list |
| AwaitingVerdicts.ShownDraftIsReleasable | internal/relay/store/draft.go:80-126 | And released exactly when it is there, fits, and its id is new to ingest |
| AwaitingVerdicts.ShownDraftIsAutoReleasable | internal/relay/store/draft.go:174-217 | A grant releases it exactly when one stands on the named thread and its id is new to ingest, and asks the human exactly when none stands |
| AwaitingVerdicts.SomethingAwaitsIsActivity | internal/relay/store/read.go:102-118 | HasActivity is true whenever something awaits the person |
| AwaitingVerdicts.FreshIsShown | internal/relay/store/message.go:102-111 | Over every run, what a step brings in is on its addressee's list right after, whoever else wrote in that second |
| AwaitingVerdicts.VerdictsAnswerIngests | internal/relay/store/approval.go:15-19 | On every thread verdicts, human or by grant, never outnumber ingests, with one to spare while one is awaited |
| Shown.LastSecondIsListed | internal/relay/store/read.go:73-100 | On a thread that awaits a verdict, exactly the messages of its last stored second are on their addressee's list |
| Shown.LastSecondIsDecidable | internal/relay/store/approval.go:73-103 | A verdict on any other message, or by anyone else, is ErrNotFound |
| Shown.SupersededIsGone | internal/relay/store/approval.go:84-98 | Over every run, once another message of the thread came in, in a later second, a message is on nobody's list and every verdict on it is ErrNotFound, as long as the later one is stored |
| Shown.NewestIsListed | internal/relay/store/read.go:73-100 | And one that none followed in a later second is on its addressee's list while the thread awaits a verdict |
| Shown.ListedUntilDecided | internal/relay/store/read.go:127-131 | Over every run, a draft is on its author's list from its creation until it is released or discarded |
| Shown.ActivityIsExact | internal/relay/store/read.go:102-118 | HasActivity is true exactly for a pending draft of the person's, or a stored message to them on a thread that awaits a verdict |
| Shown.ActivityWithoutAnythingAwaiting | internal/relay/store/read.go:102-118 | So it can be true with nothing on either list: the person answered without deciding |
| Shown.ThreadVerdictIsExact | internal/relay/store/approval.go:28-57 | A thread takes a verdict exactly while it awaits one; approved it works, declined it is rejected, and no other thread moves |
| Shown.GrantVerdictIsExact | internal/relay/store/approval.go:185-227 | A grant fires exactly where one stands inbound for that person on a thread that awaits a verdict, and leaves it working |
| Shown.StartedAwaitsNothing | internal/relay/store/read.go:39-54 | A thread that was only started takes no verdict |
| Retention.InInboxUntilAcked | internal/relay/store/message.go:195-221 | Over every run, a stored message is in a device's inbox exactly if the device was active and its addressee's when it came in, and has not acked it since |
| Retention.SweptExactly | internal/relay/store/retention.go:16-46 | Over every run, a sweep removes a message exactly if it came in HardTTL ago, or it had rows and each device of them acked it AckGrace ago |
| Retention.MarkedByGrant | internal/relay/store/approval.go:216-222 | A stored message carries the grant mark exactly if a grant on its own thread has auto-approved it since it came in |
| Retention.NoUnreadMailLost | internal/relay/store/retention.go:16-46 | Over every run, a message leaves before HardTTL only if every row of the device set fixed at ingest, not an empty one, was acked AckGrace earlier |
| Retention.MessageStory | internal/relay/store/message.go:161-257 | A message's delivery rows are those of its ingest, stamped with the first receipts reported since |
| Retention.FirstWasReported | internal/relay/store/message.go:225-257 | Such a stamp is the time of an actual receipt, the first of its kind |
| Retention.UnexpiredStays | internal/relay/store/retention.go:20-46 | A step removes a message exactly when it is a sweep and the message has expired |
| Retention.SweepsAreExact | internal/relay/store/retention.go:48-91 | Helper: which decided drafts and which tombstones a sweep removes, in both directions |
| Retention.SweepsTouchLittle | internal/relay/store/retention.go:16-68 | Helper: sweeps leave threads, grants, tombstones and pending drafts |
| AssertedState.AssertedStateHasNoInfluence | internal/relay/store/message.go:129-159 | Two runs whose ingested envelopes differ only in State answer alike at every step, with the same threads, inboxes and lists |
| Enrollment.EnrollmentBalances | internal/relay/store/identity.go:95-184 | Over every run, as many used invites as devices, keys distinct, one person per email |
| Enrollment.FailedEnrollKeepsInvite | internal/relay/store/identity.go:132-143 | An enrollment refused for its key leaves an invite that still admits exactly the keys not in use |
| Standing.ActiveIffGranted | internal/relay/store/approval.go:124-179 | Over every run, a grant is active exactly when the last thing its holder did with it was to issue it |
| Standing.GrantReleaseWasGranted | internal/relay/store/draft.go:169-198 | A draft released by a grant had its author's outbound grant on that thread standing at that step |
| Standing.GrantsStandAlong | internal/relay/store/approval.go:124-179 | Along a run no grant changes but from active to revoked |
| Standing.GrantingIsExact | internal/relay/store/approval.go:105-179 | A grant can be issued exactly by a party of the thread, in one of the two directions, and revoked exactly while one stands |
| Standing.RevokedThen | internal/relay/store/approval.go:156-179 | A revocation dates the one grant that stands with its second, and changes no other |
| Standing.ActiveUntilRevoked | internal/relay/store/identity.go:186-216 | Over every run, a device is active exactly until a step revokes it |
| Standing.RevocationIsForGood | internal/relay/store/identity.go:186-216 | A revoked device stays as it is for the rest of the run |
| Standing.InviteUsedOnce | internal/relay/store/identity.go:95-119 | After an invite has enrolled a device every later attempt with it is refused |
| Standing.EnrolledAsInvited | internal/relay/store/identity.go:71-160 | Over every run, a device is enrolled for the person with the email its invite was created for, before the invite expires, and nobody enrolled with that invite before |
| Standing.InviteAdmits | internal/relay/store/identity.go:95-160 | And an unused invite, before its expiry, does admit a device with a new key |
| Outbound.Handler.SendMessage | internal/relay/mcp/outbound.go:39-101 | Exactly when it sends, when it asks first and when it refuses; the recipient is notified exactly when it sends, and by then the message has arrived |
| Outbound.Handler.ApproveReply | internal/relay/mcp/outbound.go:118-133 | Exactly when it releases; the recipient is notified exactly then, and by then the message has arrived; otherwise nothing changed |
| Registry.AddRegisters | internal/relay/ws.go:70-83 | Add registers the socket in its place and touches no other place |
| Registry.RemoveEvictsOnlyItself | internal/relay/ws.go:87-96 | Remove unregisters that socket where it is registered and no other, and leaves no empty row |
| Registry.AddThenRemove | internal/relay/ws.go:70-96 | A socket that superseded none leaves no trace |
| Hub.Hub.Add | internal/relay/ws.go:70-83 | The registry gains the socket; the one it supersedes is closed and no other |
| Hub.Hub.Remove | internal/relay/ws.go:87-96 | Computes the registry's Remove |
| Hub.Hub.CloseAll | internal/relay/ws.go:101-110 | Every registered socket closed, and none registered |
| Hub.Hub.Devices | internal/relay/ws.go:124-132 | Every registered socket is there under its device, and no other |
| Hub.Hub.Notify | internal/relay/ws.go:278-282 | Every socket of the person has its wake slot full; no other changes |
| Hub.Hub.SeverRevoked | internal/relay/ws.go:303-310 | Closes exactly the registered sockets of inactive devices |
| Hub.WsConn.DrainInbox | internal/relay/ws.go:245-272 | Pushes the inbox in order, all of it or up to the write that fails, which closes the socket, and marks exactly what it pushed as delivered |
| Delivery.EventKeeps | internal/relay/ws.go:168-282 | Every step of every handler, writer and Notify call keeps the protocol's invariant |
| Delivery.NoWakeUpLost | internal/relay/ws.go:168-189 | In every interleaving, each unacked message of a live socket is pushed, on the list being pushed, or owed a read by a writer that has not stopped |
| Delivery.SettledMeansPushed | internal/relay/ws.go:218-282 | With nothing in flight, a live socket has been pushed all its device's unacked mail |
| Delivery.PushedIsOwnMail | internal/relay/ws.go:251-262 | A socket is only ever pushed mail fanned out to its own device |
| Delivery.RegistryNeverLeaks | internal/relay/ws.go:70-132 | A registered socket's handler has not removed it, no row is empty, a device sits under one person, and the hub is empty once all handlers have removed |
| Delivery.RemoveSparesReplacement | internal/relay/ws.go:85-96 | A handler's deferred remove unregisters no other socket |
| Sockets.OpenUntilClosed | internal/relay/ws.go:70-272 | Over every run a socket is open exactly until its peer or the network, a failed push, its handler's end, a wake that finds its device revoked, its successor's handler or the shutdown closes it |
| Sockets.ClosedGetsNoMore | internal/relay/ws.go:257-267 | It then stays closed, and nothing more is pushed on it |
| Sockets.OneOpenSocket | internal/relay/ws.go:70-83 | In every interleaving a device has two open sockets with running handlers only while the handler of the one that superseded has still to close the other |
| Sockets.EndedIsClosed | internal/relay/ws.go:179-184 | No socket is left open by a handler that has ended |
| Sockets.SeveredCanEnd | internal/relay/ws.go:179-199 | The handler of a closed socket or a revoked device can end, whatever else is going on, and leaves nothing registered |
| Sockets.RevokedGetsNoMore | internal/relay/ws.go:241-272 | Over every run, once a device is revoked its socket is pushed at most the list already being pushed, unless its writer had just checked the device |
| Sockets.NoIdleWake | internal/relay/ws.go:216-239 | A writer wakes no more often than it was signalled |
| Progress.OwedCanBePaid | internal/relay/ws.go:168-282 | For each message a live socket still wants, some step of the relay itself towards that socket can go ahead and brings the push nearer |
| Progress.PushedInTheEnd | internal/relay/ws.go:168-282 | From every reachable state finitely many such steps push the message on that socket |
| Bridge.StoreStepIsDeliveryStep | internal/relay/store/message.go:161-193 | Every store transaction is one step of the protocol or none, and keeps its view of devices and delivery rows |
| Bridge.StoreRunIsDeliveryRun | internal/relay/mcp/outbound.go:88-97 | Every run of the store with fresh ids is a run of the protocol |
| Bridge.InboxIsUnacked | internal/relay/store/message.go:195-221 | Where store and protocol show the same devices and rows, a stored message is in a device's inbox exactly if the protocol has it unacked |
| Bridge.InboxCanBeRead | internal/relay/ws.go:251-256 | So the list the store's inbox returns is one the writer's read may take |
| Bridge.ReleasedIsPushed | internal/relay/mcp/outbound.go:118-133 | A released draft's message is pushed, by the relay's own steps, on every live socket of the recipient |
| OAuthTables.ReuseKillsFamilyOnly | internal/relay/store/oauth.go:204-227 | A detected reuse consumes every row of the family and touches no other |
| OAuthTables.SweepIsExact | internal/relay/store/oauth.go:251-282 | A sweep removes exactly what has expired, and exactly the clients thirty days old that no unexpired token names |
| OAuthTables.SweepSparesUsedClients | internal/relay/store/oauth.go:251-282 | A client that an unexpired token names survives the sweep |
| OAuthServer.Store.CreateAuthCode | internal/relay/store/oauth.go:89-103 | One new unconsumed code |
| OAuthServer.Store.AuthCodeByCode | internal/relay/store/oauth.go:111-125 | The binding of exactly the live codes, read without consuming |
| OAuthServer.Store.ConsumeAuthCode | internal/relay/store/oauth.go:131-148 | Exactly a live code is claimed, and then no longer live |
| OAuthServer.Store.ConsumeRefreshToken | internal/relay/store/oauth.go:180-236 | Rotation, refusal, or reuse with the family revoked and committed |
| OAuthServer.Store.SweepOAuth | internal/relay/store/oauth.go:251-282 | Expired codes and tokens, then idle clients go; their number is returned |
| OAuthServer.Store.TokenFromCode | internal/relay/oauth_token.go:46-83 | Exactly when it answers with tokens: no parameter missing, a live code bound to that client, redirect and verifier, its device not revoked, and a signature and token to be had; they are bound as the code was, which is then consumed. A request that does not match leaves the code as it was |
| OAuthServer.Store.TokenFromRefresh | internal/relay/oauth_token.go:85-109 | Exactly when it answers with tokens: a live token, its client or none named, its device not revoked, and a signature and token to be had; the successor is for the same grant. The token is consumed before the client is compared |
| OAuthServer.Store.IssueTokens | internal/relay/oauth_token.go:114-144 | Tokens exactly for a device not revoked, if a signature and a token are to be had: an access token for the grant's person and client type and a successor stored for thirty days; otherwise the error and no row |
| TokenRequests.StepConserves | internal/relay/oauth_token.go:46-144 | No step makes a family's outstanding tokens grow by more than the codes it claims |
| TokenRequests.TokensAreConserved | internal/relay/oauth_token.go:46-144 | In every interleaving, unconsumed tokens and requests holding a claim never exceed the codes claimed for the family |
| TokenRequests.AfterReuse | internal/relay/store/oauth.go:176-227 | After a reuse, only what was in flight at that commit and what new codes are claimed for can come back |
| TokenRequests.ClaimedOnceByItsClient | internal/relay/oauth_token.go:65-78 | A code is claimed at most once, by a request whose client, redirect and proof match its binding |
| TokenRequests.RotatedOnceInTime | internal/relay/store/oauth.go:176-200 | In every interleaving a refresh token is exchanged at most once, only if it was stored, and within thirty days of that |
| TokenRequests.WrongClientIsRefused | internal/relay/oauth_token.go:91-107 | A request that names another client than the token's is refused for good, and the token is spent all the same |
| TokenRequests.UnusedTokenRotates | internal/relay/store/oauth.go:180-200 | And one that nothing has used or revoked since it was stored is exchanged for a request of its client in that time |
| TokenRequests.RevokedIsNeverAnswered | internal/relay/oauth_token.go:114-119 | In every interleaving, a request whose device check comes after the device was revoked is refused for good |
| TokenRequests.AnsweredWasChecked | internal/relay/oauth_token.go:114-144 | Every answered request found the device of its grant not revoked, and its token is stored for that grant |
| TokenRequests.UnclaimedIsIntact | internal/relay/store/oauth.go:105-110 | Until a matching request claims it or a sweep passes its expiry, a code's row stays as issued |
| TokenRequests.MatchingRequestMatches | internal/relay/oauth_token.go:56-71 | After any number of other requests, interleaved anyhow, a matching one before expiry passes the check while nobody has claimed the code |
| TokenRequests.MatchingRequestClaims | internal/relay/oauth_token.go:72-83 | And whenever it gets to claim, with the code still unclaimed, it holds a grant bound as the code was issued |

## Left out

- Float parsing and shortest digits: `strconv` decides them. What is proved of number text holds for every digit string and
  exponent; that canonical text is stable needs the stated property of `Rounding`, that shortest digits round to themselves.
- Canonical.SortNames: the library sort is a selection sort here; only its result matters, and that is proved unique.
- Strings that are not valid UTF-8: Go replaces their bad bytes when it marshals, before anything is signed, and when it
  reads; the grammar here is over valid UTF-8, and a lone surrogate escape stands for U+FFFD as it does in Go.
- JsonReader: the Go decoder's limit on nesting depth is not modelled.
- Envelope.SignedBytesDecode: field names are matched exactly, where Go also takes other cases of letters; the decoder of
  `sig` (base64) is not modelled, because signed bytes have none.
- Envelope.SignedBytesInjective: writes every version exactly, where Canonical passes it through a double; beyond 2^53 that
  can round, as BytesThroughDoubles says. Only version 1 is ever signed or accepted.
- Envelope: `sent_at` is the text it is marshalled as, and in the store a number of nanoseconds.
- Delivery: cancellation of the server's base context is not modelled, because a hijacked connection's context ends only
  with its handler. Closing a socket because of a failed write, a gone peer or severRevoked is one step, possible any time.
- Bridge.StoreRunIsDeliveryRun: supposes that no message id comes in twice in the run; once its tombstone is pruned the
  store itself would let one in again under a new signed time.
- OAuthServer: signing the access token and drawing a random token are asked of the outside; HTTP bodies and statuses and
  the dispatch on `grant_type` are not modelled.
- Display labels, creation times and `updated_at`: nothing modelled reads them.
- Store.Relay.InboundAwaiting: leaves the order within a second open, as its query does.
- Redaction and `defang`: they live in regular expressions.
- wait_for_activity, the standalone gate tables, ThreadFor and the roster queries: polling and single-row reads whose
  properties follow from the queries modelled here.
- HTTP routing, JSON wire structs, the login page, logging, configuration, the command line, key files and migrations.
- Ed25519, SHA-256, JWT, UUID and SQLite internals: ideal, as said above.
