# Verified model of an XMPP client library

This project models the parts of an XMPP client library that keep state over
unbounded runs or transform unbounded data, and proves what they are meant to
keep. `dafny verify dfyconfig.toml` verifies all of it.

| file | what it models |
|---|---|
| `StreamManagement.dfy`, `StreamRuns.dfy`, `StreamLoss.dfy` | XEP-0198: wrapping 32-bit counters and the queue of unacknowledged stanzas; runs with a first-in first-out server, breaks, resumptions and replays; when a run can lose a stanza |
| `Plugins.dfy` | plugin loading: the mutually recursive depth-first search over factories, and shutdown |
| `Correlation.dfy`, `Requests.dfy`, `Mam.dfy`, `Queries.dfy` | one reader, many requesters, one-slot channels and a table under a lock, and whole requests over them; concurrent MAM queries on top of it, and whole queries |
| `Scram.dfy`, `ScramServer.dfy` | PBKDF2's loop nest and the SCRAM client; a server of RFC 5802 that holds only the stored keys |
| `XmlTree.dfy`, `Stanzas.dfy`, `Forms.dfy` | the XML tree and its token stream, and the stanza and data-form codecs over it |
| `OmemoStore.dfy`, `OmemoXml.dfy`, `OmemoManager.dfy`, `OmemoMessages.dfy` | OMEMO: the string-keyed store, trust policies, the element codecs, target selection and key wrapping, and a message's way from one body to the other |
| `Dispatch.dfy` | the event bus and the handler registry: stable priority order under in-place insertion and removal |
| `Jids.dfy` | JID parsing and printing, and localpart escaping |
| `Wrappers.dfy`, `Text.dfy`, `Numerals.dfy`, `Encoding.dfy` | result types, the string, number and byte functions the rest relies on |

Protocols are state machines: a `System`, a `Step`, `CanStep` and `Next`, with an
invariant that every step keeps and theorems about the state after any run.
Objects the library updates in place are classes whose methods are proved equal to
the same transition functions. Codecs work on trees and tokens; since each one
normalises what it prints, its law is `parse(print(x)) == norm(x)`, beside what is
true of `norm`.

HMAC, hash, base64, the text-to-bytes conversion, the AEAD cipher, the session
backend, regular expressions and case folding are parameters. What is assumed of
them is a predicate that the theorems require: `Sized`, `Faithful`, `Ideal`,
`Undoes`, `CaseFold`.

## Where the code does less than it seems to

- Acknowledgements are exact only while fewer than 2^32 stanzas are newly confirmed
  at once (`AckExact` is an equivalence).
- Sending writes first and records afterwards (`xmpp/client.go:374-377`). What that
  pair must respect so that no stanza is lost is a guard on each step, and the guards
  are exact (`NoLoss`, `GuardExact`). One sender keeps them if it replays the queue
  after a resumption only when every stanza between its write and its record has been
  handled, as it has when there is none; otherwise it can lose that stanza
  (`SingleSenderNoLoss`, `ReplayCanLose`). Two
  senders can record in another order than they write, and lose a stanza exactly when
  it is not yet handled and the queue lags by less than it overtakes (`OutOfOrderIff`,
  `TwoSendersCanLose`).
- An acknowledgement can overtake the record and then leaves a handled stanza in the
  queue: the queue is exact if and only if that never happens
  (`ExactIffNeverOvertaken`, `SingleSenderCanLag`).
- Nothing in the library replays the queue. An application can write it again with
  `SendNode` or `RawSend`, which record nothing; sent with `Send`, it is recorded again: the server misses nothing, but the copies stay queued
  after they are handled (`RecordedReplay`, `ReplayAgain`).
- A reply is matched by its id alone, so an id that the caller chooses twice does
  confuse replies (`MatchingReplyTaken`); drawn ids do not repeat below 2^64
  (`LateReplyIsolated`).
- The normal form of a stanza is not always a fixed point. `NormLocalizedFixedIff`
  says exactly when it is, `NormLocalizedMoves` shows one that is not, and two trips
  always settle.
- A data form with an unknown validation method loses it on the first trip and gains
  `basic` on the second (`NormFormFixedIff`).
- Emitting `*` runs each wildcard handler twice, also one registered to run once
  (`EmitRuns`, `WildcardRunsTwice`).
- JID parsing strips a single trailing dot from the domain, so printing and parsing
  again gives back the same JID if and only if the domain does not still end in a dot
  or in white space (`ParsePrintIff`).
- The SCRAM client refuses an empty salt and more than ten million iterations; the
  exact condition for its answer is `ChallengeAcceptedIff`. A success with blank text
  is accepted without any signature, so the exchange proves the server's knowledge of
  the key only when there is text (`SuccessAcceptedIff`).
- Encrypting replaces the main body only. The list of bodies keeps every other entry,
  in whatever language, and so does the subject; a message that was itself received
  lists its main body, so encrypting it anew sends that text readable beside the
  envelope (`BodySentReadableIff`, `ReceivedBodySentReadable`).
- Two JIDs may share a device id. The key found for a device is the one wrapped for
  the first recipient with its id, its own exactly when no earlier recipient of
  another JID has that id (`KeyServed`, `SharedIdTakesFirst`).

## Model

| member | source | states |
|---|---|---|
| StreamManagement.WrapMinus | xep/client_control.go:378 | unsigned 32-bit subtraction of two wrapped counts is their true difference modulo 2^32, over any number of wraparounds |
| StreamManagement.AckExact | xep/client_control.go:375-386 | an acknowledgement of the true count leaves exactly the stanzas after it in the queue if and only if fewer than 2^32 were newly confirmed |
| StreamManagement.AckSafe | xep/client_control.go:375-386 | also when the count runs ahead of the record, the queue never skips past the stanza the count stands at |
| StreamManagement.AckNodeReads | xep/client_control.go:349-359 | an acknowledgement element printed with a count is applied with that count |
| StreamManagement.ResumedNodeReads | xep/client_control.go:361-368 | a resumption element applies its count, switches stream management on and takes over the id |
| StreamManagement.EnabledNodeReads | xep/client_control.go:387-398 | the parsed state is what the enabling element says, with zero counters and an empty queue |
| StreamManagement.ResumeNodeReads | xep/client_control.go:310-315 | the offer to resume carries the stream id and the received count in a form that reads back |
| StreamManagement.RequestAnswered | xep/client_control.go:343-352 | a request is answered with the count of stanzas received, in a form that reads back |
| StreamManagement.OthersLeaveState | xep/client_control.go:337-374 | no element but an acknowledgement and a resumption changes the state; a refused resumption leaves the queue alone |
| StreamManagement.Reactions | xep/client_control.go:337-374 | for every element and state: which are answered, and with what, which are applied, which are errors, and which are passed over |
| StreamManagement.BadAckLeavesState | xep/client_control.go:353-358 | an acknowledgement without a 32-bit count changes nothing |
| StreamManagement.ResumedCount | xep/client_control.go:361-368 | a resumption is applied whatever its count: zero if it is no number, the largest one if it does not fit; the other counters stay |
| StreamManagement.DisabledCountsNothing | xep/client_control.go:316-352 | before stream management is on nothing is counted, queued or answered |
| StreamManagement.EnabledResume | xep/client_control.go:391-393 | resumption is on for "true" and "1" alone |
| StreamRuns.BasicStep | xep/client_control.go:316-386 | what every step keeps, in whatever order stanzas are recorded and however the stream is reopened: the queue is a suffix of the record, the counters are the true counts modulo 2^32, and the counts in transit are in order |
| StreamRuns.BasicRun | xep/client_control.go:316-386 | so it is after any run from such a state |
| StreamRuns.StepsReadElements | xep/client_control.go:337-374 | the steps of the runs that read an element change the state as the element handler does |
| StreamRuns.RefusedKeepsAll | xep/client_control.go:370-371 | a refused resumption is a step that changes nothing, so that what holds of all runs holds of those with refusals |
| StreamRuns.TimelyStepIff | xmpp/client.go:367-379 | from a state in which every stanza is handled before an acknowledgement removes it, a step leads to such a state if and only if its guard holds: a record jumps the order of writes no further than the stanza stays on time, a replay finds every stanza in flight handled, and going on without a replay finds the queue handled, too |
| StreamRuns.NoLoss | xep/client_control.go:316-386 | in every run that keeps the guards, replays included, each recorded stanza the server has not handled is in the queue at its place |
| StreamRuns.SingleSenderGuarded | xmpp/client.go:374-377 | one sender, whose records follow the order of its writes, keeps every guard if and only if it keeps those of the steps that reopen the stream |
| StreamRuns.SingleSenderNoLoss | xmpp/client.go:374-377 | a single sender that replays the queue only when all its stanzas in flight have been handled, for instance when there are none, loses no stanza in any run |
| StreamRuns.OrderedRun | xep/client_control.go:316-386 | with records in order, until the stream is reopened after a break, the server handles and is sent what was written, in that order |
| StreamRuns.LagStep | xep/client_control.go:316-386 | what each step does to the distance between the confirmed count and the head of the queue, exactly, for every order of records and every reopening |
| StreamRuns.ExactIffNeverOvertaken | xmpp/client.go:367-379 | at the end of any run the queue is the record from the confirmed count on if and only if no acknowledgement counted more stanzas than were recorded when it was read |
| StreamRuns.LagBounded | xmpp/client.go:367-379 | with at most k stanzas ever between write and record, that distance is at most k until the stream is first reopened, and gains at most k each time it is |
| StreamRuns.AtomicExact | xep/client_control.go:316-386 | with write and record atomic and the queue replayed without recording it, in every reachable state the queue is the history from the acknowledged count on, the counters are the true counts modulo 2^32, the server handled a prefix of what was sent, and after a resumption that prefix followed by the queue is everything sent |
| StreamLoss.TimelyIff | xep/client_control.go:316-386 | a state is safe in this sense if and only if no run of a single sender without replays loses a stanza from it |
| StreamLoss.GuardExact | xep/client_control.go:361-386 | after a run that kept the guards, a step keeps its guard if and only if, whatever a single sender does next without a replay, no stanza is lost, as long as the counts stay within 2^32; so a replay, or a record out of order, against its guard has a continuation that loses one |
| StreamLoss.OutOfOrderIff | xmpp/client.go:374-377 | recording the stanza that was written i places later than the next one lets the server alone lose it if and only if it has not been handled and the lag is less than i |
| StreamLoss.OutOfOrderAfterRun | xmpp/client.go:374-377 | the same after every run of records in order before the stream is reopened |
| StreamLoss.SingleSenderCanLag | xmpp/client.go:374-377 | a run of one sender from the installed state that leaves one handled stanza in the queue |
| StreamLoss.TwoSendersCanLose | xmpp/client.go:374-377 | a run of two senders from the installed state that removes a stanza the server has not handled |
| StreamLoss.ReplayCanLose | xmpp/client.go:374-377 | a run of one sender from the installed state that replays the queue while a stanza is between write and record, and loses it |
| StreamLoss.RecordedReplay | xmpp/client.go:367-379 | when the queue is sent again with Send, which records it again, the server handles a copy of each stanza after what it had handled, and the acknowledgement removes the originals; but the copies stay queued although handled, and the outbound counter runs ahead by their number |
| StreamLoss.ReplayAgain | xep/client_control.go:361-368 | the next resumption replays whatever is queued, the handled copies included |
| StreamManagement.Tracker.Install | xep/client_control.go:288-292 | the last step of Enable installs the parsed state with zero counters and an empty queue |
| StreamManagement.Tracker.Sent | xep/client_control.go:316-328 | recording a sent stanza in place is the transition OnSent |
| StreamManagement.Tracker.Received | xep/client_control.go:329-336 | counting a received stanza in place is the transition OnReceived |
| StreamManagement.Tracker.Ack | xep/client_control.go:375-386 | the in-place queue trimming is the transition ApplyAck |
| StreamManagement.Tracker.Resumption | xep/client_control.go:361-368 | an accepted resumption trims the queue by its count, switches stream management on and takes over the id, and changes nothing else |
| StreamManagement.Tracker.Element | xep/client_control.go:337-374 | the element handler, with its error for a count that does not parse in an acknowledgement and its tolerance in a resumption |
| Plugins.UseKeeps | xmpp/plugin.go:73-103 | Use keeps the manager consistent, restores what is in progress on success and failure alike, and only adds plugins of the graph that were not in progress and initialised |
| Plugins.LoadKeeps | xmpp/plugin.go:104-120 | the same for Load |
| Plugins.LoadFailure | xmpp/plugin.go:104-120 | every failure points at a walk of unloaded plugins, neither repeated nor in progress before its end, and the error says what is wrong at that end: no factory, a failed initialisation, or a plugin in progress or met before |
| Plugins.UseFailure | xmpp/plugin.go:73-103 | the same for Use; a plugin without a factory of its own that comes again is reported as unknown |
| Plugins.SuccessSound | xmpp/plugin.go:73-120 | after a success every walk of dependencies that was unloaded before is free of cycles and ends at a plugin that has a factory and initialises |
| Plugins.LoadSucceedsIff | xmpp/plugin.go:73-120 | with nothing in progress, Load succeeds if and only if every walk of unloaded plugins from the name ends at one with a factory that initialises and repeats none; diamonds are accepted |
| Plugins.UseSucceedsIff | xmpp/plugin.go:73-120 | the same for Use, in the graph that holds the given plugin under its own name |
| Plugins.DependenciesStay | xmpp/plugin.go:89-96 | dependencies loaded before a later one fails, or before the plugin itself fails to initialise, stay loaded and keep their places in the order |
| Plugins.NothingToDo | xmpp/plugin.go:74-81 | a plugin without a name is refused, one already loaded is accepted, and neither call changes anything |
| Plugins.RegistersIff | xmpp/plugin.go:61-72 | a factory is registered exactly under a name that is not empty and not taken, and no other changes |
| Plugins.RunConsistent | xmpp/plugin.go:61-120 | after any sequence of calls, failed ones included, the order lists each loaded plugin once and after its dependencies, and nothing is in progress |
| Plugins.ShutdownBeforeDependencies | xmpp/plugin.go:162-177 | the shutdown order meets every plugin before anything it depends on |
| Plugins.FailingMembers | xmpp/plugin.go:162-177 | those are exactly the visited plugins whose shutdown fails, each once |
| Plugins.PluginManager.Register | xmpp/plugin.go:61-72 | registering refuses an empty name, a missing factory and a name taken, and otherwise adds the factory |
| Plugins.PluginManager.UsePlugin | xmpp/plugin.go:73-103 | the in-place recursion computes Use, for every state and outcome, and the order lists exactly the plugins whose Init has run and succeeded, failed calls included |
| Plugins.PluginManager.LoadDependencies | xmpp/plugin.go:89-93 | the dependency loop stops at the first failure and keeps what was loaded before, the order still being the successful Inits |
| Plugins.PluginManager.LoadPlugin | xmpp/plugin.go:104-120 | the in-place Load computes Load, with the order being the successful Inits |
| Plugins.PluginManager.Shutdown | xmpp/plugin.go:162-177 | the backward loop visits the reverse of the order and collects the errors of the plugins that fail, in that order |
| Correlation.NextIdInjective | xmpp/client.go:84 | ids printed in base 36 do not repeat below 2^64 draws |
| Correlation.StepKeeps | xmpp/client.go:405-487 | every step of requesters, reader, timeouts and close keeps the invariant |
| Correlation.PendingExact | xmpp/client.go:405-487 | in every interleaving the table holds exactly the live requests, each mapped to its own channel |
| Correlation.ResponseIsFirstReply | xmpp/client.go:405-446 | a response returned is the first reply with the request's id that the reader took after the request registered |
| Correlation.WaitingHoldsReply | xmpp/client.go:474-484 | a reply offered to a request still waiting is in its channel |
| Correlation.ReaderNeverBlocks | xmpp/client.go:451-487 | the reader can always finish a delivery, and otherwise take any stanza |
| Correlation.DuplicateRefused | xmpp/client.go:420-427 | a duplicate id is refused and neither the owner nor the table changes |
| Correlation.LateReplyIsolated | xmpp/client.go:405-446 | with drawn ids below 2^64 draws, a reply to one request never reaches another |
| Correlation.MatchingReplyTaken | xmpp/client.go:432-484 | from any state with the reader idle, a reply with a waiting request's id is returned by that request, whoever it was meant for |
| Requests.AcceptedIff | xmpp/client.go:405-411 | a request is accepted exactly if its type is get or set, and a missing id is drawn |
| Requests.RequestAnswered | xmpp/client.go:405-446 | from any state with the reader idle and the id free, a request runs to its end: whatever else arrives, it returns the reply with its id, a result or an error, and the table is as before |
| Requests.RequestNotSent | xmpp/client.go:429-431 | a request that cannot be sent returns that error and leaves no entry |
| Requests.RequestTimesOut | xmpp/client.go:438-442 | a request whose time is up says so and leaves no entry |
| Requests.RequestClosed | xmpp/client.go:443-445 | a request waiting when the client closes says so and leaves no entry |
| Requests.RequestDuplicate | xmpp/client.go:421-425 | a request whose id is taken says so and changes nothing else |
| Requests.OutcomeHasCause | xmpp/client.go:405-446 | each outcome comes of its own cause: a response of the reply in the channel, a timeout of the timeout, and so on |
| Correlation.Client.NextID | xmpp/client.go:84 | the n-th call returns the n-th id, also after the 64-bit counter wraps |
| Correlation.Client.RegisterRequest | xmpp/client.go:421-427 | the critical section that registers a channel unless the id is taken |
| Correlation.Client.FindChannel | xmpp/client.go:475-477 | the critical section that looks up the channel of a reply |
| Correlation.Client.RemoveRequest | xmpp/client.go:428 | the deferred removal |
| Mam.StepKeeps | xep/mam.go:64-139 | every step of any number of concurrent queries over the IQ layer keeps the invariant: buffers are registered for exactly the open queries and hold what has arrived for them |
| Mam.QueryExact | xep/mam.go:64-139 | in every interleaving, against a server that sends a query's results before its fin and none after, a page is exactly the well-formed results with the query's id that ever arrived, in arrival order |
| Mam.PageIsWindow | xep/mam.go:64-139 | whatever the server does, a page is the well-formed results with the query's id in one contiguous part of the arrivals |
| Queries.PageIff | xep/mam.go:81-96 | a query returns a page exactly if its request is answered by a result with a valid fin, and then all that was collected |
| Queries.QueryCompletes | xep/mam.go:64-97 | from any state with the reader idle and the ids free, a query runs to its end: a valid fin returns the results with its id among all that arrived, in that order, and an error or an invalid fin fails it |
| Mam.Archive.RegisterQuery | xep/mam.go:65-69 | the critical section that registers a query's buffer before the request is sent |
| Mam.Archive.HandleResult | xep/mam.go:125-140 | the handler appends a well-formed result to the buffer of its query, and ignores the rest |
| Mam.Archive.RemoveQuery | xep/mam.go:70 | the deferred removal of the buffer |
| Scram.XorBytes | xmpp/sasl.go:259-265 | the loop computes the bytewise XOR, of the first operand's length |
| Scram.XorUndoes | xmpp/sasl.go:259-265 | XOR with the same bytes gives the original back |
| Scram.BigEndianDenotes | xmpp/sasl.go:227-248 | the block index bytes denote the index, most significant first, modulo 2^32 |
| Scram.DeriveKey | xmpp/sasl.go:227-248 | the loop nest computes the recursive PBKDF2 of section 5.2 of RFC 8018 for every length and iteration count, counts below one acting as one |
| Scram.DeriveBlock | xmpp/sasl.go:230-246 | one block is the XOR of the whole chain of that block |
| Scram.BlocksPrefix | xmpp/sasl.go:227-248 | a shorter key is a prefix of a longer one of the same inputs |
| Scram.ParseAttributesLoop | xmpp/sasl.go:213-226 | the loop yields the attribute map, or the first malformed or repeated part |
| Scram.ParseJoined | xmpp/sasl.go:213-226 | splitting a message gives back exactly the attributes it was joined from |
| Scram.AttributesReadIff | xmpp/sasl.go:213-226 | a message is read exactly when each part is a key, an equals sign and a value and no key repeats; each value is found under its key |
| Scram.EscapeInvertible | xmpp/sasl.go:130-132 | user name escaping is invertible by the reading of section 5.1 of RFC 5802 and leaves no comma |
| Scram.ChallengeReads | xmpp/sasl.go:153-168 | the outcome of reading any challenge a server can put together, with every refusal |
| Scram.ChallengeAcceptedIff | xmpp/sasl.go:153-168 | the client answers if and only if its nonce was extended, the salt is not empty and the count is between one and ten million |
| Scram.ReadChallengeIff | xmpp/sasl.go:153-168 | whatever text a server sends, it is accepted exactly when it can be read, properly extends the nonce, has a salt that decodes and a count between one and ten million |
| Scram.SignatureAcceptedIff | xmpp/sasl.go:193-209 | the signature of a server-final message is accepted if and only if it is the one the client expects |
| Scram.SuccessAcceptedIff | xmpp/sasl.go:193-209 | whatever text comes with success, it is accepted if and only if it is blank or carries the expected signature |
| Scram.ReportedErrorRefused | xmpp/sasl.go:202-204 | an error the server reports is refused even beside the expected signature |
| ScramServer.SameKeys | xmpp/sasl.go:169-177 | the client derives the keys that section 3 of RFC 5802 sets up for the password |
| ScramServer.SameSigned | xmpp/sasl.go:172-173 | what the client signs is the messages as the server received them, without the proof |
| ScramServer.ProofAccepted | xmpp/sasl.go:169-175 | a server that knows only the stored key recovers the client key from the proof and finds its hash |
| ScramServer.ExchangeSucceeds | xmpp/sasl.go:124-211 | for every user, password, salt, count and nonces, a server with the account set up for the same password, which signs the messages as it received them, accepts the proof, and the client accepts its signature; the server learns every user name that is not empty |
| XmlTree.SetAttrReads | xmpp/node.go:38-62 | a set attribute reads back and no other changes |
| XmlTree.FirstNamedIs | xmpp/node.go:103-114 | the child found is the first that goes by the name, an empty namespace standing for any |
| XmlTree.NodeBuilder.SetAttrNS | xmpp/node.go:41-49 | the in-place loop replaces the first attribute of the name or appends one |
| XmlTree.NodeBuilder.AppendText | xmpp/node.go:65-74 | appended text vanishes when empty and merges with text before it |
| XmlTree.NodeBuilder.AppendChild | xmpp/node.go:77 | a child is appended after everything before it |
| XmlTree.Marshal | xmpp/node.go:193-213 | printing succeeds on exactly the trees whose elements all have a local name, and yields the tree's tokens |
| XmlTree.Unmarshal | xmpp/node.go:216-241 | the reading loop computes the recursive reading of one element, its content and the unread rest, or the unexpected end |
| XmlTree.NormFixed | xmpp/node.go:65-98 | a tree is its own normal form if and only if no text in it is empty and no two are adjacent |
| XmlTree.NormIdempotent | xmpp/node.go:65-98 | normalising twice is normalising once |
| XmlTree.NormPreserves | xmpp/node.go:80-98 | the normal form has the same text, and the same children up to their normal forms |
| XmlTree.ReadPrinted | xmpp/node.go:193-241 | reading a printed tree followed by any tokens consumes exactly that tree and yields its normal form |
| XmlTree.TruncatedRefused | xmpp/node.go:216-241 | no proper prefix of a printed tree is read as an element |
| XmlTree.MiscIgnored | xmpp/node.go:216-241 | comments, processing instructions and directives do not matter to what is read, wherever they stand |
| Stanzas.WriteTexts | xmpp/stanza.go:154-202 | the loop writes the main text first and every other text once, leaving out copies of the main one |
| Stanzas.NormLocalizedFixedIff | xmpp/stanza.go:154-202 | the normal form of a text in several languages is a fixed point if and only if the main text is set, no written text lacks a language, or the main text leads the written ones and occurs once |
| Stanzas.NormLocalizedTwice | xmpp/stanza.go:154-202 | two trips always reach a fixed point |
| Stanzas.NormLocalizedMoves | xmpp/stanza.go:154-202 | a text list that the second trip reorders |
| Stanzas.ErrorReads | xmpp/stanza.go:385-421 | a printed error parses to its normal form, whatever its extra elements are |
| Stanzas.NormErrorOrdinary | xmpp/stanza.go:385-421 | an error whose condition is not "text" and whose extra elements avoid the error namespace keeps every field |
| Stanzas.MessageReads | xmpp/stanza.go:154-202 | a printed message parses to its normal form when no extension uses a reserved local name |
| Stanzas.PresenceReads | xmpp/stanza.go:203-242 | the same for presences, with the priority read back |
| Stanzas.IqReads | xmpp/stanza.go:243-263 | the same for IQs |
| Stanzas.NormMessageFixedIff | xmpp/stanza.go:154-202 | a message's normal form is a fixed point if and only if its subject and body are settled |
| Stanzas.NormMessageTwice | xmpp/stanza.go:154-202 | two trips reach a fixed point for every message |
| Stanzas.NormPresenceFixedIff | xmpp/stanza.go:203-242 | a presence's normal form is a fixed point if and only if its status is settled |
| Stanzas.NormIqIdempotent | xmpp/stanza.go:243-263 | an IQ's normal form is always a fixed point |
| Stanzas.MarshalStanza | xmpp/stanza.go:154-263 | marshalling fails on exactly the stanzas with an unnamed element, a presence priority outside -128 to 127, or an IQ without id or type |
| Stanzas.PrintableIff | xmpp/stanza.go:154-263 | these are exactly the stanzas with an unnamed extension or error element, a priority out of range, or an IQ without id or type; nothing the library adds keeps a stanza from being printed |
| Stanzas.MessageOnWire | xmpp/stanza.go:154-202 | what others see of a message: the main subject, body and thread in the first children of those names, and an error exactly if there is one |
| Stanzas.PriorityTaken | xmpp/stanza.go:324-327 | a presence takes the trimmed number as its priority, and keeps what it had if there is none |
| Stanzas.ParseStanza | xmpp/stanza.go:281-348 | the parsing loops compute the parse of the root's children, or none for another root |
| Stanzas.StanzaRoundTrip | xmpp/stanza.go:154-348 | a marshalled stanza, whatever follows it in the stream, reads back as its normal form and leaves the rest |
| Stanzas.StanzaSurvivesIff | xmpp/stanza.go:154-348 | a stanza comes back unchanged, every field of it, exactly if its texts lead with the main one and have it once, a parent comes with a thread, its extensions are normal and its error does not misuse the error namespace |
| Forms.ValidationReads | xep/forms.go:164-201 | a printed validation parses to the one with the method defaulted to basic, an unknown method lost, and bounds and pattern of other methods dropped |
| Forms.MediaReads | xep/forms.go:202-218 | printed media keep their URIs and positive sizes; other sizes come back as zero |
| Forms.FieldReads | xep/forms.go:128-163 | a printed field parses to the same field with validation and media normalised |
| Forms.FormReads | xep/forms.go:98-266 | every printed form parses, to the form with all its fields normalised |
| Forms.FormRoundTrip | xep/forms.go:98-266 | the same through the token stream, whatever follows |
| Forms.FormAcceptedIff | xep/forms.go:219-222 | exactly the elements of the right name are forms, and unknown children are passed over |
| Forms.SizeTaken | xep/forms.go:326-333 | a media size that is no number is zero, and one that does not fit is the nearest that does |
| Forms.BoundTaken | xep/forms.go:312-322 | a list bound that is no number leaves the bound as it was |
| Forms.FormSurvivesIff | xep/forms.go:98-343 | a form comes back unchanged if and only if all its validations are canonical and no media size is negative |
| Forms.NormFormFixedIff | xep/forms.go:164-325 | a second trip changes nothing if and only if every validation method is known or left to the default; a third never does |
| Forms.ValidateField | xep/forms.go:352-399 | the check refuses exactly the fields that break one of its rules, and its complaint is true of the field |
| Forms.InvalidIff | xep/forms.go:352-399 | a field is invalid exactly if some complaint about it is justified |
| Forms.RulesSpelledOut | xep/forms.go:356-374 | which types take one value, which texts are booleans, and which values the options allow |
| Forms.ValidateForm | xep/forms.go:344-351 | the check names the first invalid field and accepts when there is none |
| Forms.ValidationSurvives | xep/forms.go:98-399 | a form is valid exactly when what a peer parses of it is, for every form |
| Forms.SetReads | xep/forms.go:81-97 | set values read back and the values of other fields stay |
| Forms.FormEditor.Set | xep/forms.go:89-97 | the in-place loop replaces the values of the first field of the name or appends a text field |
| Forms.ParseFormNode | xep/forms.go:219-266 | the loop over the children computes the parse, or refuses another root |
| OmemoStore.ShowInjective | omemo/types.go:36-41 | different addresses print differently, whatever colons the JIDs hold |
| OmemoStore.ReadKeyShow | omemo/store.go:153-164 | a printed address is read back as itself exactly when its JID is not empty and its device id is not zero |
| OmemoStore.StandsPut | omemo/store.go:116-141 | writing under a printed address is writing under the address |
| OmemoStore.Unique | omemo/store.go:258-268 | the kept ids are exactly the non-zero ones, without repeats |
| OmemoStore.UniquePrefix | omemo/store.go:258-268 | later ids never move earlier ones, so each stays at its first place |
| OmemoStore.UniqueFixedIff | omemo/store.go:258-268 | a list is kept as it is if and only if it has no zero and no repeat |
| OmemoStore.UniqueDevices | omemo/store.go:258-268 | the loop with its table of seen ids computes that list |
| OmemoStore.MemoryStore.OwnDeviceId | omemo/store.go:58-81 | an id is drawn only for a store without one, is never zero, and is returned from then on |
| OmemoStore.MemoryStore.SetOwnDeviceId | omemo/store.go:82-91 | any id but zero replaces the own id |
| OmemoStore.MemoryStore.PutDeviceList | omemo/store.go:99-109 | a list is stored without zeros and repeats, dated now if undated |
| OmemoStore.MemoryStore.PutBundle | omemo/store.go:116-122 | the string-keyed write refines the address-keyed one |
| OmemoStore.MemoryStore.Trust | omemo/store.go:123-131 | the level stored for the address, undecided when there is none |
| OmemoStore.MemoryStore.SetTrust | omemo/store.go:132-141 | one of the five levels is stored for the address; any other is refused and changes nothing |
| OmemoStore.MemoryStore.KnownAddresses | omemo/store.go:142-166 | exactly the well-formed addresses with a bundle or a trust entry, each once |
| OmemoStore.ComputeTrust | omemo/manager.go:484-518 | the walk computes the effective trust: under blind trust an undecided device is trusted exactly when no well-formed address of its JID is verified; an invalid policy fails only for undecided devices |
| OmemoStore.MayReceiveIff | omemo/manager.go:484-518 | who may be given a key, policy by policy |
| OmemoStore.VerifyingEndsBlindTrust | omemo/manager.go:497-514 | verifying a device ends the blind trust of exactly the undecided devices of its JID |
| OmemoStore.TrustIgnoresBundles | omemo/manager.go:497-514 | storing bundles never changes effective trust |
| OmemoXml.DeviceListReads | omemo/xml.go:14-41 | a printed device list parses to its distinct non-zero ids, whatever list was printed |
| OmemoXml.BundleReads | omemo/xml.go:42-110 | a printed bundle parses to itself exactly when its three mandatory byte strings are not empty, and is refused otherwise |
| OmemoXml.EnvelopeReads | omemo/xml.go:111-178 | a printed envelope, its empty payload left out, parses to itself exactly when all device ids are non-zero and it has a vector and a key; otherwise with which error |
| OmemoXml.EnvelopeOnWire | omemo/xml.go:111-129 | what others see of an envelope: the header with the sender, an element for each key with its device and bytes, the vector, and the payload if there is one |
| OmemoXml.AcceptedEnvelope | omemo/xml.go:130-178 | every envelope accepted of a peer names a sender, is addressed throughout, and has a vector and a key |
| OmemoXml.AcceptedLists | omemo/xml.go:23-110 | every bundle accepted of a peer is complete, and every device list is without zeros and repeats |
| OmemoXml.KeyTaken | omemo/xml.go:146-160 | a key is taken exactly if its device id and bytes can be read, and its flag is on for "true" and "1" |
| OmemoXml.KeyForFirst | omemo/xml.go:179-186 | the key found is the first one with the device id |
| OmemoXml.KeyForNone | omemo/xml.go:179-186 | a key is found exactly if one has the device id |
| OmemoXml.SharedIdTakesFirst | omemo/xml.go:179-186 | of two keys with one device id the first is found for both |
| OmemoXml.DeviceIdReads | omemo/xml.go:187-193 | a printed device id is read back exactly when it is not zero |
| OmemoXml.ParseDeviceListLoop | omemo/xml.go:23-41 | the loop computes the parse and stops at the first bad id |
| OmemoXml.ParseHeaderLoop | omemo/xml.go:138-167 | the loop over the header computes the parse and stops at the first bad key or vector |
| OmemoXml.FindKey | omemo/xml.go:179-186 | the loop finds the first key with the device id |
| OmemoManager.OpenUndoesSeal | omemo/manager.go:525-571 | the key and tag re-joined with the payload open to the sealed text, and the payload is empty exactly when the text is |
| OmemoManager.OpenIff | omemo/manager.go:548-571 | the payload opens exactly with key material of 32 bytes, a vector of 12 and an authentic text, and every other case has its own error |
| OmemoManager.SessionReadyIff | omemo/manager.go:239-256 | a session is ready exactly if there is one, or if one can be built on the bundle that is stored or fetched |
| OmemoManager.EnsureSession | omemo/manager.go:212-256 | a session is there, or the first error of looking, fetching or building; a bundle that was needed and fetched is stored, one that was stored stays, and nothing else changes |
| OmemoManager.BareOfIs | xmpp/stanza.go:440-445 | the resource is cut off at the first slash, and a bare JID is left alone |
| OmemoManager.StoredListAnswers | omemo/manager.go:201-211 | a stored list answers while it is no older than its time to live |
| OmemoManager.FetchedListAnswers | omemo/manager.go:176-211 | otherwise the fetched list answers, and again until it is too old, without zeros and repeats; a failed request changes nothing |
| OmemoManager.GetDevices | omemo/manager.go:176-211 | a list stored less than its time to live ago answers; otherwise the fetched one answers and is stored without zeros and repeats, or the lookup fails |
| OmemoManager.LookUpAllKeeps | omemo/manager.go:317-341 | the lookups of a call change the stored lists only, and bring in no zero |
| OmemoManager.TargetsMembers | omemo/manager.go:317-341 | a device is targeted if and only if the list of some recipient has it, or the own list has it and it is not the sending one |
| OmemoManager.TargetsNonZero | omemo/manager.go:317-341 | when no list stored or fetched has a zero, no target has device id zero |
| OmemoManager.CollectTargets | omemo/manager.go:317-341 | the loops look up every list in turn and fill a table that holds every target once under its printed address |
| OmemoManager.ReceivesIff | omemo/manager.go:352-371 | a device gets a key exactly if it may receive one, its session is ready and the backend encrypts, and the key is what the backend gave for its id; trusted and verified devices may receive, distrusted and ignored ones are skipped |
| OmemoManager.WrapOne | omemo/manager.go:352-371 | what becomes of one device, and that at most its own bundle is stored meanwhile, as fetched, and only if it may receive a key |
| OmemoManager.WrapAll | omemo/manager.go:351-372 | in whatever order the table is walked, recipients and skipped devices are the targets, each once, keys match recipients index by index, every skipped device carries its reason, and exactly the bundles that were needed and fetched are stored |
| OmemoMessages.RemovedFinds | omemo/manager.go:578-587 | removing an extension removes all of its name and hides no other |
| OmemoMessages.RemoveExtension | xep/message_extensions.go:646-659 | the loop removes exactly the extensions of the name |
| OmemoMessages.AssembledFinds | omemo/manager.go:377-389 | the sent message holds the new envelope and no older one, the encryption notice, a storage hint, an origin id that is the old one or the stanza's, and every other extension |
| OmemoMessages.SentTexts | omemo/manager.go:377-379 | the texts of the sent message: the subject as it was, the fallback body, and every entry of the list of bodies that is not a copy of it |
| OmemoMessages.BodySentReadableIff | omemo/manager.go:377-379 | the encrypted text is sent readable as well if and only if the subject, the fallback or another entry of the list of bodies has it |
| OmemoMessages.ReceivedBodySentReadable | omemo/manager.go:377-379 | so it is for every message that was itself parsed, since its main body is an entry of its list |
| OmemoMessages.EncryptMessage | omemo/manager.go:306-390 | the call in every case: no recipients, no devices, no trusted devices, or the assembled message; and the store after it: the own id, the lists its lookups stored, and the bundles fetched for its targets |
| OmemoMessages.OnlyTrustedReceive | omemo/manager.go:351-372 | every recipient may receive under the policy, none is distrusted or ignored, and every key in the envelope is such a recipient's |
| OmemoMessages.RecipientIff | omemo/manager.go:351-372 | a target is a recipient exactly if it receives |
| OmemoMessages.ResultIff | omemo/manager.go:306-376 | which result a call has: by whether there are recipients, targets, and a target that receives |
| OmemoMessages.DecryptFrom | omemo/manager.go:407-445 | the call's outcome in every case, with which error; the store changes only by drawing an own id |
| OmemoMessages.DecryptionIs | omemo/manager.go:407-445 | what a successful call returns: sender, effective trust, identity and pre-key flag, the opened body, and the rest of the message without the envelope |
| OmemoMessages.DecryptionEnds | omemo/manager.go:420-435 | which error each cause has, in the order in which they are looked at, and that a call without a cause succeeds |
| OmemoMessages.NoEnvelopeRefused | omemo/manager.go:408-415 | a message without an encrypted element, or with one that is no envelope, is refused |
| OmemoMessages.KeyServed | omemo/manager.go:351-372 | the key found for a recipient is the one wrapped for the first recipient with its device id, its own exactly when no earlier recipient of another JID has that id |
| OmemoMessages.EncryptedMessageArrives | omemo/manager.go:306-445 | a message encrypted, printed, read from the token stream, parsed and decrypted by a listed recipient that its key reaches has its body again, the empty one included, with the sender, its trust and the flag of the key; device ids are non-zero, as in every stored list |
| Dispatch.StableSortMembers | xmpp/events.go:59 | sorting keeps the entries |
| Dispatch.StableSortSorts | xmpp/events.go:59 | sorting by priority keeps every relation between entries of equal priority |
| Dispatch.OnKeeps | xmpp/events.go:48-64 | a subscription keeps every list sorted with ties in registration order, and adds exactly itself |
| Dispatch.OffKeeps | xmpp/events.go:70-88 | a removal keeps that, leaves no empty list, and removes exactly its entry |
| Dispatch.EmitKeeps | xmpp/events.go:91-115 | an emission removes exactly the once entries it ran |
| Dispatch.RunInv | xmpp/events.go:48-115 | after any sequence of calls every list is sorted, stable and not empty |
| Dispatch.EmitRuns | xmpp/events.go:91-115 | how often each entry runs: once if named or wildcard, twice a wildcard when "*" is emitted, else never |
| Dispatch.EmitOrder | xmpp/events.go:91-99 | handlers run by priority, then named before wildcard, then registration |
| Dispatch.OnceWithinLimit | xmpp/events.go:91-115 | in any run a once entry still registered has not run, and none runs more often than its limit |
| Dispatch.OnceAtMostOnce | xmpp/events.go:91-115 | in a run that never emits "*" a once entry runs at most once |
| Dispatch.WildcardRunsTwice | xmpp/events.go:91-99 | a run in which a once wildcard entry runs twice |
| Dispatch.EventBus.Subscribe | xmpp/events.go:48-64 | the in-place append and sort is the transition On |
| Dispatch.EventBus.Unsubscribe | xmpp/events.go:70-88 | the in-place splice is the transition Off |
| Dispatch.EventBus.EmitEvent | xmpp/events.go:91-115 | the loop over the snapshot is the transition Emit |
| Dispatch.Splice | xmpp/handler.go:45-57 | the loop cuts out the first entry with the id |
| Dispatch.Registry.Add | xmpp/handler.go:34-44 | a handler is added, and the list stays sorted and stable |
| Dispatch.Registry.Remove | xmpp/handler.go:45-57 | exactly the handler with the id goes, and the list stays sorted |
| Dispatch.Registry.Dispatch | xmpp/client.go:488-507 | each matching handler of the snapshot runs once in list order, and exactly the once handlers among them are gone |
| Dispatch.MatchingMembers | xmpp/client.go:490-493 | exactly the matching handlers run, each as often as it is listed |
| Dispatch.MatchingOrder | xmpp/client.go:490-493 | they run in the order of the list |
| Jids.ParsedWellFormed | xmpp/jid.go:22-54 | what a parsed JID guarantees of its three parts |
| Jids.AroundIgnored | xmpp/jid.go:22-26 | white space around a text does not matter, and a blank one is refused |
| Jids.AcceptedIff | xmpp/jid.go:22-54 | which texts are accepted, in terms of the characters of their three parts, and what JID they give |
| Jids.ParsePrintIff | xmpp/jid.go:22-83 | printing a parsed JID and parsing it again gives it back if and only if its domain does not end in a dot or white space |
| Jids.UnescapeEscape | xmpp/jid.go:97-110 | unescaping undoes escaping for every string |
| Jids.EscapedIsClean | xmpp/jid.go:97-107 | an escaped localpart holds none of the characters a localpart may not hold |
| Jids.EscapedAsHex | xmpp/jid.go:97-100 | ten characters are escaped, each as a backslash and its two hexadecimal digits, and no other |
| Numerals.FormatInjective | xmpp/client.go:84 | numerals of one base are equal only for equal numbers |
| Numerals.ParseUintFormat | omemo/xml.go:188 | a printed number is read back exactly when it fits |
| Numerals.AtoiItoa | xep/forms.go:187-195 | a printed integer is read back exactly when it fits into 64 bits |
| Text.SplitJoin | xmpp/sasl.go:213-226 | splitting undoes joining when no part holds the separator |

## Left out

- Sockets, TLS, DNS, logging, HTTP upload, JSON files, stream negotiation and the keepalive loop: input and output only. Timeouts, send errors and close remain as steps that may happen at any time.
- The text syntax of XML and the injection of `xmlns` attributes: the codecs start and end at tokens, and an encoding error of the XML library is not modelled.
- AES-GCM, SHA, HMAC, base64, UTF-8, regular expressions and non-ASCII case folding: parameters with the stated hypotheses; nothing is claimed about secrecy.
- The panic of the cipher for a vector that is not 12 bytes long is an outcome of its own, `WrongVectorLength`, rather than the end of the program.
- The window inside `Enable` between writing the request and installing the state (`xep/client_control.go:280-292`): runs start from the installed state.
- Events emitted by the modelled operations, and handlers that call back into the object that runs them: emission and dispatch are modelled for handlers that leave their bus or registry alone, asynchronous ones included as ordinary ones.
- Concurrent callers of the plugin manager, and an `Init` that loads plugins itself: loading is one call at a time, with `Init` an outcome fixed per plugin.
- A factory that builds a plugin of another name than it is registered under; such a registry is excluded by `NamedFactories`.
- Forwarded stanzas, delay stamps, the MAM query form and the RSM set: a MAM result is well formed or not, a fin payload valid or not.
- The trees of nodes are values, except in `NodeBuilder`: deep copying, which keeps callers from sharing them, leaves nothing to state. A part is either text or a child, where the source has a struct with both fields and lets the child win.
- The builders of forms, stanzas and envelopes are written as the child lists they append; the parsers' loops are methods where a loop carries state of its own.
- Fingerprints are the identity keys they are hashes of; the requests behind a lookup or a bundle are answers of the network, and the events they emit are left out.
- The two lock sections of `MemoryStore.OwnDeviceId` are one step here; two callers that race both get the id stored first.
- Multi-user chat, roster, blocking, disco, pubsub, RSM and the message setters other than those encryption uses: copies of the codecs above or simple caches.
