# test-websocket chat core in Dafny

This project models the chat server of `test-websocket`. Clients connect over a
websocket and authenticate with a token. They send messages to each other and
read the inbox and the history of a thread. The model covers these parts:

- **Envelope kinds** (`model/data.go`, module `DataKind`): the `DataType` enum, its two
  lookup tables, `String()`, and its JSON marshalling and unmarshalling.
- **Thread ids** (`model/thread.go`, module `ThreadId`): the id of the thread between
  two users. The id is the decimal rendering of an order-insensitive hash of
  the pair.
- **Store** (`repository/mongo.go`, module `Repository`): the MongoDB queries, run
  over an in-memory store. They cover filtering, sorting newest first, skip and
  limit, documents that fail to decode, and database errors. Database errors are
  modelled as a fault map that names which operations fail.
- **Messaging service** (`handler/handler.go`, module `Service`): token authentication
  with its hard-coded bypass token, and find-or-create-thread-then-store-message.
- **Connection** (`ws/client.go`, modules `Frames`, `Connection`, `Dispatcher`):
  - `Frames` covers frame normalisation and write batching.
  - `Connection` covers the client record and one round of the writer.
  - `Dispatcher` covers the reader's switch on the data type.
- **Hub** (`ws/hub.go`, module `Hub`): register, unregister and broadcast with the
  recipient filter and the full-queue drop. Go panics (closing a closed
  channel, sending on a closed channel) are a step result of `None`.
- **Whole server** (module `Server`): the goroutines interleaved, one step at a time.
  A reader's step handles one whole frame, its store calls included.

Four modules support the rest:

- `Wrappers` defines `Option` and `Result`.
- `Decimal` models `strconv.FormatUint`.
- `Json` models the JSON string-literal reader and writer used by the enum.
- `Entities` holds the records of the `model` package.

Collaborators the model does not define are passed in as function values:

- the `hashstructure` hash of a pair;
- the token decoder of the authenticator;
- the `mapstructure` decoders;
- the JSON object reader and the payload encoder.

Times are integer parameters.

## Model

| member | source | states |
|---|---|---|
| Decimal.FormatUint | model/thread.go:36 | the rendering is canonical decimal: digits only, a leading zero only for 0 |
| Decimal.ParseFormat | model/thread.go:36 | reading a rendering back gives the number |
| Decimal.FormatParse | model/thread.go:36 | every canonical digit string is the rendering of what it denotes |
| Decimal.FormatInjective | model/thread.go:36 | distinct numbers render differently |
| Decimal.FormatLength | model/thread.go:36 | a rendering has at most k digits exactly when the number is below 10^k |
| Decimal.Uint64Width | model/thread.go:31-36 | a 64-bit hash renders in at most 20 digits |
| Json.TrimJsonSpace | model/data.go:55 | the result is the slice of the input that neither starts nor ends with JSON whitespace, and only whitespace is cut from either end |
| Json.ReadLiteral | model/data.go:54-58 | the text is `null` exactly when it reads as null; it reads as a string exactly when it is a quoted literal whose escapes decode, and the string is the decoded text; anything else fails |
| Json.UnquotePlain | model/data.go:55 | a quoted string without quotes, backslashes or control characters decodes to itself |
| Json.QuotePlainRoundTrip | model/data.go:45-49 | a name written between double quotes reads back as that name |
| DataKind.KindsDistinct | model/data.go:11-22 | the five kinds are 0 to 4 and pairwise distinct |
| DataKind.TablesInverse | model/data.go:28-42 | `toString` and `toID` are inverse bijections on the five kinds |
| DataKind.String | model/data.go:24-26 | `String()` panics outside 0..3, names kinds 0..2 by their table names, and names ThreadData "ErrorData" |
| DataKind.StringDisagrees | model/data.go:24-34 | `String()` disagrees with `toString` on ThreadData and panics on ErrorData |
| DataKind.CorrectedString | model/data.go:24-34 | the intended `String()` is defined exactly on the five kinds |
| DataKind.CorrectedStringAgrees | model/data.go:24-42 | the intended `String()` gives the `toString` name, which `toID` maps back to the kind |
| DataKind.FormatVerb | model/data.go:24-26 | `%v` of a data type prints `String()` for 0..3 and fmt's panic report otherwise |
| DataKind.CorrectedFormatVerb | model/data.go:28-34 | `%v` with the intended `String()` prints the table name of each kind |
| DataKind.FormatVerbDisagrees | model/data.go:24-26 | as written, `%v` of ThreadData prints "ErrorData" and `%v` of ErrorData prints a panic report |
| DataKind.CorrectedFormatVerbAgrees | model/data.go:24-42 | the corrected `%v` prints the `toString` name of every kind, and `toID` maps that name back to the kind |
| DataKind.MarshalJSON | model/data.go:44-50 | the output is a JSON string literal holding the `toString` name, which is empty for an out-of-table value, on one line of printable characters |
| DataKind.NamesPlain | model/data.go:28-34 | no table name needs escaping inside a JSON string |
| DataKind.QuotedName | model/data.go:44-50 | a table name between double quotes reads back as that name and holds no control character |
| DataKind.UnmarshalJSON | model/data.go:52-62 | it fails, leaving the value unchanged, exactly when the input is not a string or `null`; a known name gives its kind, and any other string or `null` gives InboxData |
| DataKind.MarshalRoundTrip | model/data.go:44-62 | unmarshalling a marshalled kind gives the kind back |
| DataKind.OutOfTableMarshal | model/data.go:44-62 | an out-of-table value marshals to `""` and comes back as InboxData |
| DataKind.NameRoundTrip | model/data.go:52-62 | a quoted table name unmarshals to its kind |
| Entities.ErrorEnvelope | ws/client.go:113-119 | every error envelope has kind ErrorData and no recipient |
| ThreadId.GenerateThreadIDHash | model/thread.go:20-38 | the id is the canonical decimal rendering (at most 20 digits) of the hash of the pair as a multiset |
| ThreadId.Symmetric | model/thread.go:21-31 | the id does not depend on the order of the two users |
| ThreadId.SameIdIffSameHash | model/thread.go:31-36 | two pairs get the same id exactly when their hashes agree |
| ThreadId.SamePairMultiset | model/thread.go:21-29 | the same two users in either order form the same multiset |
| ThreadId.SamePairSameId | model/thread.go:20-38 | the same two users in either order get the same id |
| Repository.Decoded | repository/mongo.go:146-152 | decoding never yields more results than there are documents |
| Repository.DecodedCount | repository/mongo.go:146-152 | each value occurs in the result exactly as often as a decodable document holding it |
| Repository.DecodedAll | repository/mongo.go:146-152 | when every document decodes, decoding drops nothing and keeps the order |
| Repository.DecodedKeeps | repository/mongo.go:146-152 | a property every document's value has holds for every decoded result |
| Repository.DecodedAppend | repository/mongo.go:146-152 | decoding a concatenation is concatenating the decodings |
| Repository.DecodedSorted | repository/mongo.go:146-152 | skipping undecodable documents keeps newest-first order |
| Repository.InsertDesc | repository/mongo.go:106-108 | insertion into a newest-first sequence keeps it newest first and adds exactly the new document |
| Repository.SortDesc | repository/mongo.go:106-108 | the sort is a newest-first permutation of the documents |
| Repository.LimitBound | repository/mongo.go:136 | limit 0 means no limit, and a negative limit allows at most its absolute value |
| Repository.Page | repository/mongo.go:135-141 | skip then limit selects a contiguous slice of the sorted documents, of the length the two bounds allow |
| Repository.PagesConcatenate | repository/mongo.go:135-141 | the page of n at skip followed by the page of m at skip+n is the page of n+m at skip |
| Repository.PageSorted | repository/mongo.go:135-141 | a page of a newest-first sequence is newest first |
| Repository.DecodedSubset | repository/mongo.go:135-152 | a page holds no message the whole result does not hold |
| Repository.ThreadsOf | repository/mongo.go:94-99 | the `$or` filter keeps exactly the threads with the user on either side |
| Repository.MessagesOf | repository/mongo.go:129-131 | the filter keeps exactly the messages of the thread |
| Repository.UserThreads | repository/mongo.go:94-109 | the user's thread documents, newest update first |
| Repository.GetAllThreadsByUserID | repository/mongo.go:91-124 | it errs exactly on a query fault; otherwise it returns every decodable thread of the user, with multiplicity, newest update first |
| Repository.ThreadsInvolveUser | repository/mongo.go:94-99 | every thread returned has the user as one of its two users |
| Repository.ThreadHistory | repository/mongo.go:129-141 | the thread's message documents, newest first |
| Repository.GetAllMessagesByThreadID | repository/mongo.go:126-156 | it errs exactly on a query fault or a negative skip; otherwise it returns messages of the thread only, newest first, at most \|limit\| of them, drawn from the thread's history, and the whole history when skip and limit are 0; when every message decodes, exactly the newest messages after the first `skip`, as many as the limit allows |
| Repository.FullHistoryPage | repository/mongo.go:129-152 | when every message of the thread decodes, a page is the slice of the history after `skip` |
| Repository.HistoryPage | repository/mongo.go:129-152 | a decoded page holds messages of the thread only, newest first, each drawn from the thread's decodable history |
| Repository.MessagePagesConcatenate | repository/mongo.go:126-156 | consecutive pages of a thread's history fit together without gap or overlap when every document decodes |
| Repository.FirstWithId | repository/mongo.go:78 | the first stored thread with the id, or none exactly when no thread has it |
| Repository.FirstWithIdAppend | repository/mongo.go:78 | a later insert does not change which thread is found first |
| Repository.FindThreadByUsers | repository/mongo.go:70-89 | the lookup is by the pair's thread id; NotFound exactly when no thread has it; a fault on the fetch is that fault's error; otherwise the first thread with the id decides: Found with its value when it decodes, a decode error when it does not; a found thread carries the id |
| Repository.StoreThread | repository/mongo.go:61-68 | it fails exactly on an insert fault; otherwise the thread is appended as a decodable document |
| Repository.StoreMessage | repository/mongo.go:52-59 | it fails exactly on an insert fault; otherwise the message is appended as a decodable document |
| Repository.WithMessages | repository/mongo.go:36-44 | a thread gets its first page of messages, or keeps its messages when that query fails |
| Repository.AttachMessages | repository/mongo.go:36-44 | each thread of the inbox is handled on its own, in order |
| Repository.GetInboxByUserID | repository/mongo.go:25-50 | it errs exactly when the thread query errs; otherwise it returns the user's threads in order, each with up to the limit of its newest messages |
| Service.AuthenticateToken | handler/handler.go:30-39 | the bypass token is the system user, and any other token is whatever the authenticator decodes; valid exactly when there is no error |
| Service.BypassIgnoresAuthenticator | handler/handler.go:31-33 | the bypass token is accepted whatever the authenticator says |
| Service.AuthenticatorDecides | handler/handler.go:34-38 | for every other token, the authenticator alone decides |
| Service.Apply | repository/mongo.go:52-68 | successful inserts only ever append to the collections |
| Service.NewThread | handler/handler.go:58-71 | a new thread has the pair's id, the sender first, no messages and the given time |
| Service.Persist | handler/handler.go:80-87 | the message insert is the last write; on failure nothing more is written |
| Service.StoreMessage | handler/handler.go:49-88 | a lookup error stores nothing; a found thread is reused; a missing thread is created first; on success the message is the last insert and carries the pair's thread id; once a thread is at hand the call fails exactly when the message insert fails, and its writes are exactly the new thread (if one was created) followed by the message when that insert succeeds |
| Service.GetInboxByUserID | handler/handler.go:41-47 | the repository's inbox, failing exactly when the thread query fails |
| Service.GetAllMessagesByThreadID | handler/handler.go:102-109 | the repository's page, failing exactly when that query fails |
| Service.SecondMessageReusesThread | handler/handler.go:49-88 | a second message between the same users, in either direction, creates no thread and uses the first message's thread id |
| Service.AddThreadConsistent | handler/handler.go:58-77 | storing a derived thread keeps every stored message resolvable to its thread |
| Service.AddMessageConsistent | handler/handler.go:80-85 | storing a message stamped with a stored thread's id keeps every stored message resolvable |
| Service.StorePreservesConsistency | handler/handler.go:49-88 | when hashes do not collide, every message stored belongs to a stored thread of its two users |
| Frames.ReplaceNewlines | ws/client.go:90 | every newline becomes a space and nothing else changes |
| Frames.TrimSpace | ws/client.go:90 | the result is a slice of the input with no surrounding white space |
| Frames.TrimUnique | ws/client.go:90 | the trimmed slice is the only slice with non-space ends and only space around it |
| Frames.Normalise | ws/client.go:89-90 | the text read holds no newline, has no surrounding white space, and is a slice of the frame with newlines replaced that drops only spaces |
| Frames.NormaliseIdempotent | ws/client.go:89-90 | normalising twice is normalising once |
| Frames.NormaliseKeepsCleanFrame | ws/client.go:89-90 | a frame with no newline and no surrounding space is read as it is |
| Frames.NoNewlineConcat | ws/client.go:301 | a concatenation is free of newlines exactly when both parts are |
| Frames.Split | ws/client.go:307-317 | splitting at newlines, the reader's view of a batched frame |
| Frames.SplitPlain | ws/client.go:307-317 | a newline-free part followed by a newline splits off as one part |
| Frames.SplitJoin | ws/client.go:307-317 | newline-free parts joined by newlines split back into the same parts |
| Connection.NewClient | ws/client.go:350-357 | a new connection is unauthenticated as user "-1", with an empty open queue |
| Connection.EncodeData | ws/client.go:301 | the envelope's JSON holds no newline when its payload's JSON holds none |
| Connection.RecipientNotEncoded | model/model.go:3-7 | the recipient is never written to the wire |
| Connection.Encodings | ws/client.go:301-316 | each queued envelope is encoded on its own |
| Connection.WritePump | ws/client.go:286-321 | the writer blocks on an empty open queue, sends a close frame once a closed queue is drained, and otherwise sends one text frame that splits back into the queued envelopes and empties the queue |
| Hub.NewHub | ws/hub.go:25-32 | a new hub has no clients |
| Hub.Offered | ws/hub.go:52-57 | a send is queued when there is room and closes the channel otherwise |
| Hub.Step | ws/hub.go:35-61 | register adds a new client and is a no-op for a registered one; unregister removes and closes a registered client and ignores others; a retired id that registers again comes back with its record; broadcast panics exactly on a targeted closed client, appends the envelope (and changes nothing else in the record) for targeted clients with room, drops full ones and leaves the rest untouched; only register adds ids, to the live or retired set |
| Hub.NewHubInv | ws/hub.go:25-32 | a new hub satisfies the invariant |
| Hub.StepPreservesInv | ws/hub.go:35-61 | from an invariant state every event a connection can send leaves the hub without a panic and keeps every live channel open and every queue within capacity |
| Hub.RemovedStaysRemoved | ws/hub.go:40-57 | a removed client is never offered data or closed again |
| Hub.Run | ws/hub.go:35-61 | a run stops at the first panic |
| Hub.RunPreservesInv | ws/hub.go:35-61 | every valid run from an invariant state runs without a panic and keeps the invariant |
| Hub.NeverPanics | ws/hub.go:25-61 | the hub never panics on any run of valid events from a new hub |
| Hub.BroadcastInOrder | ws/hub.go:46-58 | the broadcast loop over the clients in the order `range` picks |
| Hub.DeliverOneThenRest | ws/hub.go:46-58 | serving one client and then the rest is serving them all at once |
| Hub.UntargetedIgnored | ws/hub.go:48-50 | a client the envelope does not target is untouched |
| Hub.BroadcastOrderIrrelevant | ws/hub.go:46-58 | every visiting order gives the same hub |
| Hub.BroadcastLoopIsStep | ws/hub.go:45-58 | whatever order `range` picks, the loop computes the broadcast step |
| Hub.DeliveredOneInv | ws/hub.go:52-57 | serving one client keeps the invariant |
| Hub.UnauthenticatedShareDeliveries | ws/hub.go:46-50 | an envelope addressed to "-1" is queued for every connection that has not authenticated and has room, not only for the one that asked |
| Hub.CorrectedTargets | ws/hub.go:48 | the intended routing: error envelopes only for a connection that has not authenticated, the hub's own routing for an authenticated one |
| Hub.CorrectedTargetsAuthenticated | ws/hub.go:48 | with the intended routing, two connections receive the same non-error envelope only when both have authenticated as its recipient |
| Dispatcher.DecodeMembers | ws/client.go:94-98 | without a data-type member the kind is kept, and without a data member the data is kept |
| Dispatcher.DecodeFrame | ws/client.go:89-98 | a frame that is not a JSON object yields the zero envelope |
| Dispatcher.WireRoundTrip | ws/client.go:96 | a frame written as marshalled kind plus data is read back as that kind and data |
| Dispatcher.FailedTypeHidesLaterData | ws/client.go:96-98 | a data type that is not a string stops decoding before a later data member |
| Dispatcher.Init | ws/client.go:102-161 | bad credentials are InvalidData; a failed or mismatched token is InvalidToken with the error or `<nil>`; otherwise the connection becomes authenticated and gets its inbox or an Internal error |
| Dispatcher.Answer | ws/client.go:189-213 | a failed store is one Internal error; a successful one sends the stored message, stamped with the receipt time, to its sender and then to its receiver, after its insert |
| Dispatcher.Post | ws/client.go:163-214 | a bad message is InvalidData; otherwise it is stamped with its receipt time and stored; a failed store is Internal; on success the stored message goes to the sender and then to the receiver |
| Dispatcher.History | ws/client.go:216-255 | a bad request is InvalidData; a failed query is Internal; otherwise the page goes to the connection's own user id |
| Dispatcher.Dispatch | ws/client.go:101-267 | one or two envelopes go out; error envelopes have no recipient; only InitData changes the identity and never un-authenticates it; only MessageData writes; InitData, MessageData and ThreadData are answered exactly by Init, Post and History; any other kind is refused with `%v` of the kind as written |
| Dispatcher.MalformedFrameIsInvalidType | ws/client.go:94-266 | a frame that is not a JSON object is refused as data type InboxData |
| Dispatcher.ErrorDataFrameRefused | ws/client.go:257-266 | an ErrorData frame is refused with fmt's report of the `String()` panic where the type's name belongs, which differs from the refusal the corrected `%v` gives |
| Dispatcher.CorrectedErrorDataRefusal | ws/client.go:257-266 | with the corrected `%v`, the refusal of an ErrorData frame names ErrorData |
| Dispatcher.PostIgnoresIdentity | ws/client.go:163-214 | storing and routing a message do not depend on authentication |
| Dispatcher.UnauthenticatedHistoryGoesToUnknownUser | ws/client.go:250-254 | a thread page requested before authenticating is addressed to "-1" |
| Dispatcher.BypassAuthenticates | ws/client.go:124-139 | the bypass token with the system user id authenticates the connection as the system user |
| Server.Initial | ws/client.go:332-365 | a server starts with an empty hub and no readers |
| Server.Record | ws/client.go:47-65 | the client behind an id, whether or not the hub still holds it |
| Server.Replace | ws/client.go:138-139 | the reader and the writer update only their own client's record, wherever the hub keeps it |
| Server.Step | ws/client.go:72-329 | a reader's answers reach the hub one at a time, in order; a writer that has sent its close frame takes no further step |
| Server.Reader | ws/client.go:86-267 | one frame is handed to the dispatcher: the connection takes the dispatcher's identity, the store its writes and the pending answers its envelopes, while the connection's queue and closed flag and every other connection are kept; no connection is added or removed; a reader with answers still pending takes no step |
| Server.Writer | ws/client.go:279-329 | a writer only drains its own connection's queue; it returns, leaving every other writer running, exactly when it sends the close frame of a drained, closed queue, after which it takes no step |
| Server.InitialInv | ws/client.go:332-365 | a new server satisfies the invariant |
| Server.ReplaceKeepsInv | ws/client.go:138-139 | changing a client's identity or draining its queue keeps the hub's invariant |
| Server.StepSafe | ws/hub.go:35-61 | no goroutine step panics, and every step keeps the invariant |
| Server.ReadSafe | ws/client.go:72-161 | a reader's step keeps the invariant and never panics |
| Server.WriterStopsAfterClose | ws/client.go:289-292 | a writer sends at most one close frame: after it, the writer's step changes nothing |
| Server.WriteSafe | ws/client.go:279-329 | a writer's step keeps the invariant and never panics |
| Server.Run | ws/client.go:72-329 | a run stops at the first panic |
| Server.RunSafe | ws/hub.go:35-61 | every interleaving from an invariant state runs without a panic |
| Server.NeverPanics | ws/client.go:332-365 | every interleaving of goroutine steps from a new server runs without a panic |
| Server.AuthenticationReachesHub | ws/client.go:137-139 | after a successful InitData, the hub sees the connection as the authenticated user |

## Left out

- Transport: websocket I/O, ping/pong, deadlines, the read limit, origin checks and logging are not modelled.
- Goroutines run one step at a time (module `Server`). The Go memory model, and data races such as the hub reading `UserID` while the reader writes it, are not modelled.
- Reader atomicity: a reader handles a whole frame in one step, including the thread lookup, the thread insert and the message insert of handler.go:51-85. In Go, two readers handling A to B and B to A at the same time can both miss the lookup and both insert a thread with the same id. The model cannot reach that race, so `Service.StorePreservesConsistency` holds only at this step granularity.
- Writer errors: `writePump` also returns when the connection fails to write. Only its return after the close frame is modelled.
- JSON and `mapstructure`: the object reader, the payload encoder and the three decoders are function parameters. Only the enum's own string literals are modelled.
- Authenticator: `auth.Authenticator.DecodeToken` is a function parameter.
- Hash: `hashstructure.Hash` of a set is a function from the pair's multiset to a 64-bit number. Its error branch panics in Go and cannot be reached for a string slice, so `Service.StoreMessage` leaves out the "could not create thread id" branch of handler.go:61-63, and `Repository.FindThreadByUsers` leaves out the "could not generate thread id hash" branch of repository/mongo.go:73-75.
- Clock: `time.Now()` becomes two integer parameters, the receipt time of a message and the creation time of a thread.
- Tie order: MongoDB leaves the order of equal sort keys unspecified. The model keeps stored order for ties, through a stable insertion sort.
- Negative limit: a negative limit is read as a single batch of at most its absolute value. The driver's cursor behaviour is not modelled beyond that.
- Error texts: database, decoding and authenticator error texts are opaque strings. The prefixes wrapped around them are modelled: those of the repository, of the handler (`Service`, such as "could not store message: ") and of the reader (`Dispatcher`, such as "Could not save data: ").
- Thread fetch: `mongoHelper.Fetch` is modelled as a find-one on `threadId` in stored order. The helper package is not part of this model.
- Inbox: `model.Inbox` is not part of this model. It appears through its only field, the list of threads.
- Handler pass-through: `Service.FindThreadByUsers` of handler.go:94-100 returns the repository's result unchanged. The model uses `Repository.FindThreadByUsers` directly.
- Frame text: frames are sequences of Unicode characters. Invalid UTF-8 and the byte-level behaviour of `bytes.TrimSpace` on it are not modelled.
- Hub.ValidEvent: the hub's safety holds for event sequences in which a removed client is never registered again. `ServeWs` registers each new client exactly once. In the `Server` module every connection gets a fresh id, so no such condition is needed there.
- Repository.GetAllThreadsByUserID: a cursor that fails partway through, for example when the five-second context of repository/mongo.go:92 expires, ends the loop of lines 113-121 without an error, because `cur.Err()` is never checked. The model's faults act only on the query itself, so it does not produce such a silently shortened result.
- Repository.GetAllMessagesByThreadID: the loop of repository/mongo.go:144-152 likewise drops the rest of a cursor that fails partway (the context of line 127), without an error. This is not modelled, and `Repository.GetInboxByUserID`, which pages through it, inherits the gap.
- Repository.GetAllMessagesByThreadID: when some stored message of the thread does not decode, the contract states only the thread, the order, the limit and the sub-multiset of the history, not which messages are returned. Skip and limit count undecodable documents too, so such a page can be shorter than the limit.

## Findings

| source | as written | input that shows it | evidently intended | confidence | as-written member | corrected member |
|---|---|---|---|---|---|---|
| ws/hub.go:48 | the hub routes on `UserID` alone, and every connection that has not authenticated has `UserID` "-1" (ws/client.go:356) | two connections that never sent InitData; one asks for a thread page, which is addressed to "-1" (ws/client.go:253), and both queue it | a connection that never authenticated receives error envelopes only | medium (not executed) | Hub.UnauthenticatedShareDeliveries | Hub.CorrectedTargets |
| model/data.go:24-26 | `String()` indexes a four-entry array that has no "ThreadData" | `%v` of ThreadData prints "ErrorData"; `%v` of ErrorData (4) panics with index 4 out of range for length 4, so an ErrorData frame is answered with fmt's panic report in place of its name | the five names of `toString` | high (not executed) | DataKind.FormatVerb | DataKind.CorrectedFormatVerb |

The hub follows the code as written: `Hub.Targets` routes on the user id alone. `Hub.CorrectedTargetsAuthenticated` states what the intended routing would give. `Dispatcher.Dispatch` also follows the code as written: it names an unhandled data type with `DataKind.FormatVerb`. `Dispatcher.ErrorDataFrameRefused` states the refusal an ErrorData frame gets as written. `DataKind.CorrectedFormatVerbAgrees` and `Dispatcher.CorrectedErrorDataRefusal` state what the corrected `String()` would print.
