/** The body of the read loop of ws/client.go: how one frame read from the
    websocket becomes an envelope, and the `switch` on its data type that
    authenticates the connection, stores messages, reads threads and
    answers with envelopes for the hub. */
module Dispatcher {
  import opened Wrappers
  import opened DataKind
  import opened Entities
  import opened Frames
  import opened Repository
  import opened Service
  import opened Connection

  // ---------------------------------------------------------------------------
  // From frame to envelope
  // ---------------------------------------------------------------------------

  /** A member of the frame's JSON object that `encoding/json` matches to a
      field of `model.Data`: the raw text of the `dataType` value, or the
      value of `data`. Other members are ignored and are not listed. */
  datatype Member = DataTypeMember(literal: string) | DataMember(value: Raw)

  /** What the JSON reader makes of a frame: not a JSON object, or an object
      with its matched members in document order. */
  datatype Envelope = Malformed | Members(members: seq<Member>)

  /** `encoding/json`'s scanner and field matching; the model does not define it. */
  type EnvelopeParser = string -> Envelope

  /** What the switch looks at: the data type and the undecoded data. */
  datatype Incoming = Incoming(dataType: DataType, data: Raw)

  /** The zero `model.Data`: data type 0, data nil. */
  const ZeroIncoming := Incoming(InboxData, RawNull)

  /** Decoding the matched members in order: a `data` member replaces the
      data; a `dataType` member goes through `DataType.UnmarshalJSON`, and
      when that fails decoding stops and the members after it are not read. */
  function DecodeMembers(members: seq<Member>, acc: Incoming): (r: Incoming)
    ensures (forall i :: 0 <= i < |members| ==> members[i].DataMember?) ==> r.dataType == acc.dataType
    ensures (forall i :: 0 <= i < |members| ==> members[i].DataTypeMember?) ==> r.data == acc.data
    decreases |members|
  {
    if |members| == 0 then acc
    else match members[0]
      case DataMember(v) => DecodeMembers(members[1..], acc.(data := v))
      case DataTypeMember(b) =>
        var u := UnmarshalJSON(b, acc.dataType);
        if u.failed then acc else DecodeMembers(members[1..], acc.(dataType := u.d))
  }

  /** Lines 89-98: newlines become spaces, surrounding space is trimmed, and
      the text is decoded into a zero `model.Data`; a decoding error is only
      logged. */
  function DecodeFrame(frame: string, parse: EnvelopeParser): (r: Incoming)
    ensures parse(Normalise(frame)).Malformed? ==> r == ZeroIncoming
  {
    match parse(Normalise(frame))
    case Malformed => ZeroIncoming
    case Members(ms) => DecodeMembers(ms, ZeroIncoming)
  }

  /** A frame whose two members are the data type as `MarshalJSON` writes it
      and the data decodes to exactly that data type and data. */
  lemma WireRoundTrip(d: DataType, v: Raw)
    requires IsKind(d)
    ensures DecodeMembers([DataTypeMember(MarshalJSON(d)), DataMember(v)], ZeroIncoming) == Incoming(d, v)
  {
    MarshalRoundTrip(d, InboxData);
    assert [DataTypeMember(MarshalJSON(d)), DataMember(v)][1..] == [DataMember(v)];
  }

  /** A data type that is not valid JSON stops decoding: a `data` member
      after it is not read. */
  lemma FailedTypeHidesLaterData(b: string, v: Raw)
    requires UnmarshalJSON(b, InboxData).failed
    ensures DecodeMembers([DataTypeMember(b), DataMember(v)], ZeroIncoming) == ZeroIncoming
  {
  }

  // ---------------------------------------------------------------------------
  // The switch
  // ---------------------------------------------------------------------------

  /** The `mapstructure.Decode` calls of the three branches; the model does
      not define them. */
  datatype Decoders = Decoders(
    auth: Raw -> Result<Auth>,
    message: Raw -> Result<Message>,
    request: Raw -> Result<GetMessagesInThreadRequest>)

  /** The two readings of `time.Now()` a message can cause: when it was
      received, and when its thread was created if it is the first. */
  datatype Clock = Clock(receivedAt: int, threadCreatedAt: int)

  /** The number of messages per thread in the inbox sent after authentication. */
  const InboxMessageLimit := 30

  /** What handling one envelope leaves behind: the connection's identity,
      the store, the inserts issued, and the envelopes sent to the hub in order. */
  datatype Outcome = Outcome(identity: Identity, db: Db, writes: seq<Write>, sent: seq<Data>)

  /** `fmt`'s `%v` of an `error`: `<nil>` when there is none. */
  function ErrorText(err: Option<string>): string {
    match err
    case None => "<nil>"
    case Some(e) => e
  }

  /** Every error envelope in `sent` goes out without a recipient, so the hub
      broadcasts it. */
  predicate ErrorsUnaddressed(sent: seq<Data>) {
    forall i :: 0 <= i < |sent| && sent[i].dataType == ErrorData ==> sent[i].userId == ""
  }

  /** The `InitData` branch: decode the credentials, validate the token and
      check it belongs to the claimed user, mark the connection authenticated,
      and answer with the user's inbox. */
  function Init(id: Identity, raw: Raw, dec: Decoders, co: Service.Collaborators, db: Db): (r: Outcome)
    ensures r.db == db && r.writes == [] && |r.sent| == 1 && ErrorsUnaddressed(r.sent)
    ensures dec.auth(raw).Err? ==>
              r.identity == id && r.sent == [ErrorEnvelope("InvalidData", "Could not parse json data: " + dec.auth(raw).error)]
    ensures dec.auth(raw).Ok? ==>
              var a := dec.auth(raw).value;
              var v := AuthenticateToken(co.decodeToken, a.token);
              (!(v.valid && v.userId == a.userId) ==>
                 r.identity == id && r.sent == [ErrorEnvelope("InvalidToken", "Could not validate token: " + ErrorText(v.err))])
    // a token that checks out authenticates the connection, which is answered
    // with the user's inbox or the error fetching it
    ensures dec.auth(raw).Ok? ==>
              var a := dec.auth(raw).value;
              var v := AuthenticateToken(co.decodeToken, a.token);
              v.valid && v.userId == a.userId ==>
                r.identity == Identity(true, a.userId) &&
                var inbox := Service.GetInboxByUserID(db, a.userId, InboxMessageLimit);
                (inbox.Err? ==> r.sent == [ErrorEnvelope("Internal", "Could not fetch inbox: " + inbox.error)]) &&
                (inbox.Ok? ==> r.sent == [Data(InboxData, InboxPayload(inbox.value), a.userId)])
  {
    match dec.auth(raw)
    case Err(e) => Outcome(id, db, [], [ErrorEnvelope("InvalidData", "Could not parse json data: " + e)])
    case Ok(a) =>
      var v := AuthenticateToken(co.decodeToken, a.token);
      if !v.valid || v.userId != a.userId then
        Outcome(id, db, [], [ErrorEnvelope("InvalidToken", "Could not validate token: " + ErrorText(v.err))])
      else
        var id' := Identity(true, v.userId);
        match Service.GetInboxByUserID(db, a.userId, InboxMessageLimit)
        case Err(e) => Outcome(id', db, [], [ErrorEnvelope("Internal", "Could not fetch inbox: " + e)])
        case Ok(inbox) => Outcome(id', db, [], [Data(InboxData, InboxPayload(inbox), a.userId)])
  }

  /** The answers to a message once the store has been tried: an Internal
      error, or the stored message to its sender and then to its receiver. */
  function Answer(id: Identity, db: Db, m: Message, s: Stored): (r: Outcome)
    requires s.db == Apply(db, s.writes)
    requires s.message == m.(threadId := s.message.threadId)
    requires s.err.None? <==> |s.writes| >= 1 && s.writes[|s.writes| - 1] == MessageWrite(s.message)
    ensures r.identity == id && r.db == s.db && r.writes == s.writes && r.db == Apply(db, r.writes)
    ensures s.err.Some? ==> r.sent == [ErrorEnvelope("Internal", "Could not save data: " + s.err.value)]
    // a stored message goes to its sender, then to its receiver
    ensures s.err.None? ==>
              r.sent == [Data(MessageData, MessagePayload(s.message), s.message.senderId),
                         Data(MessageData, MessagePayload(s.message), s.message.receiverId)]
    ensures |r.sent| == 2 ==>
              r.sent[0].data.MessagePayload? &&
              |r.writes| >= 1 && r.writes[|r.writes| - 1] == MessageWrite(r.sent[0].data.message) &&
              r.sent[0] == Data(MessageData, r.sent[0].data, r.sent[0].data.message.senderId) &&
              r.sent[1] == Data(MessageData, r.sent[0].data, r.sent[0].data.message.receiverId) &&
              r.sent[0].data.message.createdAt == m.createdAt
    ensures |r.sent| == 1 || |r.sent| == 2
    ensures ErrorsUnaddressed(r.sent)
  {
    match s.err
    case Some(e) => Outcome(id, s.db, s.writes, [ErrorEnvelope("Internal", "Could not save data: " + e)])
    case None =>
      Outcome(id, s.db, s.writes, [
        Data(MessageData, MessagePayload(s.message), s.message.senderId),
        Data(MessageData, MessagePayload(s.message), s.message.receiverId)])
  }

  /** The `MessageData` branch: decode the message, stamp it with the time it
      was received, store it, and send it to its sender and to its receiver.
      The connection does not need to be authenticated. */
  function Post(id: Identity, raw: Raw, dec: Decoders, co: Service.Collaborators, db: Db, clock: Clock): (r: Outcome)
    ensures r.identity == id && r.db == Apply(db, r.writes)
    ensures dec.message(raw).Err? ==>
              r.writes == [] && r.sent == [ErrorEnvelope("InvalidData", "Could not parse json data: " + dec.message(raw).error)]
    ensures dec.message(raw).Ok? ==>
              var m := dec.message(raw).value.(createdAt := clock.receivedAt);
              r == Answer(id, db, m, Service.StoreMessage(db, co.hash, clock.threadCreatedAt, m))
    ensures (|r.sent| == 1 || |r.sent| == 2) && ErrorsUnaddressed(r.sent)
  {
    match dec.message(raw)
    case Err(e) => Outcome(id, db, [], [ErrorEnvelope("InvalidData", "Could not parse json data: " + e)])
    case Ok(msg) =>
      var m := msg.(createdAt := clock.receivedAt);
      Answer(id, db, m, Service.StoreMessage(db, co.hash, clock.threadCreatedAt, m))
  }

  /** The `ThreadData` branch: decode the request and answer with one page of
      the thread's messages, addressed to the connection's user id, which is
      `"-1"` on a connection that never authenticated. */
  function History(id: Identity, raw: Raw, dec: Decoders, db: Db): (r: Outcome)
    ensures r.identity == id && r.db == db && r.writes == [] && |r.sent| == 1 && ErrorsUnaddressed(r.sent)
    ensures dec.request(raw).Err? ==>
              r.sent == [ErrorEnvelope("InvalidData", "Could not parse json data: " + dec.request(raw).error)]
    ensures dec.request(raw).Ok? ==>
              var q := dec.request(raw).value;
              var page := Service.GetAllMessagesByThreadID(db, q.threadId, q.limit, q.skip);
              (page.Err? ==> r.sent == [ErrorEnvelope("Internal", "Could not fetch messages in thread: " + page.error)]) &&
              (page.Ok? ==> r.sent == [Data(ThreadData, ThreadPayload(page.value), id.userId)])
  {
    match dec.request(raw)
    case Err(e) => Outcome(id, db, [], [ErrorEnvelope("InvalidData", "Could not parse json data: " + e)])
    case Ok(q) =>
      match Service.GetAllMessagesByThreadID(db, q.threadId, q.limit, q.skip)
      case Err(e) => Outcome(id, db, [], [ErrorEnvelope("Internal", "Could not fetch messages in thread: " + e)])
      case Ok(ms) => Outcome(id, db, [], [Data(ThreadData, ThreadPayload(ms), id.userId)])
  }

  /** The switch on the data type. The text naming an unhandled data type is
      `%v` of the type as written (`DataKind.FormatVerb`), which goes through
      the four-entry `String()`. */
  function Dispatch(id: Identity, input: Incoming, dec: Decoders, co: Service.Collaborators, db: Db, clock: Clock): (r: Outcome)
    ensures 1 <= |r.sent| <= 2
    // every error envelope goes out without a recipient
    ensures ErrorsUnaddressed(r.sent)
    // only InitData changes who the connection is, and only to authenticated
    ensures r.identity != id ==> input.dataType == InitData && r.identity.authenticated
    ensures id.authenticated ==> r.identity.authenticated
    // only MessageData writes to the store
    ensures r.db == Apply(db, r.writes)
    ensures input.dataType != MessageData ==> r.writes == [] && r.db == db
    // the three handled data types go to their branches
    ensures input.dataType == InitData ==> r == Init(id, input.data, dec, co, db)
    ensures input.dataType == MessageData ==> r == Post(id, input.data, dec, co, db, clock)
    ensures input.dataType == ThreadData ==> r == History(id, input.data, dec, db)
    // any other data type is answered with an error naming it
    ensures input.dataType !in {InitData, MessageData, ThreadData} ==>
              r == Outcome(id, db, [], [ErrorEnvelope("InvalidDataType", "Invalid data type '" + FormatVerb(input.dataType) + "' passed.")])
  {
    if input.dataType == InitData then Init(id, input.data, dec, co, db)
    else if input.dataType == MessageData then Post(id, input.data, dec, co, db, clock)
    else if input.dataType == ThreadData then History(id, input.data, dec, db)
    else Outcome(id, db, [], [ErrorEnvelope("InvalidDataType", "Invalid data type '" + FormatVerb(input.dataType) + "' passed.")])
  }

  // ---------------------------------------------------------------------------
  // Properties of the switch
  // ---------------------------------------------------------------------------

  /** A frame that is not a JSON object is answered as data type 0,
      `InboxData`, which the switch does not handle. */
  lemma MalformedFrameIsInvalidType(frame: string, parse: EnvelopeParser, id: Identity, dec: Decoders,
                                    co: Service.Collaborators, db: Db, clock: Clock)
    requires parse(Normalise(frame)).Malformed?
    ensures Dispatch(id, DecodeFrame(frame, parse), dec, co, db, clock).sent ==
              [ErrorEnvelope("InvalidDataType", "Invalid data type '" + "InboxData" + "' passed.")]
  {
    assert FormatVerb(InboxData) == "InboxData";
    assert DecodeFrame(frame, parse) == ZeroIncoming;
  }

  /** An `ErrorData` envelope from a client is refused, and the refusal
      carries fmt's report of the panic in `String()` where the name of the
      type belongs. */
  lemma ErrorDataFrameRefused(id: Identity, raw: Raw, dec: Decoders, co: Service.Collaborators, db: Db, clock: Clock)
    ensures Dispatch(id, Incoming(ErrorData, raw), dec, co, db, clock).sent ==
              [ErrorEnvelope("InvalidDataType",
                 "Invalid data type '" + "%!v(PANIC=String method: runtime error: index out of range [4] with length 4)" + "' passed.")]
    ensures Dispatch(id, Incoming(ErrorData, raw), dec, co, db, clock).sent[0].data.details !=
              "Invalid data type '" + CorrectedFormatVerb(ErrorData) + "' passed."
  {
    FormatVerbDisagrees();
    CorrectedFormatVerbAgrees(ErrorData);
  }

  /** With the corrected `%v`, the refusal of an `ErrorData` envelope names
      the type. */
  lemma CorrectedErrorDataRefusal()
    ensures "Invalid data type '" + CorrectedFormatVerb(ErrorData) + "' passed." ==
              "Invalid data type '" + "ErrorData" + "' passed."
  {
    CorrectedFormatVerbAgrees(ErrorData);
  }

  /** Storing a message does not depend on whether, or as whom, the
      connection authenticated. */
  lemma PostIgnoresIdentity(id1: Identity, id2: Identity, raw: Raw, dec: Decoders,
                            co: Service.Collaborators, db: Db, clock: Clock)
    ensures Dispatch(id1, Incoming(MessageData, raw), dec, co, db, clock).writes ==
            Dispatch(id2, Incoming(MessageData, raw), dec, co, db, clock).writes
    ensures Dispatch(id1, Incoming(MessageData, raw), dec, co, db, clock).sent ==
            Dispatch(id2, Incoming(MessageData, raw), dec, co, db, clock).sent
  {
  }

  /** A thread page requested before authenticating is addressed to `"-1"`. */
  lemma UnauthenticatedHistoryGoesToUnknownUser(raw: Raw, dec: Decoders, co: Service.Collaborators, db: Db, clock: Clock)
    requires dec.request(raw).Ok?
    requires Service.GetAllMessagesByThreadID(db, dec.request(raw).value.threadId,
                                              dec.request(raw).value.limit, dec.request(raw).value.skip).Ok?
    ensures Dispatch(NewClient().identity, Incoming(ThreadData, raw), dec, co, db, clock).sent[0].userId == UnknownUser
  {
  }

  /** Authenticating with the bypass token as the system user always succeeds. */
  lemma BypassAuthenticates(id: Identity, raw: Raw, dec: Decoders, co: Service.Collaborators, db: Db, clock: Clock)
    requires dec.auth(raw) == Ok(Auth(BypassToken, SystemUser))
    ensures Dispatch(id, Incoming(InitData, raw), dec, co, db, clock).identity == Identity(true, SystemUser)
  {
  }
}
