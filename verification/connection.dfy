/** The `Client` of ws/client.go as far as the hub and the writer see it:
    its identity, its buffered `send` channel and whether that channel has
    been closed; the initial client of `ServeWs`; and one round of `writePump`. */
module Connection {
  import opened Entities
  import opened DataKind
  import opened Frames

  /** The buffer size of a client's `send` channel. */
  const QueueCapacity: nat := 256

  /** The user id of a connection that has not authenticated. */
  const UnknownUser := "-1"

  /** The dispatcher's per-connection state: `Authenticated` and `UserID`. */
  datatype Identity = Identity(authenticated: bool, userId: string)

  datatype Client = Client(identity: Identity, queue: seq<Data>, closed: bool)

  /** The client `ServeWs` creates for a new connection. */
  function NewClient(): (c: Client)
    ensures !c.identity.authenticated && c.identity.userId == UnknownUser
    ensures c.queue == [] && !c.closed
  {
    Client(Identity(false, UnknownUser), [], false)
  }

  /** `encoding/json` applied to a payload value. */
  type PayloadEncoder = Payload -> string

  /** `json.Marshal` of an envelope: the kind through `MarshalJSON`, then the
      payload; the recipient is never written (`json:"-"`). */
  function EncodeData(d: Data, encode: PayloadEncoder): (r: string)
    ensures NoNewline(encode(d.data)) ==> NoNewline(r)
  {
    var kind, payload := MarshalJSON(d.dataType), encode(d.data);
    KindOneLine(d.dataType);
    EnvelopeOneLine(kind, payload);
    "{\"dataType\":" + kind + ",\"data\":" + payload + "}"
  }

  /** A marshalled kind holds no newline. */
  lemma KindOneLine(d: DataType)
    ensures NoNewline(MarshalJSON(d))
  {
    var b := MarshalJSON(d);
    forall i | 0 <= i < |b|
      ensures b[i] != '\n'
    {
      assert ' ' <= b[i];
    }
  }

  /** The envelope's text holds no newline when neither part does. */
  lemma EnvelopeOneLine(kind: string, payload: string)
    requires NoNewline(kind)
    ensures NoNewline(payload) ==> NoNewline("{\"dataType\":" + kind + ",\"data\":" + payload + "}")
  {
    if NoNewline(payload) {
      NoNewlineConcat("{\"dataType\":", kind);
      NoNewlineConcat("{\"dataType\":" + kind, ",\"data\":");
      NoNewlineConcat("{\"dataType\":" + kind + ",\"data\":", payload);
      NoNewlineConcat("{\"dataType\":" + kind + ",\"data\":" + payload, "}");
    }
  }

  /** Two envelopes that differ only in their recipient are written alike. */
  lemma RecipientNotEncoded(d: Data, encode: PayloadEncoder, other: string)
    ensures EncodeData(d.(userId := other), encode) == EncodeData(d, encode)
  {
  }

  function Encodings(q: seq<Data>, encode: PayloadEncoder): (r: seq<string>)
    ensures |r| == |q|
    ensures forall i :: 0 <= i < |q| ==> r[i] == EncodeData(q[i], encode)
  {
    seq(|q|, i requires 0 <= i < |q| => EncodeData(q[i], encode))
  }

  datatype Frame = TextFrame(text: string) | CloseFrame

  /** One round of `writePump`: blocked on an empty open channel; a close frame
      once the closed channel is drained; otherwise one text frame holding the
      first queued envelope and the `len(c.send)` envelopes queued behind it. */
  datatype WriteStep = Blocked | Wrote(frame: Frame, client: Client)

  function WritePump(c: Client, encode: PayloadEncoder): (r: WriteStep)
    ensures r.Blocked? <==> c.queue == [] && !c.closed
    ensures r.Wrote? ==> r.client == c.(queue := [])
    ensures r.Wrote? ==> (r.frame.CloseFrame? <==> c.queue == [])
    ensures r.Wrote? && r.frame.TextFrame? && (forall i :: 0 <= i < |c.queue| ==> NoNewline(encode(c.queue[i].data))) ==>
              Split(r.frame.text) == Encodings(c.queue, encode)
  {
    if c.queue == [] then
      if c.closed then Wrote(CloseFrame, c) else Blocked
    else
      var parts := Encodings(c.queue, encode);
      assert (forall i :: 0 <= i < |c.queue| ==> NoNewline(encode(c.queue[i].data))) ==>
               Split(Join(parts)) == parts by {
        if forall i :: 0 <= i < |c.queue| ==> NoNewline(encode(c.queue[i].data)) {
          SplitJoin(parts);
        }
      }
      Wrote(TextFrame(Join(parts)), c.(queue := []))
  }
}
