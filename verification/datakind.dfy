/** The envelope kind `DataType` of model/data.go: a Go `int` with five named
    values, its two lookup tables, its `String` method and its JSON codec. */
module DataKind {
  import opened Wrappers
  import opened Decimal
  import Json

  newtype DataType = int

  const InboxData: DataType := 0
  const MessageData: DataType := 1
  const InitData: DataType := 2
  const ThreadData: DataType := 3
  const ErrorData: DataType := 4

  /** The five named kinds (any other `int` is still a `DataType` in Go). */
  predicate IsKind(d: DataType) {
    InboxData <= d <= ErrorData
  }

  /** `toString`: kind to wire name. */
  const ToString: map<DataType, string> := map[
    InboxData := "InboxData",
    MessageData := "MessageData",
    InitData := "InitData",
    ThreadData := "ThreadData",
    ErrorData := "ErrorData"]

  /** `toID`: wire name to kind. */
  const ToID: map<string, DataType> := map[
    "InboxData" := InboxData,
    "MessageData" := MessageData,
    "InitData" := InitData,
    "ThreadData" := ThreadData,
    "ErrorData" := ErrorData]

  /** The five kinds are five distinct values, exactly the keys of `toString`. */
  lemma KindsDistinct()
    ensures |{InboxData, MessageData, InitData, ThreadData, ErrorData}| == 5
    ensures forall d :: d in ToString <==> IsKind(d)
  {
  }

  /** The two tables are inverse bijections between the five kinds and the five names. */
  lemma TablesInverse()
    ensures forall d :: d in ToString ==> ToString[d] in ToID && ToID[ToString[d]] == d
    ensures forall s :: s in ToID ==> ToID[s] in ToString && ToString[ToID[s]] == s
  {
  }

  /** Go's `toString[d]`: a missing key reads as the zero value "". */
  function NameOf(d: DataType): string {
    if d in ToString then ToString[d] else ""
  }

  /** Go's `toID[s]`: a missing key reads as the zero value `InboxData`. */
  function KindOf(s: string): DataType {
    if s in ToID then ToID[s] else InboxData
  }

  /** The four-entry array indexed by `String()`. */
  const StringArray: seq<string> := ["InboxData", "MessageData", "InitData", "ErrorData"]

  /** `d.String()` as written: `None` is the index-out-of-range panic. */
  function String(d: DataType): (r: Option<string>)
    ensures r.Some? <==> 0 <= d < 4
    ensures d in {InboxData, MessageData, InitData} ==> r == Some(ToString[d])
    ensures d == ThreadData ==> r == Some("ErrorData")
  {
    if 0 <= d < |StringArray| as DataType then Some(StringArray[d as int]) else None
  }

  /** `String()` disagrees with `toString` on ThreadData and panics on ErrorData. */
  lemma StringDisagrees()
    ensures String(ThreadData) != Some(ToString[ThreadData])
    ensures String(ErrorData) == None
  {
  }

  /** The intended `String()`: the `toString` table, for the five kinds. */
  function CorrectedString(d: DataType): (r: Option<string>)
    ensures r.Some? <==> IsKind(d)
  {
    if d in ToString then Some(ToString[d]) else None
  }

  /** The corrected `String()` agrees with `toString` and round-trips through `toID`. */
  lemma CorrectedStringAgrees(d: DataType)
    requires IsKind(d)
    ensures CorrectedString(d) == Some(ToString[d])
    ensures KindOf(CorrectedString(d).value) == d
  {
  }

  /** fmt's report of the index-out-of-range panic `String()` raises on an
      array of `length` entries. */
  function PanicReport(d: DataType, length: string): string {
    var index := if d < 0 then "-" + FormatUint(-d as int) else FormatUint(d as int);
    var bounds := if d < 0 then "]" else "] with length " + length;
    "%!v(PANIC=String method: runtime error: index out of range [" + index + bounds + ")"
  }

  /** What `fmt`'s `%v` prints for a `DataType` as written: the `String()`
      result, or, when `String()` panics, fmt's report of the recovered panic. */
  function FormatVerb(d: DataType): (r: string)
    ensures 0 <= d < 4 ==> r == String(d).value
    ensures !(0 <= d < 4) ==> r == PanicReport(d, "4")
  {
    match String(d)
    case Some(s) => s
    case None => PanicReport(d, "4")
  }

  /** `%v` with the corrected `String()`. */
  function CorrectedFormatVerb(d: DataType): (r: string)
    ensures IsKind(d) ==> r == ToString[d]
    ensures !IsKind(d) ==> r == PanicReport(d, "5")
  {
    match CorrectedString(d)
    case Some(s) => s
    case None => PanicReport(d, "5")
  }

  /** As written, `%v` names ThreadData "ErrorData" and reports a panic for
      ErrorData. */
  lemma FormatVerbDisagrees()
    ensures FormatVerb(ThreadData) == "ErrorData"
    ensures FormatVerb(ErrorData) == "%!v(PANIC=String method: runtime error: index out of range [4] with length 4)"
  {
    assert FormatUint(4) == "4";
  }

  /** The corrected `%v` prints the `toString` name of every kind, and that
      name leads back to the kind. */
  lemma CorrectedFormatVerbAgrees(d: DataType)
    requires IsKind(d)
    ensures CorrectedFormatVerb(d) == ToString[d]
    ensures KindOf(CorrectedFormatVerb(d)) == d
  {
    TablesInverse();
  }

  /** `MarshalJSON`: the `toString` name between double quotes; never fails. */
  function MarshalJSON(d: DataType): (b: string)
    ensures Json.ReadLiteral(b) == Json.JString(NameOf(d))
    ensures !IsKind(d) ==> b == "\"\""
    // a single line free of control characters
    ensures forall i :: 0 <= i < |b| ==> ' ' <= b[i]
  {
    QuotedName(d);
    var b := Json.Quote(NameOf(d));
    assert !IsKind(d) ==> b == "\"\"" by {
      if !IsKind(d) {
        UnnamedQuoted(d);
      }
    }
    b
  }

  /** No table name needs escaping in a JSON string. */
  lemma NamesPlain(d: DataType)
    ensures Json.Plain(NameOf(d))
  {
  }

  /** A quoted table name reads back as that name and is one printable line. */
  lemma QuotedName(d: DataType)
    ensures Json.ReadLiteral(Json.Quote(NameOf(d))) == Json.JString(NameOf(d))
    ensures forall i :: 0 <= i < |Json.Quote(NameOf(d))| ==> ' ' <= Json.Quote(NameOf(d))[i]
  {
    NamesPlain(d);
    Json.QuotePlainRoundTrip(NameOf(d));
  }

  /** A value outside the table is quoted as the empty string. */
  lemma UnnamedQuoted(d: DataType)
    requires !IsKind(d)
    ensures Json.Quote(NameOf(d)) == "\"\""
  {
    assert NameOf(d) == "";
  }

  /** The outcome of `(*DataType).UnmarshalJSON`: the value left in `*d`, and
      whether an error was returned. */
  datatype Unmarshalled = Unmarshalled(d: DataType, failed: bool)

  /** `UnmarshalJSON(b)` applied to a variable holding `d`. */
  function UnmarshalJSON(b: string, d: DataType): (r: Unmarshalled)
    ensures r.failed <==> Json.ReadLiteral(b) == Json.JOther
    ensures r.failed ==> r.d == d
    ensures !r.failed ==> IsKind(r.d)
    ensures Json.ReadLiteral(b).JString? && Json.ReadLiteral(b).s in ToID ==>
              r.d in ToString && ToString[r.d] == Json.ReadLiteral(b).s
    ensures Json.ReadLiteral(b).JString? && Json.ReadLiteral(b).s !in ToID ==> r.d == InboxData
    ensures Json.ReadLiteral(b) == Json.JNull ==> r.d == InboxData
  {
    match Json.ReadLiteral(b)
    case JNull => Unmarshalled(KindOf(""), false)
    case JString(s) => Unmarshalled(KindOf(s), false)
    case JOther => Unmarshalled(d, true)
  }

  /** Marshalling a kind and unmarshalling the text gives the kind back,
      whatever the variable held before. */
  lemma MarshalRoundTrip(d: DataType, prior: DataType)
    requires IsKind(d)
    ensures UnmarshalJSON(MarshalJSON(d), prior) == Unmarshalled(d, false)
  {
    TablesInverse();
  }

  /** A value outside the table marshals to `""`, which unmarshals to `InboxData`. */
  lemma OutOfTableMarshal(d: DataType, prior: DataType)
    requires !IsKind(d)
    ensures UnmarshalJSON(MarshalJSON(d), prior) == Unmarshalled(InboxData, false)
  {
  }

  /** Unmarshalling then marshalling gives the name back for each of the five names. */
  lemma NameRoundTrip(s: string, prior: DataType)
    requires s in ToID
    ensures MarshalJSON(UnmarshalJSON(Json.Quote(s), prior).d) == Json.Quote(s)
  {
    assert Json.Plain(s);
    Json.QuotePlainRoundTrip(s);
    TablesInverse();
  }
}
