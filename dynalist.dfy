/**
 * The Dynalist inbox call: the request body `AddToDynalist` builds, which
 * JSON keys its encoding carries, and how the single reply is turned into
 * success or an error text. Sending the POST and decoding the body are
 * outside the model; what they produced is the `Exchange` input.
 */
module Dynalist {
  import opened Wrappers

  const ApiUrl: string := "https://dynalist.io/api/v1/inbox/add"

  /** The request body, field for field and in declaration order. */
  datatype Request = Request(token: string, index: int, content: string, note: string,
                             checked: bool, checkbox: bool)

  /** The decoded reply; keys absent from the JSON, or a JSON null, leave Go's zero values. */
  datatype Response = Response(code: string, msg: string, fileId: string, nodeId: string, index: int)

  /** What the one POST attempt produced. */
  datatype Exchange =
    | SendFailed(reason: string)      // client.Do returned an error
    | DecodeFailed(reason: string)    // the JSON decoder returned an error
    | Decoded(response: Response)

  /** One call: the request it posted and the error it returned (None is Go's nil). */
  datatype Submission = Submission(request: Request, error: Option<string>)

  const SendPrefix: string := "failed to send request: "
  const DecodePrefix: string := "failed to decode response: "
  const ApiPrefix: string := "dynalist API error: "

  // ---------------------------------------------------------------------
  // JSON encoding, at the level of which keys appear

  datatype JsonValue = JString(s: string) | JInt(i: int) | JBool(b: bool)

  /** A struct field as `encoding/json` sees it: its key and whether it is tagged omitempty. */
  datatype Field = Field(key: string, omitEmpty: bool, value: JsonValue)

  datatype Member = Member(key: string, value: JsonValue)

  /** Go's "empty value" for the kinds used here. */
  predicate IsEmptyValue(v: JsonValue) {
    match v
    case JString(s) => s == ""
    case JInt(i) => i == 0
    case JBool(b) => !b
  }

  predicate Emitted(f: Field) { !(f.omitEmpty && IsEmptyValue(f.value)) }

  /** The members `json.Marshal` writes for a struct: its fields in order, minus empty omitempty ones. */
  function Marshal(fields: seq<Field>): (obj: seq<Member>)
    ensures |obj| <= |fields|
  {
    if fields == [] then []
    else
      var rest := Marshal(fields[1..]);
      if Emitted(fields[0]) then [Member(fields[0].key, fields[0].value)] + rest else rest
  }

  /** The fields of a Request with their json tags (dynalist.go:15-22). */
  function RequestFields(r: Request): seq<Field> {
    [ Field("token", false, JString(r.token)),
      Field("index", true, JInt(r.index)),
      Field("content", false, JString(r.content)),
      Field("note", true, JString(r.note)),
      Field("checked", true, JBool(r.checked)),
      Field("checkbox", true, JBool(r.checkbox)) ]
  }

  function Keys(obj: seq<Member>): (keys: seq<string>)
    ensures |keys| == |obj|
    ensures forall i :: 0 <= i < |obj| ==> keys[i] == obj[i].key
  {
    if obj == [] then [] else [obj[0].key] + Keys(obj[1..])
  }

  function Lookup(obj: seq<Member>, key: string): Option<JsonValue> {
    if obj == [] then None
    else if obj[0].key == key then Some(obj[0].value)
    else Lookup(obj[1..], key)
  }

  function StringMember(obj: seq<Member>, key: string): string {
    match Lookup(obj, key)
    case Some(JString(s)) => s
    case _ => ""
  }

  function IntMember(obj: seq<Member>, key: string): int {
    match Lookup(obj, key)
    case Some(JInt(i)) => i
    case _ => 0
  }

  function BoolMember(obj: seq<Member>, key: string): bool {
    match Lookup(obj, key)
    case Some(JBool(b)) => b
    case _ => false
  }

  /** What `json.Unmarshal` puts into a zero Request for a decoded object. */
  function UnmarshalRequest(obj: seq<Member>): Request {
    Request(StringMember(obj, "token"), IntMember(obj, "index"), StringMember(obj, "content"),
            StringMember(obj, "note"), BoolMember(obj, "checked"), BoolMember(obj, "checkbox"))
  }

  /** Marshal writes exactly the emitted fields: each of them, and nothing else. */
  lemma {:induction false} MarshalEmitsExactly(fields: seq<Field>)
    ensures forall f :: f in fields && Emitted(f) ==> Member(f.key, f.value) in Marshal(fields)
    ensures forall m :: m in Marshal(fields) ==>
      exists f :: f in fields && Emitted(f) && m == Member(f.key, f.value)
  {
    if fields != [] {
      MarshalEmitsExactly(fields[1..]);
      forall m | m in Marshal(fields)
        ensures exists f :: f in fields && Emitted(f) && m == Member(f.key, f.value)
      {
        if m !in Marshal(fields[1..]) {
          assert m == Member(fields[0].key, fields[0].value) && fields[0] in fields;
        }
      }
    }
  }

  /** A key no field has never appears in the encoding. */
  lemma {:induction false} MarshalKeyAbsent(fields: seq<Field>, key: string)
    requires forall j :: 0 <= j < |fields| ==> fields[j].key != key
    ensures forall m :: m in Marshal(fields) ==> m.key != key
  {
    if fields != [] {
      MarshalKeyAbsent(fields[1..], key);
    }
  }

  predicate DistinctKeys(fields: seq<Field>) {
    forall i, j :: 0 <= i < j < |fields| ==> fields[i].key != fields[j].key
  }

  lemma {:induction false} LookupAbsent(obj: seq<Member>, key: string)
    requires forall m :: m in obj ==> m.key != key
    ensures Lookup(obj, key) == None
  {
    if obj != [] {
      LookupAbsent(obj[1..], key);
    }
  }

  /** Among fields with distinct keys, a key decodes to its field's value exactly when that field was emitted. */
  lemma {:induction false} LookupMarshal(fields: seq<Field>, i: nat)
    requires DistinctKeys(fields) && i < |fields|
    ensures Lookup(Marshal(fields), fields[i].key)
         == if Emitted(fields[i]) then Some(fields[i].value) else None
  {
    var rest := Marshal(fields[1..]);
    if i == 0 {
      if !Emitted(fields[0]) {
        MarshalKeyAbsent(fields[1..], fields[0].key);
        LookupAbsent(rest, fields[0].key);
      }
    } else {
      assert fields[1..][i - 1] == fields[i];
      LookupMarshal(fields[1..], i - 1);
    }
  }

  /** Omitting empty fields loses nothing: the receiver decodes exactly the request that was built. */
  lemma UnmarshalMarshalRequest(r: Request)
    ensures UnmarshalRequest(Marshal(RequestFields(r))) == r
  {
    var fields := RequestFields(r);
    assert DistinctKeys(fields);
    LookupMarshal(fields, 0);
    LookupMarshal(fields, 1);
    LookupMarshal(fields, 2);
    LookupMarshal(fields, 3);
    LookupMarshal(fields, 4);
    LookupMarshal(fields, 5);
  }

  // ---------------------------------------------------------------------
  // AddToDynalist

  /** The struct literal of dynalist.go:34-38; the other fields keep their zero values. */
  function NewRequest(token: string, content: string, note: string): (r: Request)
    ensures r.token == token && r.content == content && r.note == note
    ensures r.index == 0 && !r.checked && !r.checkbox
  {
    Request(token := token, index := 0, content := content, note := note,
            checked := false, checkbox := false)
  }

  /** The keys of the body AddToDynalist posts: token and content always, note when non-empty. */
  lemma NewRequestKeys(token: string, content: string, note: string)
    ensures Keys(Marshal(RequestFields(NewRequest(token, content, note))))
         == if note == "" then ["token", "content"] else ["token", "content", "note"]
  {
    var fields := RequestFields(NewRequest(token, content, note));
    var noteMembers := if note == "" then [] else [Member("note", JString(note))];
    assert Marshal(fields[5..]) == [];
    assert Marshal(fields[4..]) == [];
    assert Marshal(fields[3..]) == noteMembers;
    assert Marshal(fields[2..]) == [Member("content", JString(content))] + noteMembers;
    assert Marshal(fields[1..]) == Marshal(fields[2..]);
    assert Marshal(fields) == [Member("token", JString(token))] + Marshal(fields[1..]);
  }

  /** The `_code` check shared by both versions of the call (dynalist.go:70-77, main.go:155-163). */
  function CheckResponse(resp: Response): (err: Option<string>)
    ensures err.None? <==> resp.code == "Ok"
    ensures err.Some? && resp.msg != "" ==> err.value == ApiPrefix + resp.msg
    ensures err.Some? && resp.msg == "" ==> err.value == ApiPrefix + "code " + resp.code
  {
    if resp.code != "Ok" then
      if resp.msg != "" then Some(ApiPrefix + resp.msg)
      else Some(ApiPrefix + "code " + resp.code)
    else None
  }

  /**
   * One call of `AddToDynalist`: build the body, post it once, then report a
   * transport failure, a decoder error, or the `_code` check.
   */
  function AddToDynalist(token: string, content: string, note: string, exchange: Exchange): (s: Submission)
    ensures s.request == NewRequest(token, content, note)
    ensures s.error.None? <==> exchange.Decoded? && exchange.response.code == "Ok"
    ensures exchange.SendFailed? ==> s.error == Some(SendPrefix + exchange.reason)
    ensures exchange.DecodeFailed? ==> s.error == Some(DecodePrefix + exchange.reason)
    ensures exchange.Decoded? ==> s.error == CheckResponse(exchange.response)
  {
    var request := NewRequest(token, content, note);
    match exchange
    case SendFailed(e) => Submission(request, Some(SendPrefix + e))
    case DecodeFailed(e) => Submission(request, Some(DecodePrefix + e))
    case Decoded(resp) => Submission(request, CheckResponse(resp))
  }

  // ---------------------------------------------------------------------
  // Telling the failures apart from their text

  datatype FailureKind = Transport | Malformed | Rejected

  /** The kind of failure an exchange is, if it is one. */
  function FailureOf(exchange: Exchange): Option<FailureKind> {
    match exchange
    case SendFailed(_) => Some(Transport)
    case DecodeFailed(_) => Some(Malformed)
    case Decoded(resp) => if resp.code == "Ok" then None else Some(Rejected)
  }

  /** Reads the kind back from an error text by its prefix. */
  function ClassifyError(text: string): Option<FailureKind> {
    if SendPrefix <= text then Some(Transport)
    else if DecodePrefix <= text then Some(Malformed)
    else if ApiPrefix <= text then Some(Rejected)
    else None
  }

  /** The three failure kinds carry distinct prefixes, so the text alone identifies the kind. */
  lemma ErrorTextIdentifiesKind(token: string, content: string, note: string, exchange: Exchange)
    ensures var s := AddToDynalist(token, content, note, exchange);
      s.error.Some? <==> FailureOf(exchange).Some?
    ensures var s := AddToDynalist(token, content, note, exchange);
      s.error.Some? ==> ClassifyError(s.error.value) == FailureOf(exchange)
  {
    var s := AddToDynalist(token, content, note, exchange);
    if s.error.Some? {
      var t := s.error.value;
      match exchange
      case SendFailed(_) =>
      case DecodeFailed(_) =>
        assert t[10] == 'd';
        assert !(SendPrefix <= t) by { assert SendPrefix[10] == 's'; }
      case Decoded(_) =>
        assert t[0] == 'd';
        assert !(SendPrefix <= t) && !(DecodePrefix <= t) by { assert SendPrefix[0] == 'f' == DecodePrefix[0]; }
    }
  }
}
