/** The client's CV API helpers (app/client/src/api/cvs.ts): the bearer header, the
    snake_case to camelCase mapping of a CV received from the back end, the camelCase to
    snake_case payload sent back, the error wrapping and the `deleteCv` result. */
module CvsApi {
  import opened Wrappers
  import opened JsText

  /** `getAuthHeader`: `None` for `storageThrows == false` and no stored token; a throwing
      storage yields the empty header. */
  function AuthHeader(token: Option<string>, storageThrows: bool): (h: map<string, string>)
    ensures "Authorization" in h <==> !storageThrows && token.Some? && token.value != ""
    ensures "Authorization" in h ==> h["Authorization"] == "Bearer " + token.value
    ensures h.Keys <= {"Authorization"}
  {
    if !storageThrows && token.Some? && token.value != "" then map["Authorization" := "Bearer " + token.value]
    else map[]
  }

  /** The keys of a `Cv` as the client sees it. */
  const CamelKeys: set<string> :=
    {"id", "userId", "title", "location", "experienceYears", "skills", "summary", "fullText", "createdAt"}

  /** The six payload fields the client may send, from the back end's name to the client's. */
  const SnakeToCamel: map<string, string> := map[
    "title" := "title", "location" := "location", "experience_years" := "experienceYears",
    "skills" := "skills", "summary" := "summary", "full_text" := "fullText"]

  /** `mapBackendCv`: a CV object received from the back end, as the client's `Cv`. */
  function MapBackendCv(b: JsValue): (c: map<string, JsValue>)
    ensures c.Keys == CamelKeys
  {
    map[
      "id" := Prop(b, "id"),
      "userId" := Prop(b, "user_id"),
      "title" := Prop(b, "title"),
      "location" := Coalesce(Prop(b, "location"), Null),
      "experienceYears" := Prop(b, "experience_years"),
      "skills" := (if Prop(b, "skills").Arr? then Prop(b, "skills") else Arr([])),
      "summary" := Coalesce(Prop(b, "summary"), Null),
      "fullText" := Coalesce(Prop(b, "full_text"), Null),
      "createdAt" := Prop(b, "created_at")]
  }

  /** The client's `Cv` copies five fields of the back end's object as they are. */
  lemma MappedCvCopies(b: JsValue)
    ensures var c := MapBackendCv(b);
      && c["id"] == Prop(b, "id") && c["userId"] == Prop(b, "user_id") && c["title"] == Prop(b, "title")
      && c["experienceYears"] == Prop(b, "experience_years") && c["createdAt"] == Prop(b, "created_at")
  {
  }

  /** The client's `Cv` turns a missing `location`, `summary` or `full_text` into `null` and
      anything but an array of skills into `[]`. */
  lemma MappedCvDefaults(b: JsValue)
    ensures var c := MapBackendCv(b);
      && c["location"] == (if Prop(b, "location") in {Undefined, Null} then Null else Prop(b, "location"))
      && c["summary"] == (if Prop(b, "summary") in {Undefined, Null} then Null else Prop(b, "summary"))
      && c["fullText"] == (if Prop(b, "full_text") in {Undefined, Null} then Null else Prop(b, "full_text"))
      && c["skills"] == (if Prop(b, "skills").Arr? then Prop(b, "skills") else Arr([]))
  {
  }

  /** The body `buildSnakePayload` should produce: every payload field that is present and
      not `undefined`, under its back-end name, with its value unchanged. */
  function SnakePayload(payload: map<string, JsValue>): (out: map<string, JsValue>)
    ensures out.Keys <= SnakeToCamel.Keys
    ensures forall k | k in SnakeToCamel :: k in out <==> SnakeToCamel[k] in payload && payload[SnakeToCamel[k]] != Undefined
    ensures forall k | k in out :: out[k] == payload[SnakeToCamel[k]]
  {
    map k | k in SnakeToCamel && SnakeToCamel[k] in payload && payload[SnakeToCamel[k]] != Undefined
      :: payload[SnakeToCamel[k]]
  }

  /** One `if` of `buildSnakePayload`: copies `payload[camel]` to `out[snake]` when present
      and not `undefined`. */
  function CopyField(out: map<string, JsValue>, payload: map<string, JsValue>, camel: string, snake: string): map<string, JsValue> {
    if camel in payload && payload[camel] != Undefined then out[snake := payload[camel]] else out
  }

  /** The six copies of `buildSnakePayload`, in its order. */
  function CopyAll(payload: map<string, JsValue>): map<string, JsValue> {
    var m1 := CopyField(map[], payload, "title", "title");
    var m2 := CopyField(m1, payload, "location", "location");
    var m3 := CopyField(m2, payload, "experienceYears", "experience_years");
    var m4 := CopyField(m3, payload, "skills", "skills");
    var m5 := CopyField(m4, payload, "summary", "summary");
    CopyField(m5, payload, "fullText", "full_text")
  }

  /** Copying the six fields one by one yields exactly the reference body. */
  lemma CopyAllIsSnakePayload(payload: map<string, JsValue>)
    ensures CopyAll(payload) == SnakePayload(payload)
  {
    var c := CopyAll(payload);
    var r := SnakePayload(payload);
    forall k | k in SnakeToCamel
      ensures (k in c <==> k in r) && (k in c ==> c[k] == r[k])
    {
      CopyAllAt(payload, k);
    }
    assert c.Keys <= SnakeToCamel.Keys;
  }

  lemma CopyAllAt(payload: map<string, JsValue>, k: string)
    requires k in SnakeToCamel
    ensures k in CopyAll(payload) <==> SnakeToCamel[k] in payload && payload[SnakeToCamel[k]] != Undefined
    ensures k in CopyAll(payload) ==> CopyAll(payload)[k] == payload[SnakeToCamel[k]]
  {
  }

  /** `buildSnakePayload`: fills the body key by key. */
  method BuildSnakePayload(payload: map<string, JsValue>) returns (out: map<string, JsValue>)
    ensures out == SnakePayload(payload)
  {
    out := map[];
    if "title" in payload && payload["title"] != Undefined { out := out["title" := payload["title"]]; }
    if "location" in payload && payload["location"] != Undefined { out := out["location" := payload["location"]]; }
    if "experienceYears" in payload && payload["experienceYears"] != Undefined {
      out := out["experience_years" := payload["experienceYears"]];
    }
    if "skills" in payload && payload["skills"] != Undefined { out := out["skills" := payload["skills"]]; }
    if "summary" in payload && payload["summary"] != Undefined { out := out["summary" := payload["summary"]]; }
    if "fullText" in payload && payload["fullText"] != Undefined { out := out["full_text" := payload["fullText"]]; }
    assert out == CopyAll(payload);
    CopyAllIsSnakePayload(payload);
  }

  /** An empty payload, or one whose fields are all `undefined`, gives an empty body;
      `null` values are sent as they are. */
  lemma SnakePayloadOfEmpty(payload: map<string, JsValue>)
    requires forall k | k in payload :: payload[k] == Undefined
    ensures SnakePayload(payload) == map[]
  {
  }

  /** A CV received from the back end and sent back unchanged reproduces the back end's own
      fields, provided the fields that `mapBackendCv` defaults are really there. */
  lemma SnakePayloadOfMappedCv(b: JsValue)
    requires b.Obj?
    requires forall k | k in {"location", "summary", "full_text"} :: k in b.fields && b.fields[k] != Undefined && b.fields[k] != Null
    requires "skills" in b.fields && b.fields["skills"].Arr?
    ensures SnakePayload(MapBackendCv(b)) == map k | k in SnakeToCamel && k in b.fields && b.fields[k] != Undefined :: b.fields[k]
  {
    var c := MapBackendCv(b);
    var want := map k | k in SnakeToCamel && k in b.fields && b.fields[k] != Undefined :: b.fields[k];
    forall k | k in SnakeToCamel ensures SnakeToCamel[k] in c && c[SnakeToCamel[k]] == Prop(b, k) {
      MappedField(b, k);
    }
    assert SnakePayload(c) == want;
  }

  /** Under the conditions above, each payload field of the mapped `Cv` is the back end's
      field it came from. */
  lemma MappedField(b: JsValue, k: string)
    requires b.Obj?
    requires forall k | k in {"location", "summary", "full_text"} :: k in b.fields && b.fields[k] != Undefined && b.fields[k] != Null
    requires "skills" in b.fields && b.fields["skills"].Arr?
    requires k in SnakeToCamel
    ensures SnakeToCamel[k] in MapBackendCv(b) && MapBackendCv(b)[SnakeToCamel[k]] == Prop(b, k)
  {
    MappedCvCopies(b);
    MappedCvDefaults(b);
    if k == "location" || k == "summary" || k == "full_text" {
      assert k in {"location", "summary", "full_text"};
    }
  }

  /** The object a failing call rethrows. */
  function NetworkError(details: JsValue): JsValue {
    Obj(map["status" := Int(0), "message" := Str("Network or parsing error"), "details" := details])
  }

  /** The `catch` clause of every call: an error carrying a `status` is rethrown as it is,
      anything else is wrapped as a status-0 network error. */
  function WrapError(err: JsValue): (r: JsValue)
    ensures Prop(err, "status") != Undefined ==> r == err
    ensures Prop(err, "status") == Undefined ==> r == NetworkError(err)
    ensures Prop(r, "status") != Undefined
  {
    if Prop(err, "status") != Undefined then err else NetworkError(err)
  }

  /** Wrapping twice is wrapping once: the rethrow of an outer `catch` leaves the error alone. */
  lemma WrapErrorIdempotent(err: JsValue)
    ensures WrapError(WrapError(err)) == WrapError(err)
  {
  }

  /** The `TypeError` raised when a property of `null` or `undefined` is read. */
  const PropertyOfNullError: JsValue := Obj(map["name" := Str("TypeError")])

  /** What `deleteCv` resolves to (`Success`) or rejects with (`Failure`), given the response's
      `ok` flag, status and status text, and what reading the body gave: the parsed JSON, or
      the error the request or `res.json()` rejected with (an HTML error page, say, is no
      JSON). */
  function DeleteCvResult(ok: bool, status: int, statusText: string, body: Result<JsValue, JsValue>): (r: Result<map<string, string>, JsValue>)
    ensures body.Failure? ==> r == Failure(WrapError(body.error))
    ensures body.Success? && !ok ==>
      && r.Failure? && Prop(r.error, "status") == Int(status)
      && Prop(r.error, "message") == Coalesce(Prop(body.value, "detail"), Str(statusText))
      && Prop(r.error, "details") == body.value
    ensures body.Success? && ok && body.value !in {Null, Undefined}
      ==> r == Success(map["status" := ToJsString(Coalesce(Prop(body.value, "status"), Str("")))])
    ensures body.Success? && ok && body.value in {Null, Undefined} ==> r == Failure(NetworkError(PropertyOfNullError))
    ensures r.Failure? ==> Prop(r.error, "status") != Undefined
  {
    match body
    case Failure(err) => Failure(WrapError(err))
    case Success(json) =>
      if !ok then
        Failure(WrapError(Obj(map[
          "status" := Int(status),
          "message" := Coalesce(Prop(json, "detail"), Str(statusText)),
          "details" := json])))
      else if json in {Null, Undefined} then Failure(WrapError(PropertyOfNullError))
      else Success(map["status" := ToJsString(Coalesce(Prop(json, "status"), Str("")))])
  }

  /** A body that cannot be parsed rejects as a status-0 network or parsing error, whatever
      the response's status: the parse error carries no `status` of its own. */
  lemma UnparsedBodyIsNetworkError(ok: bool, status: int, statusText: string, err: JsValue)
    requires Prop(err, "status") == Undefined
    ensures var r := DeleteCvResult(ok, status, statusText, Failure(err));
      && r == Failure(NetworkError(err))
      && Prop(r.error, "status") == Int(0) && Prop(r.error, "message") == Str("Network or parsing error")
  {
    var e := NetworkError(err);
    assert e.fields["status"] == Int(0);
  }

  /** The back end answers a successful delete with `{"message": "CV deleted"}`, which has no
      `status`, so the client reports an empty status. */
  lemma DeleteCvOfBackendReply()
    ensures DeleteCvResult(true, 200, "OK", Success(Obj(map["message" := Str("CV deleted")]))) == Success(map["status" := ""])
  {
  }
}
