/**
 * The Pub/Sub push endpoint (backend/app/api/api_v1/endpoints/pubsub.py): decoding of
 * the push envelope and the mapping of the media worker's outcome to a reply. Base64
 * decoding, the UTF-8 decoding plus `json.loads` of the payload, and the worker call are
 * oracles.
 */
module PubSubApi {
  import opened Wrappers
  import opened JsonValue
  import PubSubClient

  /** `base64.b64decode`, and UTF-8 decoding followed by `json.loads`; each gives the
      text of what it raised on failure. */
  type B64 = string -> Result<seq<bv8>, string>
  type Parse = seq<bv8> -> Result<Json, string>

  /** `PubSubMessage` */
  datatype Envelope = Envelope(messageId: Option<Json>, publishTime: Option<Json>, attributes: Json, data: Json)

  /** What building the envelope can raise: an exception whose text the model knows, or
      a type error (`.get` on something that is not a dict, `b64decode` of something that
      is not a string) whose text it does not. */
  datatype Raised = Known(message: string) | TypeFailure

  /** `request_json.get("message", {})` */
  function MessageOf(fields: map<string, Json>): Json {
    if "message" in fields then fields["message"] else JObject(map[])
  }

  /** `PubSubMessage(request_json)`: the id, time and attributes are copied (attributes
      default to an empty object); a truthy `data` is base64-decoded and parsed, anything
      else gives an empty object. */
  function ParseEnvelope(request: Json, b64: B64, parse: Parse): (r: Result<Envelope, Raised>)
    ensures r.Success? ==>
      request.JObject? && MessageOf(request.fields).JObject? &&
      var m := MessageOf(request.fields).fields;
      && r.value.messageId == Get(m, "messageId")
      && r.value.publishTime == Get(m, "publishTime")
      && r.value.attributes == (if "attributes" in m then m["attributes"] else JObject(map[]))
    ensures r.Success? ==>
      var m := MessageOf(request.fields).fields;
      if "data" in m && Truthy(m["data"]) then
        m["data"].JStr? && b64(m["data"].s).Success? && parse(b64(m["data"].s).value) == Success(r.value.data)
      else r.value.data == JObject(map[])
  {
    if !request.JObject? then Failure(TypeFailure)
    else
      var message := MessageOf(request.fields);
      if !message.JObject? then Failure(TypeFailure)
      else
        var m := message.fields;
        var attributes := if "attributes" in m then m["attributes"] else JObject(map[]);
        var data := if "data" in m then m["data"] else JStr("");
        if !Truthy(data) then Success(Envelope(Get(m, "messageId"), Get(m, "publishTime"), attributes, JObject(map[])))
        else if !data.JStr? then Failure(TypeFailure)
        else match b64(data.s)
          case Failure(e) => Failure(Known(e))
          case Success(bytes) =>
            match parse(bytes)
            case Failure(e) => Failure(Known(e))
            case Success(j) => Success(Envelope(Get(m, "messageId"), Get(m, "publishTime"), attributes, j))
  }

  /** Data that is missing or empty, or payloads that do not decode: the first gives an
      empty object, the others raise. */
  lemma DataDecoding(m: map<string, Json>, b64: B64, parse: Parse)
    ensures ("data" !in m || m["data"] == JStr("")) ==>
      ParseEnvelope(JObject(map["message" := JObject(m)]), b64, parse).Success? &&
      ParseEnvelope(JObject(map["message" := JObject(m)]), b64, parse).value.data == JObject(map[])
    ensures "data" in m && m["data"].JStr? && m["data"].s != "" && b64(m["data"].s).Failure? ==>
      ParseEnvelope(JObject(map["message" := JObject(m)]), b64, parse) == Failure(Known(b64(m["data"].s).error))
  {
  }

  /** The endpoint's answer: the worker's outcome for the media id, an HTTPException, or
      a 500 carrying the text of a type error the model does not spell out. */
  datatype Reply = Ok(outcome: string, mediaId: Json) | HttpError(status: nat, detail: string) | Crashed(prefix: string)

  const ErrorPrefix := "Error processing Pub/Sub message: "

  /** The 400 for a missing media id is raised inside the `try` and re-raised by the
      generic handler with its text, `"400: " + detail`. */
  const MissingMediaId := ErrorPrefix + "400: Media ID not found in message"

  /** `handle_media_new`: an unreadable body is 400; an envelope that does not decode, a
      missing media id and a worker exception are 500; otherwise the worker's True or
      False becomes "success" or "error" with the media id. */
  function HandleMediaNew(body: Result<Json, string>, b64: B64, parse: Parse, process: Json -> Result<bool, string>)
    : (r: Reply)
    ensures body.Failure? ==> r == HttpError(400, "Invalid request body")
    ensures body.Success? && ParseEnvelope(body.value, b64, parse).Failure? ==>
      var e := ParseEnvelope(body.value, b64, parse).error;
      r == (if e.Known? then HttpError(500, ErrorPrefix + e.message) else Crashed(ErrorPrefix))
    ensures r.Ok? ==>
      body.Success? && ParseEnvelope(body.value, b64, parse).Success? &&
      var data := ParseEnvelope(body.value, b64, parse).value.data;
      && data.JObject? && "media_id" in data.fields && Truthy(data.fields["media_id"])
      && r.mediaId == data.fields["media_id"]
      && process(r.mediaId).Success?
      && (r.outcome == "success" <==> process(r.mediaId).value)
      && (r.outcome == "error" <==> !process(r.mediaId).value)
  {
    match body
    case Failure(_) => HttpError(400, "Invalid request body")
    case Success(request) =>
      match ParseEnvelope(request, b64, parse)
      case Failure(Known(e)) => HttpError(500, ErrorPrefix + e)
      case Failure(TypeFailure) => Crashed(ErrorPrefix)
      case Success(envelope) =>
        if !envelope.data.JObject? then Crashed(ErrorPrefix)
        else
          var mediaId := Get(envelope.data.fields, "media_id");
          if mediaId.None? || !Truthy(mediaId.value) then HttpError(500, MissingMediaId)
          else match process(mediaId.value)
            case Failure(e) => HttpError(500, ErrorPrefix + e)
            case Success(ok) => Ok(if ok then "success" else "error", mediaId.value)
  }

  /** A decoded object without a truthy media id ends in 500, not 400, and never
      reaches the worker. */
  lemma MissingMediaIdIs500(body: Json, b64: B64, parse: Parse, process: Json -> Result<bool, string>)
    requires ParseEnvelope(body, b64, parse).Success?
    requires var data := ParseEnvelope(body, b64, parse).value.data;
      data.JObject? && ("media_id" !in data.fields || !Truthy(data.fields["media_id"]))
    ensures HandleMediaNew(Success(body), b64, parse, process) == HttpError(500, MissingMediaId)
  {
  }

  /** A dict message published by the real client reaches the worker: when Pub/Sub
      delivers its bytes base64-encoded and they parse back to the dict, the endpoint
      hands the dict's media id to the worker and reports its outcome. */
  lemma PublishedDictReachesWorker(body: Json, wire: string, mediaId: Json, dumps: PubSubClient.Dumps,
                                   utf8: PubSubClient.Utf8, b64: B64, parse: Parse,
                                   process: Json -> Result<bool, string>)
    requires Truthy(mediaId) && wire != ""
    requires b64(wire) == Success(PubSubClient.EncodeMessage(PubSubClient.DictMessage(body), dumps, utf8))
    requires parse(utf8(dumps(body))) == Success(body)
    requires body == JObject(map["media_id" := mediaId])
    requires process(mediaId).Success?
    ensures var request := JObject(map["message" := JObject(map["data" := JStr(wire)])]);
      HandleMediaNew(Success(request), b64, parse, process)
      == Ok(if process(mediaId).value then "success" else "error", mediaId)
  {
    var request := JObject(map["message" := JObject(map["data" := JStr(wire)])]);
    assert ParseEnvelope(request, b64, parse).Success?;
    assert ParseEnvelope(request, b64, parse).value.data == body;
  }
}
