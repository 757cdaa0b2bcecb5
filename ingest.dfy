/**
 * POST /internal/notify and the notify token chosen at startup
 * (app.py:33-37, 204-227).
 */
module Ingest {

  import opened Options
  import opened JsonValue
  import opened Bus

  const TokenKey: string := "INTERNAL_NOTIFY_TOKEN"
  const Placeholder: string := "replace_with_your_generated_secure_random_notify_token"
  const HexDigits: string := "0123456789abcdef"

  /** secrets.token_hex: the bytes written as lower-case hexadecimal, two digits each. */
  function Hex(bytes: seq<bv8>): (h: string)
    ensures |h| == 2 * |bytes|
    ensures forall k :: 0 <= k < |h| ==> h[k] in HexDigits
  {
    if bytes == [] then ""
    else [HexDigits[bytes[0] as int / 16], HexDigits[bytes[0] as int % 16]] + Hex(bytes[1..])
  }

  /**
   * INTERNAL_NOTIFY_TOKEN as the process fixes it at startup. `drawn` are the
   * eight random bytes of the token_hex(8) default argument, `redrawn` those of
   * the second token_hex(8) drawn when the placeholder is detected.
   */
  function EffectiveToken(env: map<string, string>, drawn: seq<bv8>, redrawn: seq<bv8>): (t: string)
    requires |drawn| == 8 && |redrawn| == 8
    ensures t != Placeholder
    ensures TokenKey in env && env[TokenKey] != Placeholder ==> t == env[TokenKey]
    ensures (TokenKey !in env || env[TokenKey] == Placeholder) ==>
              |t| == 16 && forall k :: 0 <= k < |t| ==> t[k] in HexDigits
  {
    var configured := if TokenKey in env then env[TokenKey] else Hex(drawn);
    if configured == Placeholder then Hex(redrawn) else configured
  }

  /** The body as Flask sees it: not declared JSON, declared JSON but undecodable, or decoded. */
  datatype Body = NotJson | Malformed | Decoded(doc: Json)

  datatype NotifyRequest = NotifyRequest(remoteAddr: string, tokenHeader: Option<string>, body: Body)

  /** A jsonify reply of the handler, or an error page Flask produces itself. */
  datatype Reply =
    | JsonReply(code: int, status: string, message: string)
    | HttpError(code: int)
  {
    function Code(): int
    {
      match this
      case JsonReply(c, _, _) => c
      case HttpError(c) => c
    }
  }

  const Forbidden: Reply := JsonReply(403, "error", "Unauthorized")
  const JsonRequired: Reply := JsonReply(400, "error", "Invalid request, JSON required")
  const MissingMessage: Reply := JsonReply(400, "error", "Missing 'message' field")
  const Received: Reply := JsonReply(200, "success", "Notification received")
  /** get_json() on a body that does not decode: Flask answers 400 Bad Request. */
  const BadRequest: Reply := HttpError(400)
  /** data.get on a decoded value that is not an object raises AttributeError: 500. */
  const ServerError: Reply := HttpError(500)

  predicate IsLocal(addr: string)
  {
    addr == "127.0.0.1" || addr == "::1"
  }

  /** The first check: loopback callers, or callers presenting the effective token. */
  predicate Trusted(token: string, req: NotifyRequest)
  {
    IsLocal(req.remoteAddr) || req.tokenHeader == Some(token)
  }

  predicate HasObject(req: NotifyRequest)
  {
    req.body.Decoded? && req.body.doc.JObj?
  }

  datatype Verdict = Refuse(reply: Reply) | Admit(event: Event)

  /** The check ladder of internal_notify, in order; each check has its own exit. */
  function Decide(token: string, req: NotifyRequest): (v: Verdict)
    ensures v == Refuse(Forbidden) <==> !Trusted(token, req)
    ensures v == Refuse(JsonRequired) <==> Trusted(token, req) && req.body.NotJson?
    ensures v == Refuse(BadRequest) <==> Trusted(token, req) && req.body.Malformed?
    ensures v == Refuse(ServerError) <==> Trusted(token, req) && req.body.Decoded? && !req.body.doc.JObj?
    ensures v == Refuse(MissingMessage) <==>
              Trusted(token, req) && HasObject(req) && !Truthy(GetOr(req.body.doc.fields, "message", JNull))
    ensures v.Admit? <==> Trusted(token, req) && HasObject(req) && Truthy(GetOr(req.body.doc.fields, "message", JNull))
    ensures v.Admit? ==>
              v.event.message == req.body.doc.fields["message"] &&
              v.event.kind == GetOr(req.body.doc.fields, "type", JStr("info"))
  {
    if !Trusted(token, req) then Refuse(Forbidden)
    else match req.body
      case NotJson => Refuse(JsonRequired)
      case Malformed => Refuse(BadRequest)
      case Decoded(doc) =>
        if !doc.JObj? then Refuse(ServerError)
        else
          var message := GetOr(doc.fields, "message", JNull);
          var kind := GetOr(doc.fields, "type", JStr("info"));
          if !Truthy(message) then Refuse(MissingMessage) else Admit(Event(kind, message))
  }

  /** internal_notify: a 200 reply enqueues exactly the admitted event; every other reply leaves the bus alone. */
  method InternalNotify(bus: NotificationQueue, token: string, req: NotifyRequest) returns (reply: Reply)
    modifies bus
    ensures reply.Code() == 200 <==> Decide(token, req).Admit?
    ensures Decide(token, req).Admit? ==> reply == Received && bus.items == old(bus.items) + [Decide(token, req).event]
    ensures Decide(token, req).Refuse? ==> reply == Decide(token, req).reply && bus.items == old(bus.items)
  {
    var v := Decide(token, req);
    match v
    case Refuse(r) =>
      reply := r;
    case Admit(e) =>
      bus.Add(e.message, e.kind);
      reply := Received;
  }

  /** A remote caller presenting the placeholder is refused whatever the environment says. */
  lemma PlaceholderNeverAdmitsRemote(env: map<string, string>, drawn: seq<bv8>, redrawn: seq<bv8>, req: NotifyRequest)
    requires |drawn| == 8 && |redrawn| == 8
    requires !IsLocal(req.remoteAddr) && req.tokenHeader == Some(Placeholder)
    ensures Decide(EffectiveToken(env, drawn, redrawn), req) == Refuse(Forbidden)
  {
  }

  /** A remote caller without the header is refused, before its body is looked at. */
  lemma MissingHeaderRefusedFirst(token: string, req: NotifyRequest)
    requires !IsLocal(req.remoteAddr) && req.tokenHeader.None?
    ensures Decide(token, req) == Refuse(Forbidden)
  {
  }

  /** A loopback script posting {"message": m} without a token enqueues an info event carrying m. */
  lemma LoopbackMessageAdmitted(token: string, m: string, hdr: Option<string>)
    requires m != ""
    ensures Decide(token, NotifyRequest("127.0.0.1", hdr, Decoded(JObj(map["message" := JStr(m)])))) == Admit(Note(m, "info"))
  {
  }
}
