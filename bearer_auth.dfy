/** The `verifyToken` middleware of routes/payments.js: the bearer token is
    the second space-separated field of the `Authorization` header, and the
    signature check is an oracle `verify` that yields the decoded payload or
    `None` where `jwt.verify` throws. */
module BearerAuth {
  import opened Wrappers
  import opened Text
  import opened JsValues

  /** `authorization?.split(' ')[1]`: absent without a header, and never
      holding a space. */
  function BearerToken(authorization: Option<string>): (token: Option<string>)
    ensures authorization.None? ==> token.None?
    ensures token.Some? ==> ' ' !in token.value
  {
    match authorization
    case None => None
    case Some(h) =>
      var parts := Split(h);
      if |parts| >= 2 then Some(parts[1]) else None
  }

  /** `!token` fails: no header, no space in it, or an empty second field.
      A usable token needs a header with a space in it. */
  function HasToken(authorization: Option<string>): (b: bool)
    ensures b ==> authorization.Some? && ' ' in authorization.value
  {
    var token := BearerToken(authorization);
    if authorization.None? then false
    else NoSpaceNoToken(authorization.value); token.Some? && token.value != ""
  }

  /** The header is a first field, a space, the token, and then either nothing
      or a space followed by anything. */
  predicate BearerShape(header: string, scheme: string, token: string, rest: string) {
    && ' ' !in scheme
    && ' ' !in token
    && (rest == [] || rest[0] == ' ')
    && header == scheme + " " + token + rest
  }

  /** A header of bearer shape yields exactly its second field. */
  lemma BearerTokenOfShape(header: string, scheme: string, token: string, rest: string)
    requires BearerShape(header, scheme, token, rest)
    ensures BearerToken(Some(header)) == Some(token)
  {
    assert header == scheme + " " + (token + rest);
    SplitAtFirstSpace(scheme, token + rest);
    if rest == [] {
      assert token + rest == token;
      SplitNoSpace(token);
    } else {
      assert token + rest == token + " " + rest[1..];
      SplitAtFirstSpace(token, rest[1..]);
    }
  }

  /** Conversely, every token extracted comes from a header of bearer shape. */
  lemma BearerTokenHasShape(header: string, token: string)
    requires BearerToken(Some(header)) == Some(token)
    ensures exists scheme, rest :: BearerShape(header, scheme, token, rest)
  {
    var parts := Split(header);
    JoinSplit(header);
    assert Join(parts) == parts[0] + " " + Join(parts[1..]);
    var tail := parts[1..];
    assert tail[0] == token;
    var rest := if |tail| == 1 then [] else " " + Join(tail[1..]);
    assert Join(tail) == token + rest;
    assert header == parts[0] + " " + token + rest;
    assert BearerShape(header, parts[0], token, rest);
  }

  /** A header without a space has no second field. */
  lemma NoSpaceNoToken(header: string)
    ensures BearerToken(Some(header)) == None <==> ' ' !in header
  {
    if ' ' !in header {
      SplitNoSpace(header);
    } else {
      var i :| 0 <= i < |header| && header[i] == ' ';
      if BearerToken(Some(header)) == None {
        JoinSplit(header);
        assert false;
      }
    }
  }

  /** Two spaces in a row make the second field empty, which is rejected. */
  lemma DoubleSpaceRejected(scheme: string, rest: string)
    requires ' ' !in scheme
    ensures !HasToken(Some(scheme + "  " + rest))
  {
    assert scheme + "  " + rest == scheme + " " + ([] + " " + rest);
    SplitAtFirstSpace(scheme, [] + " " + rest);
    SplitAtFirstSpace([], rest);
  }

  const NoTokenMessage := "Token no proporcionado"
  const InvalidTokenMessage := "Token inv\U{00E1}lido"

  /** What the middleware does with the request: pass it on, or answer it. */
  datatype Gate = Next | Respond(status: nat, message: string)

  /** `jwt.verify` returned a payload and `decoded.userId` can be read off it.
      On a `null` or `undefined` payload that read throws a `TypeError`, which
      the same `catch` turns into the invalid-token answer. */
  predicate PayloadAccepted(decoded: Option<JsValue>) {
    decoded.Some? && HasProperties(decoded.value)
  }

  /** The part of an Express request the payment routes read and write. */
  class Request {
    const authorization: Option<string>
    const body: map<string, JsValue>
    var userId: JsValue

    constructor (authorization: Option<string>, body: map<string, JsValue>)
      ensures this.authorization == authorization && this.body == body
      ensures userId == Undefined
    {
      this.authorization := authorization;
      this.body := body;
      userId := Undefined;
    }

    /** `verifyToken(req, res, next)`: `gate == Next` stands for calling
        `next()`. */
    method VerifyToken(verify: string -> Option<JsValue>) returns (gate: Gate)
      modifies this`userId
      ensures !HasToken(authorization) ==>
        gate == Respond(401, NoTokenMessage) && userId == old(userId)
      ensures HasToken(authorization) ==>
        var decoded := verify(BearerToken(authorization).value);
        && (!PayloadAccepted(decoded) ==>
              gate == Respond(401, InvalidTokenMessage) && userId == old(userId))
        && (PayloadAccepted(decoded) ==>
              gate == Next && userId == Property(decoded.value, "userId"))
    {
      var token := BearerToken(authorization);
      if token.None? || token.value == "" {
        return Respond(401, NoTokenMessage);
      }
      var decoded := verify(token.value);
      if decoded.None? || !HasProperties(decoded.value) {
        return Respond(401, InvalidTokenMessage);
      }
      userId := Property(decoded.value, "userId");
      gate := Next;
    }
  }

  /** A token signed at login carries the payload `{ id }` plus the `iat`
      that `jwt.sign` adds. It passes the middleware, but since the payload
      has no `userId` the request goes on with `req.userId` undefined. */
  method LoginTokenLeavesUserUndefined(authorization: Option<string>, id: JsValue, iat: JsValue)
    returns (gate: Gate, userId: JsValue)
    requires HasToken(authorization)
    ensures gate == Next && userId == Undefined
  {
    var req := new Request(authorization, map[]);
    gate := req.VerifyToken(_ => Some(Obj(map["id" := id, "iat" := iat])));
    userId := req.userId;
  }

  /** A verified token whose payload is `null` is answered as invalid. */
  method NullPayloadRejected(authorization: Option<string>) returns (gate: Gate)
    requires HasToken(authorization)
    ensures gate == Respond(401, InvalidTokenMessage)
  {
    var req := new Request(authorization, map[]);
    gate := req.VerifyToken(_ => Some(Null));
  }
}
