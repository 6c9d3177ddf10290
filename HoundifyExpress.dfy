/**
 * HoundifyExpress: the server-side part of the Houndify SDK. It signs
 * tokens with the secret client key, answers authentication requests for
 * voice queries, and proxies text queries to the Houndify backend with a
 * fixed allow-list of headers.
 *
 * Node's `crypto` and `Buffer` are foreign calls and stay abstract: they are
 * handed in as a `Crypto` value. The outbound HTTP call is the function
 * `backend`, from the request that is sent to what comes back.
 */
module HoundifyExpress {
  import opened JsValues
  import opened Base64Url

  newtype byte = x: int | 0 <= x < 256

  /** The foreign primitives `signToken` calls. */
  datatype Crypto = Crypto(
    /** `new Buffer(text, "base64")` */
    decodeBase64: string -> seq<byte>,
    /** `crypto.createHmac("sha256", key).update(message).digest()` */
    hmacSha256: (seq<byte>, string) -> seq<byte>,
    /** `.digest("base64")`: the standard base64 text of the digest */
    encodeBase64: seq<byte> -> string)

  /** An Express request as the handlers read it. Node lower-cases header names. */
  datatype InboundRequest = InboundRequest(
    headers: map<string, string>,
    query: map<string, string>,
    body: JsValue)

  /** What a handler passes to `res.send`. */
  datatype Reply = Text(body: string) | ErrorObject(error: string)

  /** `opts` of `createAuthenticationHandler`. */
  datatype AuthOptions = AuthOptions(clientId: string, clientKey: string)

  /** The options object handed to `request` by the text proxy. */
  datatype OutboundRequest = OutboundRequest(
    url: string,
    qs: map<string, string>,
    headers: map<string, JsValue>)

  /** What the `request` callback receives: an error, or the response body. */
  datatype BackendOutcome = TransportError(message: string) | Response(body: string)

  /** The request the proxy sends and the reply it gives its caller. */
  datatype Exchange = Exchange(outbound: OutboundRequest, reply: Reply)

  // ---------------------------------------------------------------------
  // signToken

  /** The standard base64 HMAC-SHA256 digest of `token` under the decoded client key. */
  function Digest(crypto: Crypto, token: string, clientKey: string): string {
    crypto.encodeBase64(crypto.hmacSha256(crypto.decodeBase64(UrlDecode(clientKey)), token))
  }

  /** `signToken`: the digest, written in the URL-safe alphabet. */
  function SignToken(crypto: Crypto, token: string, clientKey: string): (signature: string)
    ensures '+' !in signature && '/' !in signature
    ensures |signature| == |Digest(crypto, token, clientKey)|
  {
    UrlEncode(Digest(crypto, token, clientKey))
  }

  /**
   * When the digest is standard base64, the signature is URL-safe base64 and
   * the verifier recovers the digest from it by decoding the alphabet.
   */
  lemma SignatureCarriesDigest(crypto: Crypto, token: string, clientKey: string)
    requires IsStandardText(Digest(crypto, token, clientKey))
    ensures IsUrlSafeText(SignToken(crypto, token, clientKey))
    ensures UrlDecode(SignToken(crypto, token, clientKey)) == Digest(crypto, token, clientKey)
  {
  }

  /**
   * The key is read through `base64_url_decode`, so a client key written in
   * the standard alphabet signs exactly as its URL-safe form does.
   */
  lemma SignTokenAcceptsEitherKeyAlphabet(crypto: Crypto, token: string, clientKey: string)
    ensures SignToken(crypto, token, UrlEncode(clientKey)) == SignToken(crypto, token, clientKey)
    ensures SignToken(crypto, token, UrlDecode(clientKey)) == SignToken(crypto, token, clientKey)
  {
    DecodeAcceptsEitherAlphabet(clientKey);
  }

  // ---------------------------------------------------------------------
  // createAuthenticationHandler

  /** The reply of the handler `createAuthenticationHandler(opts)` returns. */
  function AuthenticationHandler(crypto: Crypto, opts: AuthOptions, req: InboundRequest): (reply: Reply)
    requires "token" in req.query
    ensures reply.Text?
    ensures '+' !in reply.body && '/' !in reply.body
  {
    Text(SignToken(crypto, req.query["token"], opts.clientKey))
  }

  /**
   * The authentication reply is a function of the token and the client key
   * alone: headers, body, other query parameters and the client id play no part.
   */
  lemma AuthenticationDependsOnlyOnTokenAndKey(
    crypto: Crypto, opts1: AuthOptions, opts2: AuthOptions, req1: InboundRequest, req2: InboundRequest)
    requires "token" in req1.query && "token" in req2.query
    requires req1.query["token"] == req2.query["token"]
    requires opts1.clientKey == opts2.clientKey
    ensures AuthenticationHandler(crypto, opts1, req1) == AuthenticationHandler(crypto, opts2, req2)
    ensures AuthenticationHandler(crypto, opts1, req1)
         == Text(SignToken(crypto, req2.query["token"], opts2.clientKey))
  {
  }

  // ---------------------------------------------------------------------
  // createTextProxyHandler

  const DefaultTextBackend := "https://api.houndify.com/v1/text"

  const RequestAuthentication := "Hound-Request-Authentication"
  const ClientAuthentication := "Hound-Client-Authentication"
  const RequestInfo := "Hound-Request-Info"
  const InputLanguageEnglishName := "Hound-Input-Language-English-Name"
  const InputLanguageIetfTag := "Hound-Input-Language-IETF-Tag"

  /** The only header names the proxy ever sends. */
  const AllowList: set<string> :=
    {RequestAuthentication, ClientAuthentication, RequestInfo, InputLanguageEnglishName, InputLanguageIetfTag}

  /** The inbound (lower-case) header each allow-listed header is read from. */
  const InboundName: map<string, string> := map[
    RequestAuthentication := "hound-request-authentication",
    ClientAuthentication := "hound-client-authentication",
    RequestInfo := "hound-request-info",
    InputLanguageEnglishName := "hound-input-language-english-name",
    InputLanguageIetfTag := "hound-input-language-ietf-tag"]

  /**
   * `req.headers[name]`: never an object, and truthy exactly when the header
   * was sent with a non-empty value.
   */
  function Header(req: InboundRequest, name: string): (v: JsValue)
    ensures !v.Object?
    ensures Truthy(v) <==> name in req.headers && req.headers[name] != ""
  {
    if name in req.headers then Str(req.headers[name]) else Undefined
  }

  /** The three required headers are always sent; a language hint only when its inbound header is truthy. */
  predicate IsForwarded(req: InboundRequest, name: string)
    requires name in AllowList
  {
    name in {RequestAuthentication, ClientAuthentication, RequestInfo}
    || Truthy(Header(req, InboundName[name]))
  }

  /** The value sent for an allow-listed header; request info falls back to the body. */
  function ForwardedValue(req: InboundRequest, name: string): JsValue
    requires name in AllowList
  {
    if name == RequestInfo then Or(Header(req, InboundName[name]), req.body)
    else Header(req, InboundName[name])
  }

  /**
   * The header map the proxy sends, stated per allow-listed name: no other
   * name can occur, whatever the inbound request carries.
   */
  function HoundifyHeaders(req: InboundRequest): (h: map<string, JsValue>)
    ensures h.Keys <= AllowList
    ensures RequestAuthentication in h && ClientAuthentication in h && RequestInfo in h
    ensures InputLanguageEnglishName in h <==> Truthy(Header(req, "hound-input-language-english-name"))
    ensures InputLanguageIetfTag in h <==> Truthy(Header(req, "hound-input-language-ietf-tag"))
    ensures forall name :: name in h && name != RequestInfo ==> h[name] == Header(req, InboundName[name])
    ensures h[RequestInfo] == (if Truthy(Header(req, "hound-request-info")) then Header(req, "hound-request-info") else req.body)
  {
    map name | name in AllowList && IsForwarded(req, name) :: ForwardedValue(req, name)
  }

  /**
   * The `houndifyHeaders` object literal with the three required headers,
   * then its two conditional insertions of the language hints.
   */
  method BuildHoundifyHeaders(req: InboundRequest) returns (headers: map<string, JsValue>)
    ensures headers == HoundifyHeaders(req)
  {
    headers := map[
      RequestAuthentication := Header(req, "hound-request-authentication"),
      ClientAuthentication := Header(req, "hound-client-authentication"),
      RequestInfo := Or(Header(req, "hound-request-info"), req.body)];
    if Truthy(Header(req, "hound-input-language-english-name")) {
      headers := headers[InputLanguageEnglishName := Header(req, "hound-input-language-english-name")];
    }
    if Truthy(Header(req, "hound-input-language-ietf-tag")) {
      headers := headers[InputLanguageIetfTag := Header(req, "hound-input-language-ietf-tag")];
    }
  }

  /** `altBackend || "https://api.houndify.com/v1/text"`. */
  function BackendUrl(altBackend: Option<string>): (url: string)
    ensures url != ""
    ensures url == DefaultTextBackend <==> altBackend.None? || altBackend.value in {"", DefaultTextBackend}
    ensures url != DefaultTextBackend ==> altBackend == Some(url)
  {
    if altBackend.Some? && altBackend.value != "" then altBackend.value else DefaultTextBackend
  }

  /** The reply to the caller: the backend body as it is, or `{ error: err.toString() }`. */
  function ProxyReply(outcome: BackendOutcome): (reply: Reply)
    ensures reply.ErrorObject? <==> outcome.TransportError?
    ensures outcome.Response? ==> reply.body == outcome.body
    ensures outcome.TransportError? ==> reply.error == outcome.message
  {
    match outcome
    case TransportError(message) => ErrorObject(message)
    case Response(body) => Text(body)
  }

  /** The handler `createTextProxyHandler(altBackend)` returns, for one request. */
  function TextProxyHandler(
    altBackend: Option<string>, req: InboundRequest, backend: OutboundRequest -> BackendOutcome): (ex: Exchange)
    ensures ex.outbound.url == BackendUrl(altBackend)
    ensures ex.outbound.qs == req.query
    ensures ex.outbound.headers.Keys <= AllowList
    ensures ex.outbound.headers == HoundifyHeaders(req)
    ensures ex.reply == ProxyReply(backend(ex.outbound))
  {
    var outbound := OutboundRequest(BackendUrl(altBackend), req.query, HoundifyHeaders(req));
    Exchange(outbound, ProxyReply(backend(outbound)))
  }

  /** Two requests that agree on every allow-listed inbound header. */
  predicate AgreeOnAllowList(req1: InboundRequest, req2: InboundRequest) {
    forall name :: name in AllowList ==> Header(req1, InboundName[name]) == Header(req2, InboundName[name])
  }

  /**
   * Nothing but the allow-listed headers, the query and the body reaches the
   * backend or the reply: requests that agree on these are proxied identically.
   */
  lemma ProxyDependsOnlyOnAllowList(
    altBackend: Option<string>, req1: InboundRequest, req2: InboundRequest, backend: OutboundRequest -> BackendOutcome)
    requires AgreeOnAllowList(req1, req2)
    requires req1.query == req2.query && req1.body == req2.body
    ensures HoundifyHeaders(req1) == HoundifyHeaders(req2)
    ensures TextProxyHandler(altBackend, req1, backend) == TextProxyHandler(altBackend, req2, backend)
  {
  }

  /** Any inbound header outside the allow-list, a cookie say, changes nothing the proxy does. */
  lemma ExtraHeaderIsNotForwarded(
    altBackend: Option<string>, req: InboundRequest, name: string, value: string,
    backend: OutboundRequest -> BackendOutcome)
    requires name !in InboundName.Values
    ensures var more := req.(headers := req.headers[name := value]);
      TextProxyHandler(altBackend, more, backend) == TextProxyHandler(altBackend, req, backend)
  {
    var more := req.(headers := req.headers[name := value]);
    forall n | n in AllowList ensures Header(more, InboundName[n]) == Header(req, InboundName[n]) {
      assert InboundName[n] in InboundName.Values;
    }
    ProxyDependsOnlyOnAllowList(altBackend, more, req, backend);
  }
}
