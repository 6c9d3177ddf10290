# HoundifyExpress, modelled in Dafny

A model of `HoundifyExpress`, the server-side part of the Houndify JavaScript SDK
that the Call-Houndify demo backend uses. It has three parts:

- **Base64 alphabet conversion** (`base64_url_decode`, `base64_url_encode`): the
  switch between the standard base64 alphabet (section 4 of RFC 4648) and the URL
  and filename safe alphabet (section 5 of RFC 4648). Each is modelled exactly as
  written, as two global one-character replacements (`Base64Url.ReplaceAll`).
- **Token signing** (`signToken`): the client key is put into the standard
  alphabet, decoded to bytes, used as the HMAC-SHA256 key over the token, and the
  base64 digest is written in the URL-safe alphabet. Node's `Buffer` decoding,
  HMAC-SHA256 and base64 digest encoding are foreign calls. They are the three
  fields of a `Crypto` value that the model takes as a parameter.
- **Express handlers** (`createAuthenticationHandler`, `createTextProxyHandler`):
  each handler is a function from an inbound request (lower-case header map,
  query map, body) to what it passes to `res.send`. The text proxy also yields
  the options object it hands to `request`: URL, query and headers. The backend
  is a parameter `backend: OutboundRequest -> BackendOutcome`, so the reply is
  tied to exactly what was sent.

Files: `JsValues.dfy` (the JavaScript values the handlers inspect, truthiness and
`||`), `Base64Url.dfy` (the alphabet conversion and its lemmas),
`HoundifyExpress.dfy` (the exported signing and handler logic).

The header object of the text proxy is built in place in the source: an object
literal, then two conditional insertions. `BuildHoundifyHeaders` is that step-by-step
construction. It is proved equal to `HoundifyHeaders`, which defines the same map
declaratively, one allow-listed name at a time. The handler and the lemmas use
that function.

Two facts about the code shape the model:

- The code shown has no error path for a malformed client key. The key goes
  straight into `new Buffer(key, "base64")`, which is a foreign call here.
- A missing token reaches `signToken` as `undefined` (see "Left out").

The doc comment of `signToken` (houndify-express.js line 35) says it returns an
object with two header keys. The code returns the signature string, and so does
the model.

## Model

| member | source | states |
|---|---|---|
| `Base64Url.ReplaceAll` | node_modules/houndify/dist/houndify-express.js:17 | a global one-character `replace` keeps the length and changes exactly the occurrences of the pattern character, leaving every other position as it was |
| `Base64Url.UrlDecode` | node_modules/houndify/dist/houndify-express.js:16-18 | `base64_url_decode` keeps the length, turns every `-` into `+` and every `_` into `/`, leaves every other character alone, and its result holds no `-` or `_` |
| `Base64Url.UrlEncode` | node_modules/houndify/dist/houndify-express.js:21-23 | `base64_url_encode` keeps the length, turns every `+` into `-` and every `/` into `_`, leaves every other character alone, and its result holds no `+` or `/` |
| `Base64Url.DecodeIntoStandardAlphabet` | node_modules/houndify/dist/houndify-express.js:15-23 | decoding maps URL-safe base64 text into the standard alphabet, and encoding restores it |
| `Base64Url.EncodeIntoUrlSafeAlphabet` | node_modules/houndify/dist/houndify-express.js:15-23 | encoding maps standard base64 text into the URL-safe alphabet, and decoding restores it |
| `Base64Url.EncodeDecodeRoundTrip` | node_modules/houndify/dist/houndify-express.js:15-23 | `encode(decode(s)) == s` holds if and only if `s` holds no `+` and no `/` |
| `Base64Url.DecodeEncodeRoundTrip` | node_modules/houndify/dist/houndify-express.js:15-23 | `decode(encode(s)) == s` holds if and only if `s` holds no `-` and no `_` |
| `Base64Url.DecodeAcceptsEitherAlphabet` | node_modules/houndify/dist/houndify-express.js:16-18 | a text and its URL-safe form decode alike, and decoding is idempotent |
| `Base64Url.EncodeAcceptsEitherAlphabet` | node_modules/houndify/dist/houndify-express.js:21-23 | a text and its standard form encode alike, and encoding is idempotent |
| `HoundifyExpress.SignToken` | node_modules/houndify/dist/houndify-express.js:37-41 | the signature never holds `+` or `/` and is as long as the base64 digest; it is a function of the token and the key (and the crypto primitives) alone |
| `HoundifyExpress.SignatureCarriesDigest` | node_modules/houndify/dist/houndify-express.js:39-40 | when the digest is standard base64, the signature is URL-safe base64 and decoding its alphabet gives back the digest |
| `HoundifyExpress.SignTokenAcceptsEitherKeyAlphabet` | node_modules/houndify/dist/houndify-express.js:38 | a client key in the standard alphabet signs exactly like its URL-safe form, because the key goes through `base64_url_decode` first |
| `HoundifyExpress.AuthenticationHandler` | node_modules/houndify/dist/houndify-express.js:53-58 | the authentication reply is a string body, and that string holds no `+` or `/` |
| `HoundifyExpress.AuthenticationDependsOnlyOnTokenAndKey` | node_modules/houndify/dist/houndify-express.js:53-58 | the reply is exactly `signToken(req.query.token, opts.clientKey)`; headers, body, other query parameters and the client id do not affect it |
| `JsValues.Truthy` | node_modules/houndify/dist/houndify-express.js:85-88 | the truthiness tests on the language-hint headers: among the modelled values, exactly `undefined` and the empty string are falsy |
| `JsValues.Or` | node_modules/houndify/dist/houndify-express.js:82 | JavaScript's logical or of `a` and `b` yields the left operand when it is truthy and the right one otherwise, and is truthy exactly when one operand is |
| `HoundifyExpress.Header` | node_modules/houndify/dist/houndify-express.js:77-88 | reading `req.headers[name]` never yields an object, and yields a truthy value exactly when the header was sent with a non-empty value |
| `HoundifyExpress.HoundifyHeaders` | node_modules/houndify/dist/houndify-express.js:75-88 | the forwarded map has only allow-listed names; the three required names are always present; each language hint is present exactly when its inbound header is truthy; each value is copied from the matching lower-case inbound header, except request info, which falls back to the body when the header is falsy |
| `HoundifyExpress.BuildHoundifyHeaders` | node_modules/houndify/dist/houndify-express.js:76-88 | building the map in place (literal, then two conditional insertions) gives exactly the allow-list map above |
| `HoundifyExpress.BackendUrl` | node_modules/houndify/dist/houndify-express.js:73 | the backend URL is never empty; it is the default text endpoint exactly when `altBackend` is missing, empty, or that endpoint itself; any other URL is `altBackend` |
| `HoundifyExpress.ProxyReply` | node_modules/houndify/dist/houndify-express.js:94-99 | the reply is an `{error: …}` object exactly when the request failed, carrying the error's text; otherwise it is the backend body unmodified |
| `HoundifyExpress.TextProxyHandler` | node_modules/houndify/dist/houndify-express.js:70-103 | the outbound request goes to the backend URL above, carries the inbound query unchanged, and its headers are exactly the allow-list map `HoundifyHeaders(req)` (so only allow-listed names); the reply is the reply rule applied to what the backend returns for that very request |
| `HoundifyExpress.ProxyDependsOnlyOnAllowList` | node_modules/houndify/dist/houndify-express.js:75-93 | two requests that agree on the five allow-listed inbound headers, the query and the body are proxied identically: same outbound request and, for any backend, same reply |
| `HoundifyExpress.ExtraHeaderIsNotForwarded` | node_modules/houndify/dist/houndify-express.js:75-93 | adding any inbound header outside the allow-list (a cookie, an internal routing header) changes neither the outbound request nor the reply |

## Left out

- HMAC-SHA256, `new Buffer(…, "base64")` and `digest("base64")` are foreign calls into Node's `crypto` and `Buffer`. They are the uninterpreted fields of `Crypto`. The model makes no claim about their results and does not model a malformed-key decode.
- The UTF-8 encoding of the token inside `hmac.update` belongs to the foreign HMAC field too.
- `AuthenticationHandler`: requires a `token` query parameter. The handler's doc comment says the request contains one. With no token, the code passes `undefined` to `crypto`, and what `crypto` does then is not part of this model.
- The outbound HTTP call made by `request` (network, method, timeouts) is the abstract `backend` function. Its callback's `err.toString()` is the `message` of `TransportError`.
- `res.send` content negotiation (status line, content type, JSON serialisation of the error object) is not modelled. A reply is either a text body or an error object.
- Query values are modelled as strings. Express can also parse array and object query values; these are forwarded unchanged by the same code, but they are not modelled.
- Inbound header values are modelled as strings. Node's array-valued `set-cookie` header is outside the allow-list and never read.
- `app.js` (Express route wiring, Twilio markup, client callbacks, HTTPS set-up, WAV streaming) is not part of this model. It is I/O glue over SDKs whose source is not shown.
- The example scripts `node-client-text.js` and `node-client-voice.js` are not part of this model. They are demo scripts around one SDK call.
- The client-side `HoundifyClient`, including its conversation state, is not part of this model. Its source is not shown.
