/**
 * Conversion between the standard base64 alphabet (section 4 of RFC 4648)
 * and the URL and filename safe alphabet (section 5 of RFC 4648). The two
 * alphabets differ in two characters only: `+` is written `-` and `/` is
 * written `_`. The pad character `=` is left alone in both directions.
 */
module Base64Url {

  /**
   * Every occurrence of `from` replaced by `to`, as JavaScript's
   * `s.replace(/x/g, "y")` does for a one-character pattern.
   */
  function ReplaceAll(s: string, from: char, to: char): (r: string)
    ensures |r| == |s|
    ensures forall i :: 0 <= i < |s| ==> r[i] == (if s[i] == from then to else s[i])
  {
    if s == [] then [] else [if s[0] == from then to else s[0]] + ReplaceAll(s[1..], from, to)
  }

  /** `base64_url_decode`: from the URL-safe alphabet back to the standard one. */
  function UrlDecode(input: string): (r: string)
    ensures |r| == |input|
    ensures forall i :: 0 <= i < |input| ==>
      r[i] == (if input[i] == '-' then '+' else if input[i] == '_' then '/' else input[i])
    ensures '-' !in r && '_' !in r
  {
    ReplaceAll(ReplaceAll(input, '-', '+'), '_', '/')
  }

  /** `base64_url_encode`: from the standard alphabet to the URL-safe one. */
  function UrlEncode(input: string): (r: string)
    ensures |r| == |input|
    ensures forall i :: 0 <= i < |input| ==>
      r[i] == (if input[i] == '+' then '-' else if input[i] == '/' then '_' else input[i])
    ensures '+' !in r && '/' !in r
  {
    ReplaceAll(ReplaceAll(input, '+', '-'), '/', '_')
  }

  predicate IsAlphanumeric(c: char) {
    'A' <= c <= 'Z' || 'a' <= c <= 'z' || '0' <= c <= '9'
  }

  /** A character of the standard base64 alphabet, or the pad. */
  predicate IsStandardChar(c: char) {
    IsAlphanumeric(c) || c == '+' || c == '/' || c == '='
  }

  /** A character of the URL and filename safe base64 alphabet, or the pad. */
  predicate IsUrlSafeChar(c: char) {
    IsAlphanumeric(c) || c == '-' || c == '_' || c == '='
  }

  predicate IsStandardText(s: string) {
    forall i :: 0 <= i < |s| ==> IsStandardChar(s[i])
  }

  predicate IsUrlSafeText(s: string) {
    forall i :: 0 <= i < |s| ==> IsUrlSafeChar(s[i])
  }

  /** Decoding puts a URL-safe text into the standard alphabet, and encoding gives it back. */
  lemma DecodeIntoStandardAlphabet(u: string)
    requires IsUrlSafeText(u)
    ensures IsStandardText(UrlDecode(u))
    ensures UrlEncode(UrlDecode(u)) == u
  {
  }

  /** Encoding puts a standard text into the URL-safe alphabet, and decoding gives it back. */
  lemma EncodeIntoUrlSafeAlphabet(s: string)
    requires IsStandardText(s)
    ensures IsUrlSafeText(UrlEncode(s))
    ensures UrlDecode(UrlEncode(s)) == s
  {
  }

  /** Encoding undoes decoding exactly when the input holds no standard-only character. */
  lemma EncodeDecodeRoundTrip(s: string)
    ensures UrlEncode(UrlDecode(s)) == s <==> '+' !in s && '/' !in s
  {
  }

  /** Decoding undoes encoding exactly when the input holds no URL-safe-only character. */
  lemma DecodeEncodeRoundTrip(s: string)
    ensures UrlDecode(UrlEncode(s)) == s <==> '-' !in s && '_' !in s
  {
  }

  /**
   * Decoding reads both alphabets alike: a text and its URL-safe form decode
   * to the same standard text, and decoding twice is decoding once.
   */
  lemma DecodeAcceptsEitherAlphabet(s: string)
    ensures UrlDecode(UrlEncode(s)) == UrlDecode(s)
    ensures UrlDecode(UrlDecode(s)) == UrlDecode(s)
  {
  }

  /**
   * Encoding writes both alphabets alike: a text and its standard form encode
   * to the same URL-safe text, and encoding twice is encoding once.
   */
  lemma EncodeAcceptsEitherAlphabet(s: string)
    ensures UrlEncode(UrlDecode(s)) == UrlEncode(s)
    ensures UrlEncode(UrlEncode(s)) == UrlEncode(s)
  {
  }
}
