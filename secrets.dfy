/**
 * The cryptographic primitives of the handshake as parameters: HMAC
 * (RFC 2104), base64 (RFC 4648 section 4), UTF-8 and the PBKDF2 key
 * derivation (RFC 8018 section 5.2). Only the equality of their results
 * matters to the protocol, so nothing about them is assumed.
 */
module Secrets {
  import opened Wrappers
  import opened Bytes

  datatype Crypto = Crypto(
    /** `hmac.new(key, msg).digest()`. */
    hmac: (seq<byte>, seq<byte>) -> seq<byte>,
    /** `binascii.b2a_base64(digest).decode('ascii')`. */
    b64: seq<byte> -> string,
    /** `binascii.a2b_base64(text)`; None when it raises (not base64). */
    unb64: string -> Option<seq<byte>>,
    /** `str.encode('utf-8')`. */
    utf8: string -> seq<byte>,
    /** `hexlify(pbkdf2_hmac('sha512', password, username, 10000))`. */
    kdf: (string, string) -> seq<byte>)

  /** The base64 digest of a nonce under a key: what an `auth` message carries. */
  function Sign(cr: Crypto, key: seq<byte>, nonce: string): string {
    cr.b64(cr.hmac(key, cr.utf8(nonce)))
  }

  /** What base64 guarantees: decoding an encoded digest gives it back. */
  ghost predicate Base64RoundTrips(cr: Crypto) {
    forall d :: cr.unb64(cr.b64(d)) == Some(d)
  }
}
