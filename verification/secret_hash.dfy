/**
 The `SECRET_HASH` the identity provider demands of a client that has a
 secret: HMAC-SHA256 (RFC 2104 over FIPS 180-4 SHA-256) keyed by the client
 secret, over the user name immediately followed by the client id, rendered
 in standard Base64.
 */
module SecretHash {
  import opened Js
  import Base64

  /** A SHA-256 sized digest: 32 bytes. */
  type Digest = d: seq<Base64.Byte> | |d| == 32 witness seq(32, _ => 0)

  /** HMAC-SHA256 with the key first and the message second. The algorithm
      is not modelled: every function of this type may stand in for it. */
  type Hmac = (string, string) -> Digest

  /** `calculateSecretHash(username, clientId, clientSecret)`. */
  function Calculate(hmac: Hmac, username: string, clientId: string, clientSecret: string): (r: string)
    ensures |r| == 44
    ensures r[43] == Base64.PAD
    ensures forall i :: 0 <= i < 43 ==> Base64.IsAlphabetChar(r[i])
    ensures Base64.Decode(r) == Some(hmac(clientSecret, username + clientId))
  {
    var digest := hmac(clientSecret, username + clientId);
    Base64.DigestShape(digest);
    Base64.DecodeEncode(digest);
    Base64.Encode(digest)
  }

  /** The result depends on the key and on the concatenated message only:
      equal keys and equal concatenations give equal hashes, however the
      message is split between user name and client id. */
  lemma OnlyKeyAndMessageMatter(hmac: Hmac, u1: string, c1: string, s1: string,
                                u2: string, c2: string, s2: string)
    requires s1 == s2 && u1 + c1 == u2 + c2
    ensures Calculate(hmac, u1, c1, s1) == Calculate(hmac, u2, c2, s2)
  {
  }

  /** With no separator between the parts, moving characters from the end
      of the user name to the front of the client id does not change the
      hash. */
  lemma NoSeparator(hmac: Hmac, clientSecret: string)
    ensures Calculate(hmac, "user@example.com", "abc", clientSecret)
         == Calculate(hmac, "user@example.co", "mabc", clientSecret)
  {
    assert "user@example.com" + "abc" == "user@example.co" + "mabc";
  }

  /** Equal hashes come from equal digests: the Base64 rendering loses
      nothing. */
  lemma EqualHashesEqualDigests(hmac: Hmac, u1: string, c1: string, s1: string,
                                u2: string, c2: string, s2: string)
    requires Calculate(hmac, u1, c1, s1) == Calculate(hmac, u2, c2, s2)
    ensures hmac(s1, u1 + c1) == hmac(s2, u2 + c2)
  {
    Base64.EncodeInjective(hmac(s1, u1 + c1), hmac(s2, u2 + c2));
  }

  /** There is no special case for an empty secret: the empty string is
      used as the key like any other. */
  lemma EmptySecretIsAKey(hmac: Hmac, username: string, clientId: string)
    ensures Base64.Decode(Calculate(hmac, username, clientId, "")) == Some(hmac("", username + clientId))
  {
  }
}
