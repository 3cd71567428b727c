/** Stand-ins for the libraries the models call: werkzeug's password hashing,
    itsdangerous's timed serializer and `secrets.token_hex`. The first two are
    parameters (records of functions); what the models rely on is stated as a
    ghost predicate that only the lemmas assume. */
module Crypto {
  import opened Prelude

  type Time = int

  /** `generate_password_hash(password)` with its random salt made explicit, and
      `check_password_hash(hash, password)`. */
  datatype Hasher = Hasher(generate: (string, string) -> string, check: (string, string) -> bool)

  /** A hash is never empty and always accepts the password it was made from. */
  ghost predicate SoundHasher(h: Hasher) {
    forall salt, password :: h.generate(salt, password) != "" && h.check(h.generate(salt, password), password)
  }

  /** What `URLSafeTimedSerializer.loads` yields: the payload's `user_id` entry
      (absent when the payload has none), or the exception it raises. */
  datatype LoadResult =
    | Payload(userId: Option<int>)
    | SignatureExpired
    | BadTimeSignature
    | OtherError

  /** `dumps({'user_id': id}, salt)` at a signing time, and `loads(token, salt, max_age)`
      at the current time; the server's secret key is fixed inside both. */
  datatype Serializer = Serializer(
    dumps: (int, string, Time) -> string,
    loads: (string, string, int, Time) -> LoadResult)

  /** A token loads back to its user id under the salt it was signed with while it is
      no older than `maxAge`, and never yields a payload under any other salt. */
  ghost predicate SoundSerializer(s: Serializer) {
    && (forall id, salt, issued, maxAge, now | issued <= now <= issued + maxAge ::
          s.loads(s.dumps(id, salt, issued), salt, maxAge, now) == Payload(Some(id)))
    && (forall id, salt, other, issued, maxAge, now | salt != other ::
          !s.loads(s.dumps(id, salt, issued), other, maxAge, now).Payload?)
  }

  /** A byte, as Python's `bytes` holds it. */
  newtype byte = x: int | 0 <= x < 256

  const HexDigits := "0123456789abcdef"

  /** Lower-case hexadecimal text of a byte string, two digits per byte. */
  function HexEncode(bytes: seq<byte>): (r: string)
    ensures |r| == 2 * |bytes|
    ensures forall i :: 0 <= i < |r| ==> r[i] in HexDigits
  {
    if bytes == [] then ""
    else [HexDigits[bytes[0] as int / 16], HexDigits[bytes[0] as int % 16]] + HexEncode(bytes[1..])
  }

  ghost function DigitValue(c: char): nat {
    if '0' <= c <= '9' then c as nat - '0' as nat
    else if 'a' <= c <= 'f' then c as nat - 'a' as nat + 10
    else 0
  }

  ghost function HexDecode(s: string): seq<byte>
  {
    if |s| < 2 then []
    else
      var v := DigitValue(s[0]) * 16 + DigitValue(s[1]);
      [(if v < 256 then v else 0) as byte] + HexDecode(s[2..])
  }

  lemma DigitRoundTrip(d: nat)
    requires d < 16
    ensures DigitValue(HexDigits[d]) == d
  {
  }

  lemma ByteDigits(b: byte)
    ensures DigitValue(HexDigits[b as int / 16]) * 16 + DigitValue(HexDigits[b as int % 16]) == b as int
  {
    DigitRoundTrip(b as int / 16);
    DigitRoundTrip(b as int % 16);
  }

  lemma DecodeStep(b: byte, tail: string)
    ensures HexDecode([HexDigits[b as int / 16], HexDigits[b as int % 16]] + tail) == [b] + HexDecode(tail)
  {
    var e := [HexDigits[b as int / 16], HexDigits[b as int % 16]] + tail;
    ByteDigits(b);
    assert e[2..] == tail;
  }

  lemma {:induction false} HexDecodeEncode(bytes: seq<byte>)
    ensures HexDecode(HexEncode(bytes)) == bytes
  {
    if bytes != [] {
      DecodeStep(bytes[0], HexEncode(bytes[1..]));
      HexDecodeEncode(bytes[1..]);
      assert [bytes[0]] + bytes[1..] == bytes;
    }
  }

  /** Distinct byte strings give distinct hexadecimal text. */
  lemma HexEncodeInjective(a: seq<byte>, b: seq<byte>)
    requires HexEncode(a) == HexEncode(b)
    ensures a == b
  {
    HexDecodeEncode(a);
    HexDecodeEncode(b);
  }

  /** `secrets.token_hex(n)`: `n` random bytes (given here as `entropy`) in hexadecimal. */
  function TokenHex(entropy: seq<byte>): (r: string)
    ensures |r| == 2 * |entropy|
    ensures forall i :: 0 <= i < |r| ==> r[i] in HexDigits
  {
    HexEncode(entropy)
  }
}
