/** Password hashing as the user model uses it (bcryptjs `genSalt(12)`,
    `hash`, `compare`). The hash is a one-way value that remembers what it
    was computed from, and the random salt is a parameter. What `compare`
    checks is what bcrypt's key schedule reads: the UTF-8 bytes of the
    password followed by a NUL byte, repeated, of which only the first 72
    bytes are used. */
module Crypto {

  /** The cost factor passed to `genSalt`. */
  const SaltRounds := 12

  /** How many key bytes the Blowfish key schedule reads. */
  const KeyBytes := 72

  type Byte = b: int | 0 <= b < 256

  /** A stored password: the plaintext as first assigned, or a hash of a
      previous value (hashing a hash is possible and yields a hash of it). */
  datatype Secret = Plain(text: string) | Hashed(rounds: nat, salt: nat, input: Secret)

  /** `bcrypt.hash(value, await bcrypt.genSalt(12))`. */
  function Hash(s: Secret, salt: nat): (h: Secret)
    ensures h.Hashed? && h.rounds == SaltRounds
    ensures h != s
  {
    assert s < Hashed(SaltRounds, salt, s);
    Hashed(SaltRounds, salt, s)
  }

  /** The number of bytes of a UTF-8 sequence, read from its first byte. */
  function Width(lead: Byte): nat {
    if lead < 0x80 then 1 else if lead < 0xE0 then 2 else if lead < 0xF0 then 3 else 4
  }

  /** The code point a UTF-8 sequence of one to four bytes spells. */
  function CodePoint(bs: seq<Byte>): int
    requires 1 <= |bs| <= 4
  {
    var b := seq(|bs|, i requires 0 <= i < |bs| => bs[i] as int);
    if |b| == 1 then b[0]
    else if |b| == 2 then (b[0] - 0xC0) * 64 + (b[1] - 0x80)
    else if |b| == 3 then ((b[0] - 0xE0) * 64 + (b[1] - 0x80)) * 64 + (b[2] - 0x80)
    else (((b[0] - 0xF0) * 64 + (b[1] - 0x80)) * 64 + (b[2] - 0x80)) * 64 + (b[3] - 0x80)
  }

  /** The UTF-8 encoding of one character. */
  function EncodeChar(c: char): (bs: seq<Byte>)
    ensures 1 <= |bs| <= 4 && |bs| == Width(bs[0])
    ensures CodePoint(bs) == c as int
    ensures c != '\0' ==> forall i :: 0 <= i < |bs| ==> bs[i] != 0
  {
    var n := c as int;
    var q1 := n / 64;
    var q2 := q1 / 64;
    var q3 := q2 / 64;
    if n < 0x80 then [n]
    else if n < 0x800 then [0xC0 + q1, 0x80 + n % 64]
    else if n < 0x10000 then [0xE0 + q2, 0x80 + q1 % 64, 0x80 + n % 64]
    else [0xF0 + q3, 0x80 + q2 % 64, 0x80 + q1 % 64, 0x80 + n % 64]
  }

  /** The UTF-8 encoding of a string, as bcryptjs converts a password. */
  function Utf8(s: string): (bs: seq<Byte>)
    ensures |bs| >= |s|
    ensures '\0' !in s ==> forall i :: 0 <= i < |bs| ==> bs[i] != 0
  {
    if s == [] then [] else EncodeChar(s[0]) + Utf8(s[1..])
  }

  /** The encoding of a concatenation is the concatenation of the encodings. */
  lemma {:induction false} Utf8Append(a: string, b: string)
    ensures Utf8(a + b) == Utf8(a) + Utf8(b)
  {
    if a == [] {
      assert a + b == b;
    } else {
      assert (a + b)[0] == a[0];
      assert (a + b)[1..] == a[1..] + b;
      Utf8Append(a[1..], b);
      var e := EncodeChar(a[0]);
      assert Utf8(a + b) == e + (Utf8(a[1..]) + Utf8(b));
      assert e + (Utf8(a[1..]) + Utf8(b)) == (e + Utf8(a[1..])) + Utf8(b);
    }
  }

  /** Different strings have different encodings. */
  lemma {:induction false} Utf8Injective(a: string, b: string)
    requires Utf8(a) == Utf8(b)
    ensures a == b
  {
    if a != [] {
      var w := |EncodeChar(a[0])|;
      assert Utf8(a)[..w] == EncodeChar(a[0]);
      assert Utf8(b)[..w] == EncodeChar(b[0]) by {
        assert EncodeChar(b[0])[0] == Utf8(b)[0] == Utf8(a)[0] == EncodeChar(a[0])[0];
      }
      assert a[0] as int == b[0] as int;
      assert Utf8(a[1..]) == Utf8(a)[w..] == Utf8(b)[w..] == Utf8(b[1..]);
      Utf8Injective(a[1..], b[1..]);
    }
  }

  /** The key bcrypt reads: the password's bytes and a terminating NUL. */
  function Key(s: string): (k: seq<Byte>)
    ensures |k| == |Utf8(s)| + 1 && k[|k| - 1] == 0
  {
    Utf8(s) + [0]
  }

  /** The first `n` bytes of `k` repeated end to end. */
  function Repeat(k: seq<Byte>, n: nat): (r: seq<Byte>)
    requires |k| > 0
    ensures |r| == n
    decreases n
  {
    if n <= |k| then k[..n] else k + Repeat(k, n - |k|)
  }

  /** The 72 bytes the key schedule consumes: the key repeated from the start. */
  function Stream(s: string): (ks: seq<Byte>)
    ensures |ks| == KeyBytes
  {
    Repeat(Key(s), KeyBytes)
  }

  /** `bcrypt.compare(candidate, stored)`: whether the candidate's key stream
      is that of the hashed password. A stored value that is not a hash never
      matches. */
  function Compare(candidate: string, stored: Secret): (b: bool)
    ensures b ==> stored.Hashed?
  {
    stored.Hashed? && stored.input.Plain? && Stream(candidate) == Stream(stored.input.text)
  }

  /** A hash accepts exactly the candidates whose first 72 key bytes are its
      password's, whatever the salt. */
  lemma CompareHash(candidate: string, password: string, salt: nat)
    ensures Compare(candidate, Hash(Plain(password), salt)) <==> Stream(candidate) == Stream(password)
  {
  }

  /** A hash accepts the password it was computed from. */
  lemma HashAcceptsItsPassword(password: string, salt: nat)
    ensures Compare(password, Hash(Plain(password), salt))
  {
  }

  /** For passwords shorter than 72 bytes and free of NUL characters, the
      comparison is exact: it accepts that password and nothing else. */
  lemma ShortPasswordsExact(candidate: string, password: string, salt: nat)
    requires '\0' !in candidate && '\0' !in password
    requires |Utf8(candidate)| < KeyBytes && |Utf8(password)| < KeyBytes
    ensures Compare(candidate, Hash(Plain(password), salt)) <==> candidate == password
  {
    if Stream(candidate) == Stream(password) {
      var kc, kp := Key(candidate), Key(password);
      StreamStartsWithKey(candidate);
      StreamStartsWithKey(password);
      assert kc == Stream(candidate)[..|kc|] == kp;
      assert Utf8(candidate) == kc[..|kc| - 1] == Utf8(password);
      Utf8Injective(candidate, password);
    }
  }

  /** A key of at most 72 bytes is read whole before it repeats. */
  lemma StreamStartsWithKey(s: string)
    requires |Key(s)| <= KeyBytes
    ensures Stream(s)[..|Key(s)|] == Key(s)
  {
  }

  /** Only the first 72 bytes count: once a password's encoding reaches 72
      bytes, whatever follows is ignored, so two different passwords that
      share such a beginning are accepted for each other. */
  lemma LongPasswordsCollide(prefix: string, x: string, y: string, salt: nat)
    requires |Utf8(prefix)| >= KeyBytes
    ensures Compare(prefix + x, Hash(Plain(prefix + y), salt))
    ensures x != y ==> prefix + x != prefix + y
  {
    StreamOfLong(prefix, x);
    StreamOfLong(prefix, y);
    if x != y {
      assert (prefix + x)[|prefix|..] == x && (prefix + y)[|prefix|..] == y;
    }
  }

  /** The key stream of a string that begins with 72 or more bytes. */
  lemma StreamOfLong(prefix: string, rest: string)
    requires |Utf8(prefix)| >= KeyBytes
    ensures Stream(prefix + rest) == Utf8(prefix)[..KeyBytes]
  {
    Utf8Append(prefix, rest);
    var k := Key(prefix + rest);
    assert k == Utf8(prefix) + (Utf8(rest) + [0]);
    assert k[..KeyBytes] == Utf8(prefix)[..KeyBytes];
  }

  /** A stored plaintext never matches: the comparison needs a hash. */
  lemma ComparePlain(candidate: string, password: string)
    ensures !Compare(candidate, Plain(password))
  {
  }
}
