/** Password hashing (helpers/bcrypt.go) over golang.org/x/crypto/bcrypt.

    What the package does with a password is modelled as it is: it works on the UTF-8 bytes of
    the string; GenerateFromPassword refuses more than 72 of them (ErrPasswordTooLong), which
    HashPassword answers with log.Fatal; and the Blowfish key schedule reads 72 key bytes, cycling
    through the password followed by one NUL byte, so two passwords with the same 72 key bytes are
    interchangeable. The digest is a deterministic stand-in: the "$2a$08$" header followed by those
    key bytes. Salting and the one-way property are not modelled; like every user of bcrypt, the
    model takes different keys never to give the same digest. */
module Bcrypt {
  import opened Wrappers

  type Byte = b: int | 0 <= b < 0x100

  // ---- []byte(string): UTF-8 ----

  /** How many bytes the UTF-8 sequence that starts with `lead` has. */
  function SequenceLength(lead: Byte): nat {
    if lead < 0x80 then 1 else if lead < 0xE0 then 2 else if lead < 0xF0 then 3 else 4
  }

  /** The UTF-8 encoding of one character: its lead byte gives the length, and only the character
      U+0000 encodes to a zero byte. */
  function Utf8Char(c: char): (bs: seq<Byte>)
    ensures 1 <= |bs| <= 4 && |bs| == SequenceLength(bs[0])
    ensures (0 in bs) <==> c == '\0'
  {
    var n := c as int;
    var q1 := n / 0x40;
    var q2 := q1 / 0x40;
    var q3 := q2 / 0x40;
    if n < 0x80 then [n]
    else if n < 0x800 then [0xC0 + q1, 0x80 + n % 0x40]
    else if n < 0x1_0000 then [0xE0 + q2, 0x80 + q1 % 0x40, 0x80 + n % 0x40]
    else [0xF0 + q3, 0x80 + q2 % 0x40, 0x80 + q1 % 0x40, 0x80 + n % 0x40]
  }

  /** Go's []byte(s). */
  function Utf8(s: string): (bs: seq<Byte>)
    ensures |bs| >= |s|
    ensures (0 in bs) <==> '\0' in s
  {
    if s == [] then [] else Utf8Char(s[0]) + Utf8(s[1..])
  }

  lemma Utf8Append(a: string, b: string)
    ensures Utf8(a + b) == Utf8(a) + Utf8(b)
  {
    if a != [] {
      assert (a + b)[0] == a[0] && (a + b)[1..] == a[1..] + b;
      Utf8Append(a[1..], b);
      assert Utf8(a + b) == Utf8Char(a[0]) + Utf8(a[1..] + b);
    } else {
      assert a + b == b;
    }
  }

  /** Different characters have different encodings. */
  lemma Utf8CharInjective(a: char, b: char)
    requires Utf8Char(a) == Utf8Char(b)
    ensures a == b
  {
    var n, m := a as int, b as int;
    var n1, m1 := n / 0x40, m / 0x40;
    var n2, m2 := n1 / 0x40, m1 / 0x40;
    var n3, m3 := n2 / 0x40, m2 / 0x40;
    assert n == 0x40 * n1 + n % 0x40 && m == 0x40 * m1 + m % 0x40;
    assert n1 == 0x40 * n2 + n1 % 0x40 && m1 == 0x40 * m2 + m1 % 0x40;
    assert n2 == 0x40 * n3 + n2 % 0x40 && m2 == 0x40 * m3 + m2 % 0x40;
  }

  /** Different strings have different encodings. */
  lemma {:induction false} Utf8Injective(a: string, b: string)
    requires Utf8(a) == Utf8(b)
    ensures a == b
  {
    if a != [] && b != [] {
      var ea, eb := Utf8Char(a[0]), Utf8Char(b[0]);
      assert Utf8(a) == ea + Utf8(a[1..]) && Utf8(b) == eb + Utf8(b[1..]);
      assert ea[0] == Utf8(a)[0] == eb[0];
      assert |ea| == |eb|;
      assert ea == Utf8(a)[..|ea|] == eb;
      Utf8CharInjective(a[0], b[0]);
      assert Utf8(a[1..]) == Utf8(a)[|ea|..] == Utf8(b[1..]);
      Utf8Injective(a[1..], b[1..]);
      assert a == [a[0]] + a[1..] && b == [b[0]] + b[1..];
    }
  }

  // ---- the key bcrypt derives from a password ----

  /** The most password bytes bcrypt reads, and the most GenerateFromPassword accepts. */
  const MaxPasswordBytes: nat := 72

  /** The 72 bytes the key schedule reads: the password and a NUL byte, repeated. */
  function KeyBytes(pw: seq<Byte>): (k: seq<Byte>)
    ensures |k| == MaxPasswordBytes
  {
    seq(MaxPasswordBytes, i requires 0 <= i < MaxPasswordBytes => (pw + [0])[i % (|pw| + 1)])
  }

  /** Bytes past the 72nd play no part in the key. */
  lemma KeyBytesOfExtension(pw: seq<Byte>, extra: seq<Byte>)
    requires |pw| == MaxPasswordBytes
    ensures KeyBytes(pw + extra) == KeyBytes(pw)
  {
    forall i | 0 <= i < MaxPasswordBytes
      ensures KeyBytes(pw + extra)[i] == KeyBytes(pw)[i]
    {
      assert i % (|pw + extra| + 1) == i && i % (|pw| + 1) == i;
    }
  }

  /** For passwords without NUL bytes that bcrypt reads whole, the key gives the password back:
      it is the key up to its first NUL byte. */
  lemma KeyBytesExact(p: seq<Byte>, q: seq<Byte>)
    requires |p| <= MaxPasswordBytes && |q| <= MaxPasswordBytes && 0 !in p && 0 !in q
    requires KeyBytes(p) == KeyBytes(q)
    ensures p == q
  {
    if |p| < |q| {
      KeyByteAt(p, |p|);
      KeyByteAt(q, |p|);
      assert false;
    } else if |q| < |p| {
      KeyByteAt(q, |q|);
      KeyByteAt(p, |q|);
      assert false;
    }
    forall i | 0 <= i < |p|
      ensures p[i] == q[i]
    {
      KeyByteAt(p, i);
      KeyByteAt(q, i);
    }
  }

  /** The key starts with the password and its NUL terminator. */
  lemma KeyByteAt(pw: seq<Byte>, i: nat)
    requires i <= |pw| && i < MaxPasswordBytes
    ensures KeyBytes(pw)[i] == (pw + [0])[i]
  {
    assert i % (|pw| + 1) == i;
  }

  // ---- the digest ----

  const DigestHeader: string := "$2a$08$"

  /** The stand-in digest of a key: the header for cost 8, then the key bytes as characters. */
  function Digest(key: seq<Byte>): string {
    DigestHeader + seq(|key|, i requires 0 <= i < |key| => key[i] as char)
  }

  lemma DigestInjective(k1: seq<Byte>, k2: seq<Byte>)
    requires Digest(k1) == Digest(k2)
    ensures k1 == k2
  {
    var h := |DigestHeader|;
    forall i | 0 <= i < |k1|
      ensures k1[i] == k2[i]
    {
      assert Digest(k1)[h + i] == k1[i] as char;
      assert Digest(k2)[h + i] == k2[i] as char;
    }
  }

  /** HashPassword: the digest stored in place of the plaintext, or None when GenerateFromPassword
      refuses a password longer than 72 bytes, which the Go function answers with log.Fatal. */
  function HashPassword(secret: string): (digest: Option<string>)
    ensures digest.None? <==> |Utf8(secret)| > MaxPasswordBytes
    ensures digest.Some? ==> digest.value != secret && CompareHash(digest.value, secret)
    ensures digest.Some? ==> digest.value[..|DigestHeader|] == DigestHeader
  {
    var pw := Utf8(secret);
    if |pw| > MaxPasswordBytes then None
    else
      assert |Digest(KeyBytes(pw))| > |secret|;
      Some(Digest(KeyBytes(pw)))
  }

  /** CompareHash: does `attempt` match the stored `digest`? CompareHashAndPassword derives the
      attempt's key the same way, whatever its length. */
  predicate CompareHash(digest: string, attempt: string) {
    digest == Digest(KeyBytes(Utf8(attempt)))
  }

  /** A stored digest accepts exactly the attempts with the secret's key bytes. Among attempts of
      at most 72 bytes, when neither side holds a NUL character, that is the secret alone. */
  lemma CompareHashExact(secret: string, attempt: string)
    requires HashPassword(secret).Some?
    ensures CompareHash(HashPassword(secret).value, attempt) <==> KeyBytes(Utf8(attempt)) == KeyBytes(Utf8(secret))
    ensures '\0' !in secret && '\0' !in attempt && |Utf8(attempt)| <= MaxPasswordBytes ==>
      (CompareHash(HashPassword(secret).value, attempt) <==> attempt == secret)
  {
    if CompareHash(HashPassword(secret).value, attempt) {
      DigestInjective(KeyBytes(Utf8(secret)), KeyBytes(Utf8(attempt)));
      if '\0' !in secret && '\0' !in attempt && |Utf8(attempt)| <= MaxPasswordBytes {
        KeyBytesExact(Utf8(secret), Utf8(attempt));
        Utf8Injective(secret, attempt);
      }
    }
  }

  /** Only the first 72 bytes count: a digest of a 72-byte secret accepts the secret followed by
      anything at all. */
  lemma LongerAttemptAccepted(secret: string, extra: string)
    requires |Utf8(secret)| == MaxPasswordBytes
    ensures CompareHash(HashPassword(secret).value, secret + extra)
  {
    Utf8Append(secret, extra);
    KeyBytesOfExtension(Utf8(secret), Utf8(extra));
  }
}
