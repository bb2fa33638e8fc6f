// JSON Web Tokens as the `jsonwebtoken` library issues and checks them, and
// bcrypt password hashes, both as symbolic values.
//
// A signed token is represented by what determines its compact serialisation:
// the secret, the payload and the registered `iat`/`exp` claims (NumericDate,
// whole seconds, section 4.1.4 of RFC 7519). The serialisation is
// deterministic and injective, so two tokens are the same string exactly when
// they are the same value here. Text that was not produced by signing is
// `Forged`.
module Jwt {
  import opened Common

  /** The two HMAC secrets: access tokens and refresh tokens are signed apart. */
  datatype Secret = AccessSecret | RefreshSecret

  /** The private claims the backends put in a token. `fullName` is only in the
      access token issued at login; `jti` is only used by the corrected issuance. */
  datatype Payload = Payload(sub: string, email: string, role: string,
                             fullName: Option<string>, jti: Option<string>)

  datatype Claims = Claims(payload: Payload, iat: int, exp: int)

  datatype Token = Signed(secret: Secret, claims: Claims) | Forged(text: string)

  datatype VerifyError = BadSignature | TokenExpired

  datatype Verified = Verified(claims: Claims) | Rejected(error: VerifyError)

  /** `Math.floor(ms / 1000)`: a clock reading in whole seconds. */
  function NumericDate(ms: int): (s: int)
    ensures s * 1000 <= ms < s * 1000 + 1000
  {
    ms / 1000
  }

  /** `jwt.sign(payload, secret, {expiresIn})`: `iat` is the current second and
      `exp` lies `lifetime` seconds after it. */
  function Sign(secret: Secret, p: Payload, lifetime: nat, nowMs: int): (t: Token)
    ensures t.Signed? && t.secret == secret && t.claims.payload == p
    ensures t.claims.iat == NumericDate(nowMs)
    ensures t.claims.exp == t.claims.iat + lifetime
  {
    var iat := NumericDate(nowMs);
    Signed(secret, Claims(p, iat, iat + lifetime))
  }

  /** `jwt.verify(token, secret)`: the signature must be by `secret`, and the
      token is expired once the current second reaches `exp`. */
  function Verify(secret: Secret, t: Token, nowMs: int): (r: Verified)
    ensures r.Verified? <==> t.Signed? && t.secret == secret && NumericDate(nowMs) < t.claims.exp
    ensures r.Verified? ==> r.claims == t.claims
    ensures r.Rejected? && t.Signed? && t.secret == secret ==> r.error == TokenExpired
  {
    match t
    case Forged(_) => Rejected(BadSignature)
    case Signed(s, c) =>
      if s != secret then Rejected(BadSignature)
      else if NumericDate(nowMs) >= c.exp then Rejected(TokenExpired)
      else Verified(c)
  }

  /** A token verifies under the secret it was signed with, with the claims it
      was signed over, until its lifetime has run out. */
  lemma VerifySigned(secret: Secret, p: Payload, lifetime: nat, signMs: int, nowMs: int)
    ensures var t := Sign(secret, p, lifetime, signMs);
      (Verify(secret, t, nowMs).Verified? <==> NumericDate(nowMs) < NumericDate(signMs) + lifetime)
    ensures var t := Sign(secret, p, lifetime, signMs);
      NumericDate(nowMs) < NumericDate(signMs) + lifetime ==>
        Verify(secret, t, nowMs) == Verified(t.claims) && t.claims.payload == p
  {
  }

  /** An access token is never accepted as a refresh token, nor the other way. */
  lemma SecretsSeparate(s1: Secret, s2: Secret, p: Payload, lifetime: nat, signMs: int, nowMs: int)
    requires s1 != s2
    ensures Verify(s2, Sign(s1, p, lifetime, signMs), nowMs) == Rejected(BadSignature)
  {
  }

  /** Signing is a function of its inputs: the same payload signed in the same
      second is the same token (there is no random component). */
  lemma SignDeterministic(secret: Secret, p: Payload, lifetime: nat, ms1: int, ms2: int)
    requires NumericDate(ms1) == NumericDate(ms2)
    ensures Sign(secret, p, lifetime, ms1) == Sign(secret, p, lifetime, ms2)
  {
  }

  // ------------------------------------------------------------------
  // Lifetimes, as the `ms`-style duration strings the two backends configure
  // ------------------------------------------------------------------

  /** The seconds in one of the units s, m, h and d. */
  function UnitSeconds(u: char): nat
  {
    match u
    case 's' => 1
    case 'm' => 60
    case 'h' => 3600
    case 'd' => 86400
    case _ => 0
  }

  /** Seconds denoted by a duration such as "15m", "1h", "7d" or "30d":
      a decimal number followed by one of the units s, m, h, d. */
  function DurationSeconds(spec: string): (r: Option<nat>)
    ensures r.Some? <==> |spec| >= 2 && AllDigits(spec[..|spec| - 1]) && spec[|spec| - 1] in {'s', 'm', 'h', 'd'}
    ensures r.Some? ==> r.value == DigitsValue(spec[..|spec| - 1]) * UnitSeconds(spec[|spec| - 1])
  {
    if |spec| < 2 || !AllDigits(spec[..|spec| - 1]) then None
    else
      var n := DigitsValue(spec[..|spec| - 1]);
      match spec[|spec| - 1]
      case 's' => Some(n)
      case 'm' => Some(n * 60)
      case 'h' => Some(n * 3600)
      case 'd' => Some(n * 86400)
      case _ => None
  }

  predicate AllDigits(s: string) { forall i :: 0 <= i < |s| ==> IsDigit(s[i]) }

  /** Writing a number of units out as text and reading it back gives that
      many units' worth of seconds. */
  lemma DurationRoundTrip(n: nat, u: char)
    requires u in {'s', 'm', 'h', 'd'}
    ensures DurationSeconds(NatToString(n) + [u]) == Some(n * UnitSeconds(u))
  {
    var spec := NatToString(n) + [u];
    assert spec[..|spec| - 1] == NatToString(n);
    NatToStringValue(n);
  }

  /** JavaScript backend defaults: access "1h", refresh "7d". */
  const JsAccessLifetime: nat := 3600
  const JsRefreshLifetime: nat := 604800
  /** TypeScript backend: access "15m", refresh "30d". */
  const TsAccessLifetime: nat := 900
  const TsRefreshLifetime: nat := 2592000

  lemma LifetimesMatchDurations()
    ensures DurationSeconds("1h") == Some(JsAccessLifetime)
    ensures DurationSeconds("7d") == Some(JsRefreshLifetime)
    ensures DurationSeconds("15m") == Some(TsAccessLifetime)
    ensures DurationSeconds("30d") == Some(TsRefreshLifetime)
  {
    assert "1h"[..1] == "1" && "1"[..0] == "" && DigitsValue("1") == 1;
    assert "7d"[..1] == "7" && "7"[..0] == "" && DigitsValue("7") == 7;
    assert "15m"[..2] == "15" && "15"[..1] == "1" && DigitsValue("15") == 15;
    assert "30d"[..2] == "30" && "30"[..1] == "3" && "3"[..0] == "" && DigitsValue("30") == 30;
  }
}

// bcrypt password hashes as symbolic values over the key bytes bcrypt reads.
module Passwords {
  /** Cost factor of the TypeScript backend's `hashPassword`. */
  const SaltRounds: nat := 12

  /** bcrypt's Blowfish key schedule reads 72 bytes of key. */
  const KeyBytes: nat := 72

  /** How many bytes a UTF-8 sequence starting with `lead` has. */
  function LeadLength(lead: nat): nat
  {
    if lead < 0x80 then 1 else if lead < 0xE0 then 2 else if lead < 0xF0 then 3 else 4
  }

  /** The code point a UTF-8 sequence of one character spells. */
  function CharValue(b: seq<nat>): int
    requires 1 <= |b| <= 4
  {
    if |b| == 1 then b[0]
    else if |b| == 2 then (b[0] as int - 0xC0) * 64 + (b[1] as int - 0x80)
    else if |b| == 3 then ((b[0] as int - 0xE0) * 64 + (b[1] as int - 0x80)) * 64 + (b[2] as int - 0x80)
    else (((b[0] as int - 0xF0) * 64 + (b[1] as int - 0x80)) * 64 + (b[2] as int - 0x80)) * 64 + (b[3] as int - 0x80)
  }

  /** The UTF-8 encoding of one character (RFC 3629, section 3): its length
      is read off the first byte, it decodes back to the character, and only
      the NUL character has a zero byte. */
  function Utf8Char(c: char): (b: seq<nat>)
    ensures 1 <= |b| <= 4 && |b| == LeadLength(b[0])
    ensures CharValue(b) == c as int
    ensures forall i :: 1 <= i < |b| ==> 0x80 <= b[i] < 0xC0
    ensures c != '\0' ==> forall i :: 0 <= i < |b| ==> b[i] != 0
  {
    var n := c as int;
    var q1, r1 := n / 64, n % 64;
    var q2, r2 := q1 / 64, q1 % 64;
    var q3, r3 := q2 / 64, q2 % 64;
    if n < 0x80 then [n]
    else if n < 0x800 then [0xC0 + q1, 0x80 + r1]
    else if n < 0x10000 then [0xE0 + q2, 0x80 + r2, 0x80 + r1]
    else [0xF0 + q3, 0x80 + r3, 0x80 + r2, 0x80 + r1]
  }

  /** The UTF-8 encoding of a string, as `bcryptjs` converts it. */
  function Utf8(s: string): (b: seq<nat>)
    ensures |b| >= |s|
    ensures '\0' !in s ==> 0 !in b
  {
    if s == [] then [] else Utf8Char(s[0]) + Utf8(s[1..])
  }

  /** `z` repeated until `n` bytes are written. */
  function Cycle(z: seq<nat>, n: nat): (c: seq<nat>)
    requires z != []
    ensures |c| == n
    decreases n
  {
    if n <= |z| then z[..n] else z + Cycle(z, n - |z|)
  }

  /** The 72 key bytes of a `$2a$`/`$2b$` hash: the encoding with its
      terminating zero byte, repeated cyclically and cut at 72 bytes. */
  function BcryptKey(password: string): (k: seq<nat>)
    ensures |k| == KeyBytes
  {
    Cycle(Utf8(password) + [0], KeyBytes)
  }

  /** A stored bcrypt hash: cost, salt, and the key bytes it was computed from
      as an opaque digest term (it is never compared as text). */
  datatype PasswordHash = Bcrypt(cost: nat, salt: string, key: seq<nat>)

  /** `bcrypt.hash(password, SALT_ROUNDS)`; the random salt is an input. */
  function HashPassword(password: string, salt: string): (h: PasswordHash)
    ensures h.cost == SaltRounds && h.salt == salt
    ensures ComparePassword(password, h)
  {
    Bcrypt(SaltRounds, salt, BcryptKey(password))
  }

  /** `bcrypt.compare(password, hash)`. */
  predicate ComparePassword(password: string, h: PasswordHash)
  {
    h.key == BcryptKey(password)
  }

  /** A hash matches exactly the passwords with the same key bytes as the one
      it was made from, whatever the salt. */
  lemma CompareHashed(password: string, other: string, salt: string)
    ensures ComparePassword(other, HashPassword(password, salt)) <==> BcryptKey(other) == BcryptKey(password)
    ensures ComparePassword(password, HashPassword(password, salt))
  {
  }

  /** Encoding distributes over concatenation. */
  lemma {:induction false} Utf8Append(s: string, t: string)
    ensures Utf8(s + t) == Utf8(s) + Utf8(t)
  {
    if s == [] {
      assert s + t == t;
    } else {
      assert (s + t)[0] == s[0] && (s + t)[1..] == s[1..] + t;
      Utf8Append(s[1..], t);
    }
  }

  /** Two encodings that begin alike begin with the same character. */
  lemma CharPrefix(a: char, b: char, x: seq<nat>, y: seq<nat>)
    requires Utf8Char(a) + x == Utf8Char(b) + y
    ensures a == b && x == y
  {
    var ea, eb := Utf8Char(a), Utf8Char(b);
    assert ea[0] == (ea + x)[0] == (eb + y)[0] == eb[0];
    assert |ea| == |eb|;
    assert ea == (ea + x)[..|ea|] == (eb + y)[..|eb|] == eb;
    assert a as int == CharValue(ea) == CharValue(eb) == b as int;
  }

  /** Different strings have different encodings. */
  lemma {:induction false} Utf8Injective(s: string, t: string)
    requires Utf8(s) == Utf8(t)
    ensures s == t
  {
    if s != [] && t != [] {
      CharPrefix(s[0], t[0], Utf8(s[1..]), Utf8(t[1..]));
      Utf8Injective(s[1..], t[1..]);
      assert s == [s[0]] + s[1..] && t == [t[0]] + t[1..];
    }
  }

  /** Up to its length, the key is the encoding itself, then a zero byte. */
  lemma KeyStartsWithEncoding(password: string)
    requires |Utf8(password)| < KeyBytes
    ensures var u := Utf8(password);
      BcryptKey(password)[..|u|] == u && BcryptKey(password)[|u|] == 0
  {
    var z := Utf8(password) + [0];
    assert BcryptKey(password)[..|z|] == z;
  }

  /** Below the limit the key is exact: two passwords without a NUL character
      whose encodings are shorter than 72 bytes share a key only when they are
      the same password. */
  lemma ShortPasswordsExact(password: string, other: string)
    requires '\0' !in password && '\0' !in other
    requires |Utf8(password)| < KeyBytes && |Utf8(other)| < KeyBytes
    requires BcryptKey(password) == BcryptKey(other)
    ensures password == other
  {
    var u, v := Utf8(password), Utf8(other);
    var k := BcryptKey(password);
    KeyStartsWithEncoding(password);
    KeyStartsWithEncoding(other);
    if |u| < |v| {
      assert false;
    } else if |v| < |u| {
      assert false;
    }
    Utf8Injective(password, other);
  }

  /** Past the limit only the first 72 bytes count: passwords whose encodings
      agree there match each other's hashes. */
  lemma LongPasswordsTruncated(password: string, other: string)
    requires |Utf8(password)| >= KeyBytes && |Utf8(other)| >= KeyBytes
    requires Utf8(password)[..KeyBytes] == Utf8(other)[..KeyBytes]
    ensures BcryptKey(password) == BcryptKey(other)
  {
    assert Utf8(password) + [0] == Utf8(password)[..KeyBytes] + (Utf8(password)[KeyBytes..] + [0]);
    assert Utf8(other) + [0] == Utf8(other)[..KeyBytes] + (Utf8(other)[KeyBytes..] + [0]);
  }

  /** Seventy-two "a"s followed by "X" open a hash made from seventy-two
      "a"s followed by "Y". */
  lemma SeventyThirdCharacterIgnored()
    ensures var a := seq(72, _ => 'a');
      a + "X" != a + "Y" && ComparePassword(a + "X", HashPassword(a + "Y", ""))
  {
    var a := seq(72, _ => 'a');
    assert (a + "X")[72] != (a + "Y")[72];
    Utf8Append(a, "X");
    Utf8Append(a, "Y");
    var u := Utf8(a);
    assert (u + Utf8("X"))[..KeyBytes] == u[..KeyBytes] == (u + Utf8("Y"))[..KeyBytes];
    LongPasswordsTruncated(a + "X", a + "Y");
  }
}
