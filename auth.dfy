/**
 * Request authentication (`auth.AuthMiddleware`, `auth.AdminMiddleware`),
 * the OAuth `state` value (section 4.1.1 of RFC 6749) and the expiry
 * arithmetic of issued tokens. Signature checking is a parameter: `validate`
 * stands for `ValidateJWT`, giving the token's claims or nothing.
 */
module Auth {
  import opened Wrappers
  import opened Models
  import opened Firestore
  import opened Bytes

  /** The claims a session token carries; times are whole seconds since the Unix epoch. */
  datatype Claims = Claims(UserID: string, Email: string, Name: string, ExpiresAt: int, IssuedAt: int)

  /** What a middleware does with a request: stop it with an error, or pass it on with the caller's identity. */
  datatype Gate =
    | Abort(status: int, error: string)
    | Proceed(userID: string, email: string, name: string, userType: Option<string>)

  const BearerPrefix: string := "Bearer "

  // ---------------------------------------------------------------------
  // Authorization header (section 2.1 of RFC 6750)
  // ---------------------------------------------------------------------

  /**
   * The token of an `Authorization: Bearer <token>` header, compared byte for
   * byte: a missing header and a header without the exact `Bearer ` prefix
   * are rejected with their own messages.
   */
  function BearerToken(header: string): (r: Result<string, string>)
    ensures r.Ok? <==> |header| >= |BearerPrefix| && header[..|BearerPrefix|] == BearerPrefix
    ensures r.Ok? ==> header == BearerPrefix + r.value
    ensures r.Err? && header == "" ==> r.error == "Authorization header required"
    ensures r.Err? && header != "" ==> r.error == "Invalid authorization header format"
  {
    if header == "" then Err("Authorization header required")
    else if |header| < 7 || header[..7] != BearerPrefix then Err("Invalid authorization header format")
    else Ok(header[7..])
  }

  /** A header built from a token gives that token back. */
  lemma BearerTokenRoundTrip(token: string)
    ensures BearerToken(BearerPrefix + token) == Ok(token)
  {
    assert (BearerPrefix + token)[..7] == BearerPrefix;
    assert (BearerPrefix + token)[7..] == token;
  }

  /** The scheme name is matched case-sensitively, and the separating space is required. */
  lemma BearerSchemeIsExact()
    ensures BearerToken("bearer abc").Err?
    ensures BearerToken("Bearer").Err?
    ensures BearerToken("Bearer ") == Ok("")
  {
    assert "bearer abc"[..7] != BearerPrefix by {
      assert "bearer abc"[0] != BearerPrefix[0];
    }
    assert "Bearer "[7..] == "";
  }

  /** `AuthMiddleware`: the header must carry a token that validates. */
  function AuthMiddleware(header: string, validate: string -> Option<Claims>): (g: Gate)
    ensures g.Proceed? <==> BearerToken(header).Ok? && validate(BearerToken(header).value).Some?
    ensures g.Abort? ==> g.status == StatusUnauthorized
    ensures g.Proceed? ==>
              var claims := validate(BearerToken(header).value).value;
              g == Proceed(claims.UserID, claims.Email, claims.Name, None)
  {
    match BearerToken(header)
    case Err(e) => Abort(StatusUnauthorized, e)
    case Ok(token) =>
      match validate(token)
      case None => Abort(StatusUnauthorized, "Invalid token")
      case Some(claims) => Proceed(claims.UserID, claims.Email, claims.Name, None)
  }

  /**
   * `AdminMiddleware`: the same checks, then the stored user named by the
   * token's claims must exist (else 401) and have Type "admin" (else 403).
   */
  function AdminMiddleware(header: string, validate: string -> Option<Claims>, users: Collection<User>): (g: Gate)
    ensures g.Abort? && g.status == StatusForbidden <==>
              && BearerToken(header).Ok? && validate(BearerToken(header).value).Some?
              && Get(users, validate(BearerToken(header).value).value.UserID).Some?
              && Get(users, validate(BearerToken(header).value).value.UserID).value.Type != "admin"
    ensures g.Proceed? <==>
              && BearerToken(header).Ok? && validate(BearerToken(header).value).Some?
              && Get(users, validate(BearerToken(header).value).value.UserID).Some?
              && Get(users, validate(BearerToken(header).value).value.UserID).value.Type == "admin"
    ensures g.Abort? ==> g.status == StatusUnauthorized || g.status == StatusForbidden
    ensures g.Proceed? ==> g.userType == Some("admin")
  {
    match BearerToken(header)
    case Err(e) => Abort(StatusUnauthorized, e)
    case Ok(token) =>
      match validate(token)
      case None => Abort(StatusUnauthorized, "Invalid token")
      case Some(claims) =>
        match Get(users, claims.UserID)
        case None => Abort(StatusUnauthorized, "User not found")
        case Some(user) =>
          if user.Type != "admin" then Abort(StatusForbidden, "Admin privileges required")
          else Proceed(claims.UserID, claims.Email, claims.Name, Some(user.Type))
  }

  /** The admin gate is stricter than the plain one and passes on the same identity. */
  lemma AdminGateImpliesAuthGate(header: string, validate: string -> Option<Claims>, users: Collection<User>)
    requires AdminMiddleware(header, validate, users).Proceed?
    ensures AuthMiddleware(header, validate).Proceed?
    ensures AuthMiddleware(header, validate).(userType := None) == AdminMiddleware(header, validate, users).(userType := None)
  {
  }

  // ---------------------------------------------------------------------
  // Token lifetime
  // ---------------------------------------------------------------------

  const NanosPerSecond := 1_000_000_000
  const TokenLifetime := 24 * 3600

  /** `jwt.NewNumericDate`: a time in nanoseconds, truncated to whole seconds. */
  function NumericDate(nanos: int): int {
    nanos / NanosPerSecond
  }

  /**
   * The claims `GenerateJWT` signs. The expiry and the issue time come from
   * two separate clock readings, `now1` and then `now2`.
   */
  function TokenClaims(userID: string, email: string, name: string, now1: int, now2: int): (c: Claims)
    ensures c.UserID == userID && c.Email == email && c.Name == name
  {
    Claims(userID, email, name, NumericDate(now1 + TokenLifetime * NanosPerSecond), NumericDate(now2))
  }

  /** Adding whole days never disturbs the truncation to seconds. */
  lemma NumericDateShift(nanos: int)
    ensures NumericDate(nanos + TokenLifetime * NanosPerSecond) == NumericDate(nanos) + TokenLifetime
  {
    var q, r := nanos / NanosPerSecond, nanos % NanosPerSecond;
    assert nanos == q * NanosPerSecond + r;
    assert nanos + TokenLifetime * NanosPerSecond == (q + TokenLifetime) * NanosPerSecond + r;
  }

  /**
   * A token expires 24 hours after it was issued when both clock readings
   * fall in the same second, and one second earlier when the second changes
   * between them.
   */
  lemma TokenLifetimeIsOneDay(userID: string, email: string, name: string, now1: int, now2: int)
    requires now1 <= now2 < now1 + NanosPerSecond
    ensures NumericDate(now1) == NumericDate(now2) ==>
              TokenClaims(userID, email, name, now1, now2).ExpiresAt == TokenClaims(userID, email, name, now1, now2).IssuedAt + TokenLifetime
    ensures NumericDate(now1) != NumericDate(now2) ==>
              TokenClaims(userID, email, name, now1, now2).ExpiresAt == TokenClaims(userID, email, name, now1, now2).IssuedAt + TokenLifetime - 1
  {
    NumericDateShift(now1);
    var q1, q2 := now1 / NanosPerSecond, now2 / NanosPerSecond;
    assert now1 == q1 * NanosPerSecond + now1 % NanosPerSecond;
    assert now2 == q2 * NanosPerSecond + now2 % NanosPerSecond;
    assert q1 <= q2 <= q1 + 1;
  }

  // ---------------------------------------------------------------------
  // OAuth state
  // ---------------------------------------------------------------------

  const StateBytes := 32

  /** The bytes behind a state: crypto/rand's, or `(timestamp + i) mod 256` when it fails. */
  function StateBytesFor(readOK: bool, random: nat -> Byte, timestamp: int): (b: seq<Byte>)
    ensures |b| == StateBytes
  {
    seq(StateBytes, i requires 0 <= i < StateBytes => if readOK then random(i) else (timestamp + i) % 256)
  }

  predicate IsLowerHex(c: char) {
    '0' <= c <= '9' || 'a' <= c <= 'f'
  }

  function HexDigit(d: nat): (c: char)
    requires d < 16
    ensures IsLowerHex(c)
  {
    if d < 10 then ('0' as int + d) as char else ('a' as int + (d - 10)) as char
  }

  function HexValue(c: char): (d: nat)
    requires IsLowerHex(c)
    ensures d < 16
  {
    if c <= '9' then c as int - '0' as int else c as int - 'a' as int + 10
  }

  /** `fmt.Sprintf("%x", b)`: two lower-case hex digits per byte, high nibble first. */
  function Hex(bs: seq<Byte>): (s: string)
    ensures |s| == 2 * |bs|
  {
    if bs == [] then [] else [HexDigit(bs[0] / 16), HexDigit(bs[0] % 16)] + Hex(bs[1..])
  }

  lemma {:induction false} HexIsLowerHex(bs: seq<Byte>)
    ensures forall i :: 0 <= i < |Hex(bs)| ==> IsLowerHex(Hex(bs)[i])
  {
    if bs != [] {
      HexIsLowerHex(bs[1..]);
    }
  }

  /** Reading a hex string back into bytes; None for an odd length or a non-hex character. */
  function Unhex(s: string): Option<seq<Byte>>
    decreases |s|
  {
    if s == [] then Some([])
    else if |s| == 1 || !IsLowerHex(s[0]) || !IsLowerHex(s[1]) then None
    else match Unhex(s[2..])
      case None => None
      case Some(rest) => Some([16 * HexValue(s[0]) + HexValue(s[1])] + rest)
  }

  /** The hex form loses nothing: it reads back as the bytes it came from. */
  lemma {:induction false} UnhexHex(bs: seq<Byte>)
    ensures Unhex(Hex(bs)) == Some(bs)
  {
    if bs != [] {
      var s := Hex(bs);
      assert s[2..] == Hex(bs[1..]);
      UnhexHex(bs[1..]);
      var hi, lo := bs[0] / 16, bs[0] % 16;
      assert HexValue(HexDigit(hi)) == hi;
      assert HexValue(HexDigit(lo)) == lo;
      assert [bs[0]] + bs[1..] == bs;
    }
  }

  /**
   * `GenerateOAuthState`: 32 bytes from crypto/rand (`random`, when
   * `readOK`), or else derived from the clock's nanosecond timestamp, printed
   * as hex.
   */
  method GenerateOAuthState(readOK: bool, random: nat -> Byte, timestamp: int) returns (state: string)
    ensures state == Hex(StateBytesFor(readOK, random, timestamp))
    ensures |state| == 2 * StateBytes && forall i :: 0 <= i < |state| ==> IsLowerHex(state[i])
    ensures Unhex(state) == Some(StateBytesFor(readOK, random, timestamp))
  {
    var b := new Byte[StateBytes];
    if readOK {
      for i := 0 to StateBytes
        invariant forall j :: 0 <= j < i ==> b[j] == random(j)
      {
        b[i] := random(i);
      }
    } else {
      for i := 0 to StateBytes
        invariant forall j :: 0 <= j < i ==> b[j] == (timestamp + j) % 256
      {
        b[i] := ByteOf(GoRem(Wrap64(timestamp + i), 256));
        LowByteOfWrappedRemainder(timestamp, i);
      }
    }
    assert b[..] == StateBytesFor(readOK, random, timestamp);
    state := Hex(b[..]);
    HexIsLowerHex(b[..]);
    UnhexHex(b[..]);
  }
}
