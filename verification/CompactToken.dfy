/** Access tokens in the compact form of a JSON Web Token (section 7 of RFC 7519): the unpadded
    base64url coding (section 5 of RFC 4648, Appendix C of RFC 7515), the three segments, issue
    and verification. The JSON coding and the keyed hash are uninterpreted. */
module CompactToken {
  import opened Wrappers
  import opened Strings

  type Byte = b: int | 0 <= b < 256

  type Bytes = seq<Byte>

  // ----- the alphabet

  function Letter(n: nat): char
    requires n < 64
  {
    if n < 26 then 'A' + n as char
    else if n < 52 then 'a' + (n - 26) as char
    else if n < 62 then '0' + (n - 52) as char
    else if n == 62 then '-'
    else '_'
  }

  predicate IsLetter(c: char) {
    'A' <= c <= 'Z' || 'a' <= c <= 'z' || '0' <= c <= '9' || c == '-' || c == '_'
  }

  function LetterValue(c: char): (n: nat)
    requires IsLetter(c)
    ensures n < 64 && Letter(n) == c
  {
    if 'A' <= c <= 'Z' then c as int - 'A' as int
    else if 'a' <= c <= 'z' then c as int - 'a' as int + 26
    else if '0' <= c <= '9' then c as int - '0' as int + 52
    else if c == '-' then 62
    else 63
  }

  lemma LetterIsRead(n: nat)
    requires n < 64
    ensures IsLetter(Letter(n)) && LetterValue(Letter(n)) == n
  {
  }

  // ----- coding with padding

  const PAD := '='

  function EncodeOne(a: Byte): string {
    [Letter(a / 4), Letter(a % 4 * 16)]
  }

  function EncodeTwo(a: Byte, b: Byte): string {
    [Letter(a / 4), Letter(a % 4 * 16 + b / 16), Letter(b % 16 * 4)]
  }

  function EncodeThree(a: Byte, b: Byte, c: Byte): string {
    [Letter(a / 4), Letter(a % 4 * 16 + b / 16), Letter(b % 16 * 4 + c / 64), Letter(c % 64)]
  }

  function EncodePadded(data: Bytes): string {
    if |data| == 0 then ""
    else if |data| == 1 then EncodeOne(data[0]) + [PAD, PAD]
    else if |data| == 2 then EncodeTwo(data[0], data[1]) + [PAD]
    else EncodeThree(data[0], data[1], data[2]) + EncodePadded(data[3..])
  }

  predicate AllLetters(s: string) {
    forall i :: 0 <= i < |s| ==> IsLetter(s[i])
  }

  function DecodeOne(s: string): Bytes
    requires |s| == 2 && AllLetters(s)
  {
    [LetterValue(s[0]) * 4 + LetterValue(s[1]) / 16]
  }

  function DecodeTwo(s: string): Bytes
    requires |s| == 3 && AllLetters(s)
  {
    [LetterValue(s[0]) * 4 + LetterValue(s[1]) / 16, LetterValue(s[1]) % 16 * 16 + LetterValue(s[2]) / 4]
  }

  function DecodeThree(s: string): Bytes
    requires |s| == 4 && AllLetters(s)
  {
    [LetterValue(s[0]) * 4 + LetterValue(s[1]) / 16,
     LetterValue(s[1]) % 16 * 16 + LetterValue(s[2]) / 4,
     LetterValue(s[2]) % 4 * 64 + LetterValue(s[3])]
  }

  /** Decodes groups of four, the last one padded or not; None when the text has another shape. */
  function DecodePadded(s: string): Option<Bytes> {
    if s == "" then Some([])
    else if |s| < 4 then None
    else if |s| == 4 && s[2] == PAD && s[3] == PAD && AllLetters(s[..2]) then Some(DecodeOne(s[..2]))
    else if |s| == 4 && s[3] == PAD && AllLetters(s[..3]) then Some(DecodeTwo(s[..3]))
    else if !AllLetters(s[..4]) then None
    else
      var rest := DecodePadded(s[4..]);
      if rest.None? then None else Some(DecodeThree(s[..4]) + rest.value)
  }

  // ----- the token's own coding

  function StripPadding(s: string): string {
    if s != "" && s[|s| - 1] == PAD then StripPadding(s[..|s| - 1]) else s
  }

  function B64Encode(data: Bytes): string {
    StripPadding(EncodePadded(data))
  }

  function PadCount(seg: string): nat {
    (4 - |seg| % 4) % 4
  }

  function Repeat(c: char, n: nat): string {
    seq(n, _ => c)
  }

  /** What the library makes of a text that is not plain base64: bytes, or a refusal. */
  type Lenient = string -> Option<Bytes>

  function B64Decode(lenient: Lenient, seg: string): Option<Bytes> {
    var padded := seg + Repeat(PAD, PadCount(seg));
    var plain := DecodePadded(padded);
    if plain.Some? then plain else lenient(padded)
  }

  // ----- the coding round-trips

  lemma OneRoundTrip(a: Byte)
    ensures |EncodeOne(a)| == 2 && AllLetters(EncodeOne(a)) && DecodeOne(EncodeOne(a)) == [a]
  {
    hide Letter;
    LetterIsRead(a / 4);
    LetterIsRead(a % 4 * 16);
  }

  lemma TwoRoundTrip(a: Byte, b: Byte)
    ensures |EncodeTwo(a, b)| == 3 && AllLetters(EncodeTwo(a, b)) && DecodeTwo(EncodeTwo(a, b)) == [a, b]
  {
    hide Letter;
    LetterIsRead(a / 4);
    LetterIsRead(a % 4 * 16 + b / 16);
    LetterIsRead(b % 16 * 4);
  }

  lemma SextetsJoin(a: Byte, b: Byte, c: Byte)
    ensures a / 4 * 4 + (a % 4 * 16 + b / 16) / 16 == a
    ensures (a % 4 * 16 + b / 16) % 16 * 16 + (b % 16 * 4 + c / 64) / 4 == b
    ensures (b % 16 * 4 + c / 64) % 4 * 64 + c % 64 == c
  {
  }

  lemma ThreeRoundTrip(a: Byte, b: Byte, c: Byte)
    ensures |EncodeThree(a, b, c)| == 4 && AllLetters(EncodeThree(a, b, c))
        && DecodeThree(EncodeThree(a, b, c)) == [a, b, c]
  {
    hide Letter, IsLetter, LetterValue;
    LetterIsRead(a / 4);
    LetterIsRead(a % 4 * 16 + b / 16);
    LetterIsRead(b % 16 * 4 + c / 64);
    LetterIsRead(c % 64);
    SextetsJoin(a, b, c);
  }

  lemma {:induction false} PaddedRoundTrip(data: Bytes)
    ensures DecodePadded(EncodePadded(data)) == Some(data)
  {
    hide Letter, EncodeOne, EncodeTwo, EncodeThree, DecodeOne, DecodeTwo, DecodeThree;
    var s := EncodePadded(data);
    if |data| == 1 {
      OneRoundTrip(data[0]);
      assert s[..2] == EncodeOne(data[0]);
      assert data == [data[0]];
    } else if |data| == 2 {
      TwoRoundTrip(data[0], data[1]);
      assert s[..3] == EncodeTwo(data[0], data[1]);
      assert IsLetter(s[..3][2]);
      assert data == [data[0], data[1]];
    } else if |data| > 2 {
      PaddedRoundTrip(data[3..]);
      ThreeRoundTrip(data[0], data[1], data[2]);
      assert s[..4] == EncodeThree(data[0], data[1], data[2]) && s[4..] == EncodePadded(data[3..]);
      assert IsLetter(s[..4][3]);
      assert data == [data[0], data[1], data[2]] + data[3..];
    }
  }

  /** The letters of a coding, without padding. */
  function Unpadded(data: Bytes): string {
    if |data| == 0 then ""
    else if |data| == 1 then EncodeOne(data[0])
    else if |data| == 2 then EncodeTwo(data[0], data[1])
    else EncodeThree(data[0], data[1], data[2]) + Unpadded(data[3..])
  }

  lemma {:induction false} UnpaddedShape(data: Bytes)
    ensures AllLetters(Unpadded(data)) && |Unpadded(data)| == (8 * |data| + 5) / 6
    ensures EncodePadded(data) == Unpadded(data) + Repeat(PAD, (3 - |data| % 3) % 3)
  {
    hide Letter, EncodeOne, EncodeTwo, EncodeThree;
    if |data| == 1 {
      OneRoundTrip(data[0]);
    } else if |data| == 2 {
      TwoRoundTrip(data[0], data[1]);
    } else if |data| > 2 {
      ThreeRoundTrip(data[0], data[1], data[2]);
      UnpaddedShape(data[3..]);
      SameRest(|data|);
    }
  }

  lemma SameRest(n: nat)
    requires n >= 3
    ensures (3 - (n - 3) % 3) % 3 == (3 - n % 3) % 3
    ensures (8 * (n - 3) + 5) / 6 + 4 == (8 * n + 5) / 6
  {
  }

  /** The length tells how much padding there was. */
  lemma LengthTellsPadding(n: nat)
    ensures (4 - (8 * n + 5) / 6 % 4) % 4 == (3 - n % 3) % 3
  {
    var q, r := n / 3, n % 3;
    assert n == 3 * q + r;
    assert (8 * n + 5) / 6 == 4 * q + (8 * r + 5) / 6;
  }

  lemma {:induction false} StripsPadding(s: string, n: nat)
    requires AllLetters(s)
    ensures StripPadding(s + Repeat(PAD, n)) == s
  {
    if n == 0 {
      assert s + Repeat(PAD, 0) == s;
    } else {
      StripsPadding(s, n - 1);
      assert (s + Repeat(PAD, n))[..|s| + n - 1] == s + Repeat(PAD, n - 1);
    }
  }

  /** For every byte string: the coding is letters only, decodes to the same bytes, and the decoder
      puts back no, one or two padding signs, never three. */
  lemma B64RoundTrip(lenient: Lenient, data: Bytes)
    ensures B64Decode(lenient, B64Encode(data)) == Some(data)
    ensures AllLetters(B64Encode(data))
    ensures |B64Encode(data)| == (8 * |data| + 5) / 6
    ensures PadCount(B64Encode(data)) == (3 - |data| % 3) % 3 <= 2
  {
    hide Unpadded, EncodePadded, DecodePadded, StripPadding;
    UnpaddedShape(data);
    LengthTellsPadding(|data|);
    StripsPadding(Unpadded(data), PadCount(Unpadded(data)));
    PaddedRoundTrip(data);
  }

  // ----- tokens

  datatype Claims = Claims(sub: string, role: string, iat: int, exp: Option<int>)

  /** The uninterpreted parts: the coded header, the JSON coding of claims, its reading (None when
      the bytes are no claims), and the keyed hash of a text. */
  datatype Codec = Codec(
    header: Bytes, dumps: Claims -> Bytes, loads: Bytes -> Option<Claims>, mac: (string, string) -> Bytes,
    lenient: Lenient)

  ghost predicate ReadsItsClaims(codec: Codec) {
    forall c: Claims :: codec.loads(codec.dumps(c)) == Some(c)
  }

  datatype Refusal = EmptySecret | NotThreeSegments | InvalidEncoding | InvalidSignature | InvalidPayload | Expired

  const DEFAULT_TTL := 86400

  function NewClaims(username: string, role: string, ttl: int, now: int): Claims {
    Claims(username, role, now, Some(now + ttl))
  }

  function SigningInput(h: string, p: string): string {
    h + "." + p
  }

  function CreateAccessToken(codec: Codec, secret: string, username: string, role: string, ttl: int, now: int)
    : Result<string, Refusal>
  {
    if secret == "" then Err(EmptySecret)
    else
      var h := B64Encode(codec.header);
      var p := B64Encode(codec.dumps(NewClaims(username, role, ttl, now)));
      var s := B64Encode(codec.mac(secret, SigningInput(h, p)));
      Ok(h + "." + p + "." + s)
  }

  function VerifyAccessToken(codec: Codec, secret: string, token: string, now: int): Result<Claims, Refusal> {
    if secret == "" then Err(EmptySecret)
    else
      var parts := Split(Strip(token), '.');
      if |parts| != 3 then Err(NotThreeSegments)
      else
        var expected := codec.mac(secret, SigningInput(parts[0], parts[1]));
        var actual := B64Decode(codec.lenient, parts[2]);
        if actual.None? then Err(InvalidEncoding)
        else if expected != actual.value then Err(InvalidSignature)
        else
          var bytes := B64Decode(codec.lenient, parts[1]);
          if bytes.None? then Err(InvalidEncoding)
          else
            var claims := codec.loads(bytes.value);
            if claims.None? then Err(InvalidPayload)
            else if claims.value.exp.None? || claims.value.exp.value < now then Err(Expired)
            else Ok(claims.value)
  }

  // ----- a token says what was put into it, until it expires

  lemma LettersAreNoDots(s: string)
    requires AllLetters(s)
    ensures '.' !in s
  {
  }

  lemma StripKeepsLetters(s: string)
    requires s != "" ==> !IsSpace(s[0]) && !IsSpace(s[|s| - 1])
    ensures Strip(s) == s
  {
  }

  lemma TokenEnds(h: string, p: string, s: string)
    requires AllLetters(h) && AllLetters(p) && AllLetters(s)
    ensures var token := h + "." + p + "." + s;
            token != "" && !IsSpace(token[0]) && !IsSpace(token[|token| - 1])
  {
    var token := h + "." + p + "." + s;
    assert token[0] == if h == "" then '.' else h[0];
    assert token[|token| - 1] == if s == "" then '.' else s[|s| - 1];
  }

  lemma SegmentsOf(h: string, p: string, s: string)
    requires AllLetters(h) && AllLetters(p) && AllLetters(s)
    ensures Split(Strip(h + "." + p + "." + s), '.') == [h, p, s]
  {
    hide AllLetters, Strip, IsSpace, Split;
    var token := h + "." + p + "." + s;
    LettersAreNoDots(h);
    LettersAreNoDots(p);
    LettersAreNoDots(s);
    TokenEnds(h, p, s);
    StripKeepsLetters(token);
    SplitWord(s, '.');
    SplitFirst(p, s, '.');
    SplitFirst(h, p + ['.'] + s, '.');
    assert token == h + ['.'] + (p + ['.'] + s);
  }

  /** A created token has exactly three segments, the parts that were joined. */
  lemma TokenHasThreeSegments(codec: Codec, secret: string, username: string, role: string, ttl: int, now: int)
    requires secret != ""
    ensures var token := CreateAccessToken(codec, secret, username, role, ttl, now);
            token.Ok? &&
            var parts := Split(Strip(token.value), '.');
            && |parts| == 3
            && parts[0] == B64Encode(codec.header)
            && parts[1] == B64Encode(codec.dumps(Claims(username, role, now, Some(now + ttl))))
            && parts[2] == B64Encode(codec.mac(secret, parts[0] + "." + parts[1]))
  {
    hide B64Encode, B64Decode;
    var h := B64Encode(codec.header);
    var p := B64Encode(codec.dumps(NewClaims(username, role, ttl, now)));
    var s := B64Encode(codec.mac(secret, SigningInput(h, p)));
    B64RoundTrip(codec.lenient, codec.header);
    B64RoundTrip(codec.lenient, codec.dumps(NewClaims(username, role, ttl, now)));
    B64RoundTrip(codec.lenient, codec.mac(secret, SigningInput(h, p)));
    SegmentsOf(h, p, s);
  }

  /** Verified under any secret, at any time: the token is refused when the two secrets hash its
      signing input differently; otherwise it gives back exactly the claims put into it up to its
      expiry, that second included, and is refused as expired afterwards. */
  lemma TokenVerifies(codec: Codec, secret: string, username: string, role: string, ttl: int, issued: int,
      other: string, now: int)
    requires ReadsItsClaims(codec) && secret != "" && other != ""
    ensures var token := CreateAccessToken(codec, secret, username, role, ttl, issued);
            token.Ok? &&
            var claims := Claims(username, role, issued, Some(issued + ttl));
            var input := B64Encode(codec.header) + "." + B64Encode(codec.dumps(claims));
            VerifyAccessToken(codec, other, token.value, now)
              == if codec.mac(other, input) != codec.mac(secret, input) then Err(InvalidSignature)
                 else if now <= issued + ttl then Ok(claims)
                 else Err(Expired)
  {
    hide B64Encode, B64Decode;
    TokenHasThreeSegments(codec, secret, username, role, ttl, issued);
    var claims := NewClaims(username, role, ttl, issued);
    var input := SigningInput(B64Encode(codec.header), B64Encode(codec.dumps(claims)));
    B64RoundTrip(codec.lenient, codec.dumps(claims));
    B64RoundTrip(codec.lenient, codec.mac(secret, input));
  }

  /** Whoever made it, a token is accepted exactly when it has three segments, the last is the hash of
      the first two under the secret, and the second reads as claims that have not expired; and those
      claims are what verification gives back. */
  lemma AcceptedTokenWasSigned(codec: Codec, secret: string, token: string, now: int, claims: Claims)
    ensures var parts := Split(Strip(token), '.');
            VerifyAccessToken(codec, secret, token, now) == Ok(claims)
            <==> && secret != "" && |parts| == 3
                 && B64Decode(codec.lenient, parts[2]) == Some(codec.mac(secret, parts[0] + "." + parts[1]))
                 && B64Decode(codec.lenient, parts[1]).Some?
                 && codec.loads(B64Decode(codec.lenient, parts[1]).value) == Some(claims)
                 && claims.exp.Some? && now <= claims.exp.value
  {
    hide B64Decode, Split, Strip;
  }

  /** Examples of the coding: those of section 10 of RFC 4648, and the two signs that set this
      alphabet apart. */
  lemma CodingExamples()
    ensures B64Encode([]) == ""
    ensures B64Encode(['f' as int]) == "Zg"
    ensures B64Encode(['f' as int, 'o' as int]) == "Zm8"
    ensures B64Encode(['f' as int, 'o' as int, 'o' as int]) == "Zm9v"
    ensures B64Encode([251, 239, 255]) == "--__"
  {
    assert EncodePadded(['f' as int]) == "Zg==";
    assert EncodePadded(['f' as int, 'o' as int]) == "Zm8=";
    StripsPadding("Zg", 2);
    assert "Zg" + Repeat('=', 2) == "Zg==";
    StripsPadding("Zm8", 1);
    assert "Zm8" + Repeat('=', 1) == "Zm8=";
    var none: Bytes := [];
    assert EncodePadded(['f' as int, 'o' as int, 'o' as int]) == "Zm9v" + EncodePadded(none);
    assert EncodePadded([251, 239, 255]) == "--__" + EncodePadded(none);
  }

  /** The same secret always verifies its own token until the expiry. */
  lemma OwnTokenVerifies(codec: Codec, secret: string, username: string, role: string, ttl: int, issued: int, now: int)
    requires ReadsItsClaims(codec) && secret != ""
    ensures var token := CreateAccessToken(codec, secret, username, role, ttl, issued);
            var claims := Claims(username, role, issued, Some(issued + ttl));
            token.Ok? && (VerifyAccessToken(codec, secret, token.value, now) == Ok(claims) <==> now <= issued + ttl)
  {
    TokenVerifies(codec, secret, username, role, ttl, issued, secret, now);
  }
}
