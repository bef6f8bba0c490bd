/** Refresh tokens, stored passwords and phone numbers, as internal/service/service.go
    handles them. Random bytes, SHA-256 and Argon2 are parameters or ideal functions. */
module Credentials {
  import opened Outcomes
  import Text
  import Decimal
  import Base64

  // ---- Refresh tokens ----

  /** SHA-256 taken as an ideal, collision-free function: the hash stands for its preimage. */
  datatype TokenHash = TokenHash(preimage: string)

  function HashRefreshToken(token: string): TokenHash
  {
    TokenHash(token)
  }

  datatype TokenPair = TokenPair(token: string, hash: TokenHash)

  function CreateRefreshTokenPair(raw: seq<Base64.Byte>): TokenPair
  {
    var token := Base64.Encode(Base64.Url, raw);
    TokenPair(token, HashRefreshToken(token))
  }

  function ValidateRefreshToken(tokenRaw: string, refreshTokenLen: nat): Result<string, string>
  {
    var token := Text.TrimSpace(tokenRaw);
    if token == "" then Err("empty refresh token")
    else if Text.ByteLen(token) != Base64.EncodedLen(refreshTokenLen) then Err("invalid refresh token length")
    else
      match Base64.Decode(Base64.Url, token)
      case None => Err("invalid refresh token encoding")
      case Some(decoded) =>
        if |decoded| != refreshTokenLen then Err("invalid refresh token payload length") else Ok(token)
  }

  /** The format check accepts a cookie exactly when its trimmed text is the right number of
      base64url symbols; no text with CR or LF inside gets through. With a zero token length
      nothing is accepted. */
  lemma RefreshTokenAcceptedExactly(tokenRaw: string, n: nat)
    ensures var t := Text.TrimSpace(tokenRaw);
            ValidateRefreshToken(tokenRaw, n).Ok? <==>
            n >= 1 && |t| == Base64.EncodedLen(n) && Base64.AllSymbols(Base64.Url, t)
    ensures ValidateRefreshToken(tokenRaw, n).Ok? ==>
            ValidateRefreshToken(tokenRaw, n).value == Text.TrimSpace(tokenRaw)
  {
    var t := Text.TrimSpace(tokenRaw);
    if Base64.AllSymbols(Base64.Url, t) {
      forall c | c in t ensures c as int < 0x80 {
        var i :| 0 <= i < |t| && t[i] == c;
        assert Base64.IsSymbol(Base64.Url, t[i]);
      }
      Text.ByteLenOfAscii(t);
    }
    if |t| == Base64.EncodedLen(n) {
      Base64.DecodeExact(Base64.Url, t, n);
    } else if Text.ByteLen(t) == Base64.EncodedLen(n) {
      NonAsciiDoesNotDecode(t);
    }
  }

  /** An accepted cookie is the token it gives with spaces around it, and the token holds none at
      its ends. */
  lemma AcceptedCookieIsPaddedToken(tokenRaw: string, n: nat) returns (a: string, b: string)
    requires ValidateRefreshToken(tokenRaw, n).Ok?
    ensures var token := ValidateRefreshToken(tokenRaw, n).value;
            tokenRaw == a + token + b && Text.AllSpace(a) && Text.AllSpace(b) && Text.Trimmed(token)
  {
    RefreshTokenAcceptedExactly(tokenRaw, n);
    a, b := Text.TrimSpaceSplits(tokenRaw);
  }

  /** A text with a multi-byte character keeps it through the dropping of newlines, and no
      multi-byte character is a symbol. */
  lemma {:induction false} NonAsciiDoesNotDecode(t: string)
    requires Text.ByteLen(t) != |t|
    ensures !Base64.AllSymbols(Base64.Url, Base64.DropNewlines(t))
  {
    var d, rest := Base64.DropNewlines(t), Base64.DropNewlines(t[1..]);
    if Text.Utf8Size(t[0]) != 1 {
      assert d[0] == t[0] && !Base64.IsSymbol(Base64.Url, d[0]);
    } else {
      assert Text.ByteLen(t) == 1 + Text.ByteLen(t[1..]);
      NonAsciiDoesNotDecode(t[1..]);
      var i :| 0 <= i < |rest| && !Base64.IsSymbol(Base64.Url, rest[i]);
      assert d[|d| - |rest|..] == rest;
      assert d[i + |d| - |rest|] == rest[i];
    }
  }

  /** A generated token comes back from the cookie unchanged, so a refresh looks up the very
      hash that was stored. */
  lemma GeneratedTokenIsAccepted(raw: seq<Base64.Byte>)
    requires |raw| >= 1
    ensures var p := CreateRefreshTokenPair(raw);
            ValidateRefreshToken(p.token, |raw|) == Ok(p.token) && HashRefreshToken(p.token) == p.hash
  {
    var t := CreateRefreshTokenPair(raw).token;
    Base64.EncodeShape(Base64.Url, raw);
    assert Base64.IsSymbol(Base64.Url, t[0]) && Base64.IsSymbol(Base64.Url, t[|t| - 1]);
    Text.TrimSpaceIdentity(t);
    RefreshTokenAcceptedExactly(t, |raw|);
  }

  /** Different random bytes are stored under different hashes. */
  lemma HashDeterminesBytes(raw: seq<Base64.Byte>, other: seq<Base64.Byte>)
    ensures CreateRefreshTokenPair(other).hash == CreateRefreshTokenPair(raw).hash <==> other == raw
  {
    Base64.DecodeOfEncode(Base64.Url, raw);
    Base64.DecodeOfEncode(Base64.Url, other);
  }

  // ---- Passwords ----

  type KeyDerivation = (string, seq<Base64.Byte>, nat) -> seq<Base64.Byte>

  const TWO_TO_32: nat := 0x1_0000_0000

  /** Argon2 for one fixed time, memory and thread setting: any function that returns as many
      bytes as it is asked for. */
  ghost predicate DerivesRequestedLength(argon: KeyDerivation)
  {
    forall p, s, k :: |argon(p, s, k)| == k
  }

  function HashPassword(argon: KeyDerivation, password: string, salt: seq<Base64.Byte>, keyLen: nat): string
  {
    Base64.Encode(Base64.Std, salt) + "$" + Base64.Encode(Base64.Std, argon(password, salt, keyLen))
  }

  function VerifyPassword(argon: KeyDerivation, password: string, stored: string): Result<bool, string>
  {
    var parts := Text.Split(stored, '$');
    if |parts| != 2 then Err("invalid stored password hash format")
    else
      match (Base64.Decode(Base64.Std, parts[0]), Base64.Decode(Base64.Std, parts[1]))
      case (None, _) => Err("failed to decode salt")
      case (_, None) => Err("failed to decode hash")
      case (Some(salt), Some(expected)) => Ok(argon(password, salt, |expected| % TWO_TO_32) == expected)
  }

  lemma EncodedHasNoDollar(bs: seq<Base64.Byte>)
    ensures '$' !in Base64.Encode(Base64.Std, bs)
  {
    var s := Base64.Encode(Base64.Std, bs);
    Base64.EncodeShape(Base64.Std, bs);
    forall i | 0 <= i < |s| ensures s[i] != '$' {
      assert Base64.IsSymbol(Base64.Std, s[i]);
    }
  }

  /** What is stored for a password is salt, dollar sign and key, in this order, in the standard
      alphabet. */
  lemma StoredHashIsSaltThenKey(argon: KeyDerivation, password: string, salt: seq<Base64.Byte>, keyLen: nat)
    ensures var parts := Text.Split(HashPassword(argon, password, salt, keyLen), '$');
            && |parts| == 2
            && Base64.Decode(Base64.Std, parts[0]) == Some(salt)
            && Base64.Decode(Base64.Std, parts[1]) == Some(argon(password, salt, keyLen))
  {
    StoredHashSplits(salt, argon(password, salt, keyLen));
  }

  /** A stored hash splits into two parts that decode to the salt and the key. */
  lemma StoredHashSplits(salt: seq<Base64.Byte>, key: seq<Base64.Byte>)
    ensures var parts := Text.Split(Base64.Encode(Base64.Std, salt) + "$" + Base64.Encode(Base64.Std, key), '$');
            && |parts| == 2
            && Base64.Decode(Base64.Std, parts[0]) == Some(salt)
            && Base64.Decode(Base64.Std, parts[1]) == Some(key)
  {
    EncodedHasNoDollar(salt);
    EncodedHasNoDollar(key);
    Text.SplitOnce(Base64.Encode(Base64.Std, salt), Base64.Encode(Base64.Std, key), '$');
    assert "$" == ['$'];
    Base64.DecodeOfEncode(Base64.Std, salt);
    Base64.DecodeOfEncode(Base64.Std, key);
  }

  /** A stored text is taken for a hash exactly when it holds one separator, whose two sides are
      then what is decoded. */
  lemma StoredFormatExactly(argon: KeyDerivation, password: string, stored: string)
    ensures VerifyPassword(argon, password, stored) == Err("invalid stored password hash format") <==>
            !exists a, b :: stored == a + "$" + b && '$' !in a && '$' !in b
    ensures forall a, b | stored == a + "$" + b && '$' !in a && '$' !in b :: Text.Split(stored, '$') == [a, b]
  {
    assert "$" == ['$'];
    if |Text.Split(stored, '$')| == 2 {
      Text.SplitInTwo(stored, '$');
    }
    forall a, b | stored == a + "$" + b && '$' !in a && '$' !in b ensures Text.Split(stored, '$') == [a, b] {
      Text.SplitOnce(a, b, '$');
    }
  }

  /** For every password, salt and 32-bit key length, verification against a stored hash never
      errs and accepts exactly the passwords with the same derived key; so the password that
      was hashed is accepted. */
  lemma VerifyAgainstHash(argon: KeyDerivation, password: string, attempt: string, salt: seq<Base64.Byte>, keyLen: nat)
    requires DerivesRequestedLength(argon)
    requires keyLen < TWO_TO_32
    ensures VerifyPassword(argon, attempt, HashPassword(argon, password, salt, keyLen))
         == Ok(argon(attempt, salt, keyLen) == argon(password, salt, keyLen))
    ensures VerifyPassword(argon, password, HashPassword(argon, password, salt, keyLen)) == Ok(true)
  {
    var key := argon(password, salt, keyLen);
    assert |key| == keyLen && |key| % TWO_TO_32 == keyLen;
    StoredHashSplits(salt, key);
  }

  // ---- Phone numbers ----

  function ValidatePhone(phoneRaw: string, isPhoneRequired: bool): Result<int, string>
  {
    if !isPhoneRequired && phoneRaw == "" then Ok(0)
    else
      var phone := Text.TrimSpace(phoneRaw);
      if Text.ByteLen(phone) < 10 || Text.ByteLen(phone) > 15 then Err("phone must be between 10 and 15 characters")
      else
        var unprefixed := if phone[0] == '+' then phone[1..] else phone;
        match Decimal.Atoi(unprefixed)
        case None => Err("failed to convert phone to number")
        case Some(n) => Ok(n)
  }

  lemma TenToFifteen()
    ensures Decimal.Pow10(15) == 1_000_000_000_000_000
  {
    assert Decimal.Pow10(3) == 1000;
    assert Decimal.Pow10(6) == 1000 * Decimal.Pow10(3);
    assert Decimal.Pow10(9) == 1000 * Decimal.Pow10(6);
    assert Decimal.Pow10(12) == 1000 * Decimal.Pow10(9);
    assert Decimal.Pow10(15) == 1000 * Decimal.Pow10(12);
  }

  /** The text is one of ten to fifteen bytes, an optional plus and then a number as Go reads it. */
  predicate IsPhone(text: string, n: int)
  {
    && 10 <= Text.ByteLen(text) <= 15
    && ((text[0] != '+' && Decimal.Atoi(text) == Some(n)) || (text[0] == '+' && Decimal.Atoi(text[1..]) == Some(n)))
  }

  /** A phone is accepted exactly if it is empty and not required, for zero, or trimmed is a number of
      ten to fifteen bytes, for that number. */
  lemma PhoneAcceptedExactly(phoneRaw: string, isPhoneRequired: bool, n: int)
    ensures ValidatePhone(phoneRaw, isPhoneRequired) == Ok(n) <==>
            if phoneRaw == "" && !isPhoneRequired then n == 0 else IsPhone(Text.TrimSpace(phoneRaw), n)
  {}

  /** Every accepted phone has magnitude below 10^15. */
  lemma PhoneMagnitude(phoneRaw: string, isPhoneRequired: bool)
    requires ValidatePhone(phoneRaw, isPhoneRequired).Ok?
    ensures -1_000_000_000_000_000 < ValidatePhone(phoneRaw, isPhoneRequired).value < 1_000_000_000_000_000
  {
    var phone := Text.TrimSpace(phoneRaw);
    if phoneRaw != "" || isPhoneRequired {
      var s := if phone[0] == '+' then phone[1..] else phone;
      var digits := if s[0] in ['-', '+'] then s[1..] else s;
      Decimal.ValueBound(digits);
      Decimal.Pow10Monotone(|digits|, 15);
      TenToFifteen();
    }
  }

  /** The column type of users.phone. */
  predicate FitsInt32(n: int)
  {
    -0x8000_0000 <= n <= 0x7FFF_FFFF
  }

  /** `NULLIF(n, 0)`. */
  function PhoneColumn(n: int): Option<int>
  {
    if n == 0 then None else Some(n)
  }

  /** The integer a profile patch starts from: the stored phone, NULL read as 0. */
  function PhoneInt(stored: Option<int>): int
  {
    if stored.Some? then stored.value else 0
  }

  /** The text a profile patch hands to UpdateUser. */
  function PhoneText(n: int): string
  {
    if n != 0 then Decimal.Itoa(n) else ""
  }

  /** The integer UpdateUser reads back from that text. */
  function ParsePhoneText(s: string): Option<int>
  {
    if Text.TrimSpace(s) == "" then Some(0) else Decimal.Atoi(s)
  }

  /** Integer to text to integer loses nothing on the way through a profile patch. */
  lemma PhoneTextRoundTrip(n: int)
    requires Decimal.MIN_INT64 <= n <= Decimal.MAX_INT64
    ensures ParsePhoneText(PhoneText(n)) == Some(n)
  {
    if n != 0 {
      var s := Decimal.Itoa(n);
      var last := s[|s| - 1];
      assert Decimal.IsDigit(last);
      assert s[0] == '-' || Decimal.IsDigit(s[0]);
      Text.TrimSpaceIdentity(s);
      Decimal.AtoiOfItoa(n);
    }
  }

  /** A patch without a phone writes back the stored column exactly when that column is not
      the number zero, which no write path can store. */
  lemma OmittedPhoneIsKept(stored: Option<int>)
    requires stored.Some? ==> FitsInt32(stored.value)
    ensures ParsePhoneText(PhoneText(PhoneInt(stored))).Some?
    ensures PhoneColumn(ParsePhoneText(PhoneText(PhoneInt(stored))).value) == stored <==> stored != Some(0)
  {
    PhoneTextRoundTrip(PhoneInt(stored));
  }
}
