/** The signed Approval token of internal/approvalauthority/handler.go: unpadded base64url, a keyed digest
    joined by a dot, and an expiry rounded down to whole seconds. */
module ApprovalToken {
  import opened Text
  import opened Instants

  type Byte = n: int | 0 <= n < 256

  // ----- base64.RawURLEncoding (section 5 of RFC 4648, without padding) -----

  function Letter(i: nat): char
    requires i < 64
  {
    if i < 26 then ('A' as int + i) as char
    else if i < 52 then ('a' as int + (i - 26)) as char
    else if i < 62 then ('0' as int + (i - 52)) as char
    else if i == 62 then '-' else '_'
  }

  predicate IsLetter(c: char) {
    'A' <= c <= 'Z' || 'a' <= c <= 'z' || '0' <= c <= '9' || c == '-' || c == '_'
  }

  predicate AllLetters(s: string) {
    forall i :: 0 <= i < |s| ==> IsLetter(s[i])
  }

  function LetterValue(c: char): (i: nat)
    requires IsLetter(c)
    ensures i < 64
  {
    if 'A' <= c <= 'Z' then c as int - 'A' as int
    else if 'a' <= c <= 'z' then c as int - 'a' as int + 26
    else if '0' <= c <= '9' then c as int - '0' as int + 52
    else if c == '-' then 62 else 63
  }

  function EncodeBase64(bytes: seq<Byte>): string {
    if bytes == [] then ""
    else if |bytes| == 1 then [Letter(bytes[0] / 4), Letter(bytes[0] % 4 * 16)]
    else if |bytes| == 2 then
      [Letter(bytes[0] / 4), Letter(bytes[0] % 4 * 16 + bytes[1] / 16), Letter(bytes[1] % 16 * 4)]
    else
      [Letter(bytes[0] / 4), Letter(bytes[0] % 4 * 16 + bytes[1] / 16),
       Letter(bytes[1] % 16 * 4 + bytes[2] / 64), Letter(bytes[2] % 64)]
      + EncodeBase64(bytes[3..])
  }

  /** The decoder skips line breaks wherever they stand. */
  function DropLineBreaks(s: string): string {
    if s == "" then ""
    else if s[0] == '\r' || s[0] == '\n' then DropLineBreaks(s[1..])
    else [s[0]] + DropLineBreaks(s[1..])
  }

  function JoinFirst(a: nat, b: nat): Byte
    requires a < 64 && b < 64
  {
    a * 4 + b / 16
  }

  function JoinSecond(b: nat, c: nat): Byte
    requires b < 64 && c < 64
  {
    b % 16 * 16 + c / 4
  }

  function JoinThird(c: nat, d: nat): Byte
    requires c < 64 && d < 64
  {
    c % 4 * 64 + d
  }

  /** Surplus bits of a last, short group are ignored; a single left-over letter is an error. */
  function DecodeLetters(s: string): Option<seq<Byte>>
    requires AllLetters(s)
  {
    if s == "" then Some([])
    else if |s| == 1 then None
    else
      var a, b := LetterValue(s[0]), LetterValue(s[1]);
      if |s| == 2 then Some([JoinFirst(a, b)])
      else
        var c := LetterValue(s[2]);
        if |s| == 3 then Some([JoinFirst(a, b), JoinSecond(b, c)])
        else
          match DecodeLetters(s[4..])
          case None => None
          case Some(rest) => Some([JoinFirst(a, b), JoinSecond(b, c), JoinThird(c, LetterValue(s[3]))] + rest)
  }

  function DecodeBase64(s: string): Option<seq<Byte>> {
    var letters := DropLineBreaks(s);
    if AllLetters(letters) then DecodeLetters(letters) else None
  }

  lemma LetterRoundTrip(i: nat)
    requires i < 64
    ensures IsLetter(Letter(i)) && LetterValue(Letter(i)) == i
  {
  }

  lemma {:induction false} EncodedLetters(bytes: seq<Byte>)
    ensures AllLetters(EncodeBase64(bytes))
  {
    forall i: nat | i < 64 ensures IsLetter(Letter(i)) { LetterRoundTrip(i); }
    if |bytes| > 2 { EncodedLetters(bytes[3..]); }
  }

  lemma {:induction false} NothingDropped(s: string)
    requires AllLetters(s)
    ensures DropLineBreaks(s) == s
  {
    if s != "" { NothingDropped(s[1..]); }
  }

  lemma JoinSplit(x: Byte, y: Byte, z: Byte)
    ensures JoinFirst(x / 4, x % 4 * 16 + y / 16) == x && JoinFirst(x / 4, x % 4 * 16) == x
    ensures JoinSecond(x % 4 * 16 + y / 16, y % 16 * 4 + z / 64) == y
    ensures JoinSecond(x % 4 * 16 + y / 16, y % 16 * 4) == y
    ensures JoinThird(y % 16 * 4 + z / 64, z % 64) == z
  {
    assert (x % 4 * 16 + y / 16) / 16 == x % 4 && (x % 4 * 16 + y / 16) % 16 == y / 16;
    assert (y % 16 * 4 + z / 64) / 4 == y % 16 && (y % 16 * 4 + z / 64) % 4 == z / 64;
  }

  /** One group of three bytes in front of an encoded text. */
  lemma GroupRoundTrip(x: Byte, y: Byte, z: Byte, text: string)
    requires AllLetters(text)
    ensures var group := [Letter(x / 4), Letter(x % 4 * 16 + y / 16), Letter(y % 16 * 4 + z / 64), Letter(z % 64)];
      AllLetters(group + text)
      && DecodeLetters(group + text) ==
        match DecodeLetters(text) { case None => None case Some(rest) => Some([x, y, z] + rest) }
  {
    var group := [Letter(x / 4), Letter(x % 4 * 16 + y / 16), Letter(y % 16 * 4 + z / 64), Letter(z % 64)];
    assert (group + text)[4..] == text;
    LetterRoundTrip(x / 4);
    LetterRoundTrip(x % 4 * 16 + y / 16);
    LetterRoundTrip(y % 16 * 4 + z / 64);
    LetterRoundTrip(z % 64);
    JoinSplit(x, y, z);
  }

  lemma LastOne(x: Byte)
    ensures AllLetters(EncodeBase64([x])) && DecodeLetters(EncodeBase64([x])) == Some([x])
  {
    var a, b := x / 4, x % 4 * 16;
    LetterRoundTrip(a);
    LetterRoundTrip(b);
    assert EncodeBase64([x]) == [Letter(a), Letter(b)];
    JoinSplit(x, 0, 0);
  }

  lemma LastTwo(x: Byte, y: Byte)
    ensures AllLetters(EncodeBase64([x, y])) && DecodeLetters(EncodeBase64([x, y])) == Some([x, y])
  {
    var a, b, c := x / 4, x % 4 * 16 + y / 16, y % 16 * 4;
    LetterRoundTrip(a);
    LetterRoundTrip(b);
    LetterRoundTrip(c);
    assert EncodeBase64([x, y]) == [Letter(a), Letter(b), Letter(c)];
    JoinSplit(x, y, 0);
  }

  lemma NothingRoundTrip()
    ensures EncodeBase64([]) == "" && DecodeLetters("") == Some([])
  {
  }

  lemma FirstGroup(bytes: seq<Byte>)
    requires |bytes| > 2
    ensures EncodeBase64(bytes) ==
      [Letter(bytes[0] / 4), Letter(bytes[0] % 4 * 16 + bytes[1] / 16),
       Letter(bytes[1] % 16 * 4 + bytes[2] / 64), Letter(bytes[2] % 64)]
      + EncodeBase64(bytes[3..])
  {
    hide Letter;
  }

  lemma {:induction false} LettersRoundTrip(bytes: seq<Byte>)
    requires AllLetters(EncodeBase64(bytes))
    ensures DecodeLetters(EncodeBase64(bytes)) == Some(bytes)
  {
    hide EncodeBase64, DecodeLetters, Letter, AllLetters;
    if bytes == [] {
      NothingRoundTrip();
    } else if |bytes| == 1 {
      assert bytes == [bytes[0]];
      LastOne(bytes[0]);
    } else if |bytes| == 2 {
      assert bytes == [bytes[0], bytes[1]];
      LastTwo(bytes[0], bytes[1]);
    } else {
      EncodedLetters(bytes[3..]);
      LettersRoundTrip(bytes[3..]);
      GroupRoundTrip(bytes[0], bytes[1], bytes[2], EncodeBase64(bytes[3..]));
      FirstGroup(bytes);
      assert bytes == [bytes[0], bytes[1], bytes[2]] + bytes[3..];
    }
  }

  lemma Base64RoundTrip(bytes: seq<Byte>)
    ensures DecodeBase64(EncodeBase64(bytes)) == Some(bytes)
  {
    EncodedLetters(bytes);
    NothingDropped(EncodeBase64(bytes));
    LettersRoundTrip(bytes);
  }

  // ----- strings.Split at dots -----

  function SplitDots(s: string): (parts: seq<string>)
    ensures |parts| > 0
  {
    if s == "" then [""]
    else
      var rest := SplitDots(s[1..]);
      if s[0] == '.' then [""] + rest else [[s[0]] + rest[0]] + rest[1..]
  }

  lemma {:induction false} SplitPlain(s: string)
    requires '.' !in s
    ensures SplitDots(s) == [s]
  {
    if s != "" {
      SplitPlain(s[1..]);
      assert s == [s[0]] + s[1..];
    }
  }

  lemma {:induction false} SplitJoined(a: string, b: string)
    requires '.' !in a && '.' !in b
    ensures SplitDots(a + "." + b) == [a, b]
  {
    var s := a + "." + b;
    if a == "" {
      assert s[1..] == b;
      SplitPlain(b);
    } else {
      assert s[1..] == a[1..] + "." + b;
      SplitJoined(a[1..], b);
      assert a == [a[0]] + a[1..];
    }
  }

  // ----- Signing and verifying, for any keyed digest -----

  function Sign(mac: string -> seq<Byte>, payload: seq<Byte>): string {
    EncodeBase64(payload) + "." + EncodeBase64(mac(EncodeBase64(payload)))
  }

  function Verify(mac: string -> seq<Byte>, token: string): Option<seq<Byte>> {
    var parts := SplitDots(token);
    if |parts| != 2 then None
    else
      match DecodeBase64(parts[1])
      case None => None
      case Some(provided) => if provided != mac(parts[0]) then None else DecodeBase64(parts[0])
  }

  /** Whatever the digest, a signed payload verifies and comes back unchanged. */
  lemma SignedVerifies(mac: string -> seq<Byte>, payload: seq<Byte>)
    ensures Verify(mac, Sign(mac, payload)) == Some(payload)
  {
    var text := EncodeBase64(payload);
    var tag := EncodeBase64(mac(text));
    EncodedLetters(payload);
    EncodedLetters(mac(text));
    SplitJoined(text, tag);
    Base64RoundTrip(payload);
    Base64RoundTrip(mac(text));
  }

  predicate SignedText(signed: set<seq<Byte>>, text: string) {
    exists p :: p in signed && text == EncodeBase64(p)
  }

  /** Ideal keyed digest: a presented part of the token is the digest of a text only if that text encodes a payload
      that was signed. */
  ghost predicate Unforgeable(mac: string -> seq<Byte>, token: string, signed: set<seq<Byte>>) {
    forall part, text ::
      part in SplitDots(token) && DecodeBase64(part) == Some(mac(text)) ==> SignedText(signed, text)
  }

  /** Every token that verifies yields a signed payload, although the token itself need not be the one that
      was issued (surplus bits and line breaks in its digest part are ignored). */
  lemma OnlySignedVerify(mac: string -> seq<Byte>, token: string, signed: set<seq<Byte>>)
    requires Unforgeable(mac, token, signed)
    ensures Verify(mac, token).Some? ==> Verify(mac, token).value in signed
  {
    if Verify(mac, token).Some? {
      var parts := SplitDots(token);
      assert parts[1] in parts && SignedText(signed, parts[0]);
      var p :| p in signed && parts[0] == EncodeBase64(p);
      Base64RoundTrip(p);
    }
  }

  // ----- Expiry, instants in nanoseconds -----

  /** time.Time.Unix rounds down to a whole second. */
  function ExpiresAt(issued: int, ttl: int): int {
    (issued + ttl) / SECOND
  }

  predicate Unexpired(now: int, expiresAt: int) {
    now < expiresAt * SECOND
  }

  /** An Approval outlives all but the last second of its lifetime and never the lifetime itself; it is usable
      at the instant of issue exactly when a whole second ends within the lifetime. */
  lemma ExpiryWindow(issued: int, ttl: int, now: int)
    ensures now <= issued + ttl - SECOND ==> Unexpired(now, ExpiresAt(issued, ttl))
    ensures now >= issued + ttl ==> !Unexpired(now, ExpiresAt(issued, ttl))
    ensures Unexpired(issued, ExpiresAt(issued, ttl)) <==> issued / SECOND < (issued + ttl) / SECOND
  {
    var total := issued + ttl;
    assert total == total / SECOND * SECOND + total % SECOND;
    assert issued == issued / SECOND * SECOND + issued % SECOND;
  }
}
