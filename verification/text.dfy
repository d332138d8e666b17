/** Text helpers shared by every component: options, decimal rendering of counters, and the
    white-space trimming and prefix handling of Go's `strings` package. */
module Text {

  datatype Option<+T> = None | Some(value: T)

  // ----- Decimal rendering (fmt's %d) -----

  function DigitChar(d: nat): (c: char)
    requires d < 10
    ensures '0' <= c <= '9'
  {
    ['0', '1', '2', '3', '4', '5', '6', '7', '8', '9'][d]
  }

  function DigitValue(c: char): nat
    requires '0' <= c <= '9'
  {
    c as nat - '0' as nat
  }

  function Decimal(n: nat): (s: string)
    ensures |s| > 0
    ensures forall i :: 0 <= i < |s| ==> '0' <= s[i] <= '9'
  {
    if n < 10 then [DigitChar(n)] else Decimal(n / 10) + [DigitChar(n % 10)]
  }

  function DecimalValue(s: string): nat
    requires forall i :: 0 <= i < |s| ==> '0' <= s[i] <= '9'
  {
    if s == "" then 0 else 10 * DecimalValue(s[..|s| - 1]) + DigitValue(s[|s| - 1])
  }

  lemma DigitRoundTrip(d: nat)
    requires d < 10
    ensures DigitValue(DigitChar(d)) == d
  {
  }

  /** Reading a rendered counter back gives the counter. */
  lemma {:induction false} DecimalRoundTrip(n: nat)
    ensures DecimalValue(Decimal(n)) == n
  {
    if n < 10 {
      DigitRoundTrip(n);
      assert Decimal(n)[..0] == "";
    } else {
      DigitRoundTrip(n % 10);
      DecimalRoundTrip(n / 10);
      assert Decimal(n)[..|Decimal(n)| - 1] == Decimal(n / 10);
    }
  }

  lemma DecimalInjective(m: nat, n: nat)
    requires Decimal(m) == Decimal(n)
    ensures m == n
  {
    DecimalRoundTrip(m);
    DecimalRoundTrip(n);
  }

  // ----- strings.TrimSpace -----

  predicate IsSpace(c: char) {
    c in {'\t', '\n', '\U{000B}', '\U{000C}', '\r', ' ', '\U{0085}', '\U{00A0}', '\U{1680}',
          '\U{2028}', '\U{2029}', '\U{202F}', '\U{205F}', '\U{3000}'}
    || '\U{2000}' <= c <= '\U{200A}'
  }

  /** White space by code point: the five controls from tab to carriage return, and the separators of Unicode. */
  lemma SpacesExactly(c: char)
    ensures IsSpace(c) <==>
      var n := c as int;
      9 <= n <= 13 || n == 32 || n == 133 || n == 160 || n == 5_760 || 8_192 <= n <= 8_202
      || n == 8_232 || n == 8_233 || n == 8_239 || n == 8_287 || n == 12_288
  {
  }

  function TrimLeft(s: string): (t: string)
    ensures t == "" || !IsSpace(t[0])
    ensures |t| <= |s| && t == s[|s| - |t|..]
    ensures forall i :: 0 <= i < |s| - |t| ==> IsSpace(s[i])
  {
    if s != "" && IsSpace(s[0]) then TrimLeft(s[1..]) else s
  }

  function TrimRight(s: string): (t: string)
    ensures t == "" || !IsSpace(t[|t| - 1])
    ensures t <= s
    ensures forall i :: |t| <= i < |s| ==> IsSpace(s[i])
  {
    if s != "" && IsSpace(s[|s| - 1]) then TrimRight(s[..|s| - 1]) else s
  }

  function TrimSpace(s: string): (t: string)
    ensures t == "" || (!IsSpace(t[0]) && !IsSpace(t[|t| - 1]))
    ensures t == "" <==> forall i :: 0 <= i < |s| ==> IsSpace(s[i])
  {
    var l := TrimLeft(s);
    assert l != "" ==> s[|s| - |l|] == l[0];
    TrimRight(l)
  }

  /** Text with no white space at either end is left alone, so trimming twice is trimming once. */
  lemma TrimSpaceFixed(s: string)
    requires s == "" || (!IsSpace(s[0]) && !IsSpace(s[|s| - 1]))
    ensures TrimSpace(s) == s
  {
  }

  lemma TrimSpaceIdempotent(s: string)
    ensures TrimSpace(TrimSpace(s)) == TrimSpace(s)
  {
    TrimSpaceFixed(TrimSpace(s));
  }

  predicate AllSpace(s: string) {
    forall i :: 0 <= i < |s| ==> IsSpace(s[i])
  }

  /** There is more than white space in the text. */
  predicate HasText(s: string) {
    exists i :: 0 <= i < |s| && !IsSpace(s[i])
  }

  lemma {:induction false} TrimLeftRemoves(before: string, rest: string)
    requires AllSpace(before) && rest != "" && !IsSpace(rest[0])
    ensures TrimLeft(before + rest) == rest
    decreases |before|
  {
    var s := before + rest;
    if before == "" {
      assert s == rest;
    } else {
      assert s[0] == before[0] && s[1..] == before[1..] + rest;
      TrimLeftRemoves(before[1..], rest);
    }
  }

  lemma {:induction false} TrimRightRemoves(text: string, after: string)
    requires AllSpace(after) && text != "" && !IsSpace(text[|text| - 1])
    ensures TrimRight(text + after) == text
    decreases |after|
  {
    var s, n := text + after, |after| - 1;
    if after == "" {
      assert s == text;
    } else {
      assert s[|s| - 1] == after[n] && s[..|s| - 1] == text + after[..n];
      TrimRightRemoves(text, after[..n]);
    }
  }

  /** Whatever white space stands before and after a text that neither starts nor ends with it, trimming removes just
      that. */
  lemma TrimSpaceRemoves(before: string, text: string, after: string)
    requires AllSpace(before) && AllSpace(after)
    requires text != "" && !IsSpace(text[0]) && !IsSpace(text[|text| - 1])
    ensures TrimSpace(before + text + after) == text
  {
    hide IsSpace, AllSpace, TrimLeft, TrimRight;
    assert before + text + after == before + (text + after);
    assert (text + after)[0] == text[0];
    TrimLeftRemoves(before, text + after);
    TrimRightRemoves(text, after);
  }

  // ----- strings.HasPrefix, strings.TrimPrefix -----

  predicate HasPrefix(s: string, prefix: string) {
    prefix <= s
  }

  function TrimPrefix(s: string, prefix: string): string {
    if HasPrefix(s, prefix) then s[|prefix|..] else s
  }

  // ----- len of a Go string: bytes of its UTF-8 encoding -----

  function Utf8Width(c: char): nat {
    if c < '\U{0080}' then 1 else if c < '\U{0800}' then 2 else if c <= '\U{FFFF}' then 3 else 4
  }

  function ByteLength(s: string): nat {
    if s == "" then 0 else Utf8Width(s[0]) + ByteLength(s[1..])
  }

  /** How many characters stand at or above a code point. */
  function CountFrom(s: string, low: int): nat {
    if s == "" then 0 else (if s[0] as int >= low then 1 else 0) + CountFrom(s[1..], low)
  }

  /** Every character takes one byte, and one more each from 2^7, 2^11 and 2^16 on (section 3 of RFC 3629). */
  lemma {:induction false} ByteLengthExactly(s: string)
    ensures ByteLength(s) == |s| + CountFrom(s, 128) + CountFrom(s, 2_048) + CountFrom(s, 65_536)
  {
    if s != "" { ByteLengthExactly(s[1..]); }
  }

  /** Appending to a fixed prefix is injective. */
  lemma ConcatInjective(prefix: string, s: string, t: string)
    requires prefix + s == prefix + t
    ensures s == t
  {
    assert (prefix + s)[|prefix|..] == s;
    assert (prefix + t)[|prefix|..] == t;
  }
}
