/** Canonical argument hashing (internal/approvalauthority/handler.go): arguments arrive as JSON text,
    are decoded into generic values, and are re-encoded with sorted object keys before hashing. */
module CanonicalJson {
  import opened Text
  import opened DoublePrecision

  /** A JSON value. Objects are unordered mappings; numbers are integers. */
  datatype Json =
    | Null
    | Bool(flag: bool)
    | Number(number: int)
    | Str(text: string)
    | Arr(items: seq<Json>)
    | Obj(fields: map<string, Json>)

  /** JSON as it was sent: object fields in the sender's order, a repeated name allowed. */
  datatype Sent =
    | SentNull
    | SentBool(flag: bool)
    | SentNumber(number: int)
    | SentText(text: string)
    | SentArr(elements: seq<Sent>)
    | SentObj(members: seq<Member>)

  datatype Member = Member(name: string, value: Sent)

  /** SHA-256 as an ideal function: equal digests come from equal texts only. */
  datatype Digest = Sha256(text: string)

  // ----- Decoding: a later field of the same name replaces an earlier one; numbers as written -----

  function Decode(sent: Sent): Json
    decreases sent, 1
  {
    match sent
    case SentNull => Null
    case SentBool(flag) => Bool(flag)
    case SentNumber(number) => Number(number)
    case SentText(text) => Str(text)
    case SentArr(elements) => Arr(DecodeItems(elements))
    case SentObj(members) => Obj(DecodeFields(members))
  }

  function DecodeItems(elements: seq<Sent>): (items: seq<Json>)
    ensures |items| == |elements|
    decreases elements, 0
  {
    if elements == [] then [] else [Decode(elements[0])] + DecodeItems(elements[1..])
  }

  function DecodeFields(members: seq<Member>): map<string, Json>
    decreases members, 0
  {
    if members == [] then map[]
    else
      var last := members[|members| - 1];
      assert last in members;
      DecodeFields(members[..|members| - 1])[last.name := Decode(last.value)]
  }

  // ----- The order of object keys: bytewise, which for UTF-8 is by code point -----

  predicate Less(a: string, b: string) {
    b != "" && (a == "" || a[0] < b[0] || (a[0] == b[0] && Less(a[1..], b[1..])))
  }

  lemma {:induction false} LessTotal(a: string, b: string)
    ensures a == b || Less(a, b) || Less(b, a)
    ensures Less(a, b) ==> a != b && !Less(b, a)
  {
    if a != "" && b != "" && a[0] == b[0] {
      LessTotal(a[1..], b[1..]);
      assert a == [a[0]] + a[1..] && b == [b[0]] + b[1..];
    }
  }

  lemma {:induction false} LessTransitive(a: string, b: string, c: string)
    requires Less(a, b) && Less(b, c)
    ensures Less(a, c)
  {
    if a != "" && a[0] == b[0] == c[0] {
      LessTransitive(a[1..], b[1..], c[1..]);
    }
  }

  predicate Least(k: string, keys: set<string>) {
    k in keys && forall other :: other in keys && other != k ==> Less(k, other)
  }

  lemma {:induction false} LeastExists(keys: set<string>)
    requires keys != {}
    ensures exists k :: Least(k, keys)
  {
    var k :| k in keys;
    var rest := keys - {k};
    if rest == {} {
      assert keys == {k};
      assert Least(k, keys);
    } else {
      LeastExists(rest);
      var m :| Least(m, rest);
      LessTotal(k, m);
      if Less(k, m) {
        forall other | other in keys && other != k ensures Less(k, other) {
          if other != m { LessTransitive(k, m, other); }
        }
        assert Least(k, keys);
      } else {
        assert Least(m, keys);
      }
    }
  }

  lemma LeastUnique(keys: set<string>)
    ensures forall k, l :: Least(k, keys) && Least(l, keys) ==> k == l
  {
    forall k, l | Least(k, keys) && Least(l, keys) ensures k == l {
      LessTotal(k, l);
    }
  }

  function SortedKeys(keys: set<string>): (order: seq<string>)
    ensures forall k :: k in order <==> k in keys
    ensures |order| == |keys|
  {
    if keys == {} then []
    else
      LeastExists(keys);
      LeastUnique(keys);
      var k :| k in keys && Least(k, keys);
      [k] + SortedKeys(keys - {k})
  }

  /** The keys come in their order. */
  lemma {:induction false} SortedKeysSorted(keys: set<string>)
    ensures forall i, j :: 0 <= i < j < |SortedKeys(keys)| ==> Less(SortedKeys(keys)[i], SortedKeys(keys)[j])
  {
    if keys != {} {
      var order := SortedKeys(keys);
      var k := order[0];
      LeastUnique(keys);
      assert Least(k, keys) && order[1..] == SortedKeys(keys - {k});
      SortedKeysSorted(keys - {k});
      forall i, j | 0 <= i < j < |order| ensures Less(order[i], order[j]) {
        assert order[j] == order[1..][j - 1] && order[1..][j - 1] in keys - {k};
        if i > 0 { assert order[i] == order[1..][i - 1]; }
      }
    }
  }

  // ----- Encoding (encoding/json with HTML escaping) -----

  function HexDigit(d: nat): char
    requires d < 16
  {
    "0123456789abcdef"[d]
  }

  function FourHex(n: nat): string
    requires n < 0x10000
  {
    [HexDigit(n / 4096), HexDigit(n / 256 % 16), HexDigit(n / 16 % 16), HexDigit(n % 16)]
  }

  function UnicodeEscape(c: char): string
    requires c as int < 0x10000
  {
    "\\u" + FourHex(c as nat)
  }

  function EscapeChar(c: char): (s: string)
    ensures |s| > 0 && s[0] != '"'
  {
    if c == '"' || c == '\\' then ['\\', c]
    else if c == '\n' then "\\n"
    else if c == '\r' then "\\r"
    else if c == '\t' then "\\t"
    else if c == '\U{0008}' then "\\b"
    else if c == '\U{000C}' then "\\f"
    else if c < ' ' || c in {'<', '>', '&', '\U{2028}', '\U{2029}'} then UnicodeEscape(c)
    else [c]
  }

  /** What may follow a value inside a larger text. */
  predicate Stop(rest: string) {
    rest == "" || rest[0] in {',', ']', '}'}
  }

  // Each encoder takes the text that follows the value, so that a whole document is built from its end.

  /** The characters of a string literal, its closing quote, and what follows. */
  function EncodeText(s: string, rest: string): (t: string)
    ensures t != ""
  {
    if s == "" then ['"'] + rest else EscapeChar(s[0]) + EncodeText(s[1..], rest)
  }

  function Signed(minus: bool, digits: string): string {
    if minus then ['-'] + digits else digits
  }

  function EncodeNumber(n: int): (s: string)
    ensures |s| > 0 && (s[0] == '-' || '0' <= s[0] <= '9')
  {
    Signed(n < 0, Decimal(Abs(n)))
  }

  function EncodeThen(v: Json, rest: string): (s: string)
    ensures s != "" && s[0] == FirstChar(v)
    decreases v, 1
  {
    match v
    case Null => "null" + rest
    case Bool(flag) => if flag then "true" + rest else "false" + rest
    case Number(n) => EncodeNumber(n) + rest
    case Str(text) => ['"'] + EncodeText(text, rest)
    case Arr(items) => ['['] + EncodeItems(items, rest)
    case Obj(fields) => ['{'] + EncodeFields(v, SortedKeys(fields.Keys), rest)
  }

  function FirstChar(v: Json): (c: char)
    ensures c !in {',', ']', '}'}
  {
    match v
    case Null => 'n'
    case Bool(flag) => if flag then 't' else 'f'
    case Number(n) => EncodeNumber(n)[0]
    case Str(_) => '"'
    case Arr(_) => '['
    case Obj(_) => '{'
  }

  /** The elements separated by commas, the closing bracket, and what follows. */
  function EncodeItems(items: seq<Json>, rest: string): string
    decreases items, 0, 0
  {
    if items == [] then [']'] + rest
    else EncodeThen(items[0], if |items| == 1 then [']'] + rest else [','] + EncodeItems(items[1..], rest))
  }

  /** The fields named by `order` separated by commas, the closing brace, and what follows. */
  function EncodeFields(v: Json, order: seq<string>, rest: string): (t: string)
    requires v.Obj? && forall k :: k in order ==> k in v.fields
    ensures t != "" && (t[0] == '}' <==> order == []) && t[0] in {'}', '"'}
    decreases v, 0, |order|, 0
  {
    if order == [] then ['}'] + rest
    else ['"'] + EncodeText(order[0], [':'] + EncodeThen(v.fields[order[0]], FieldsTail(v, order[1..], rest)))
  }

  /** What follows a field: the closing brace, or a comma and the remaining fields. */
  function FieldsTail(v: Json, order: seq<string>, rest: string): (t: string)
    requires v.Obj? && forall k :: k in order ==> k in v.fields
    ensures Stop(t) && t != "" && (t[0] == '}' <==> order == [])
    decreases v, 0, |order|, 1
  {
    if order == [] then ['}'] + rest else [','] + EncodeFields(v, order, rest)
  }

  function Encode(v: Json): string {
    EncodeThen(v, "")
  }

  function HashArguments(arguments: Json): Digest {
    Sha256(Encode(arguments))
  }

  // ----- The encoding is injective: it can be read back -----

  lemma Cut(x: string, a: string, y: string, b: string)
    requires x + a == y + b && |x| == |y|
    ensures x == y && a == b
  {
    assert (x + a)[..|x|] == x && (y + b)[..|y|] == y;
    assert (x + a)[|x|..] == a && (y + b)[|y|..] == b;
  }

  lemma CutOne(c: char, a: string, d: char, b: string)
    requires [c] + a == [d] + b
    ensures c == d && a == b
  {
    Cut([c], a, [d], b);
    assert [c][0] == [d][0];
  }

  lemma HexDigitInjective(i: nat, j: nat)
    requires i < 16 && j < 16 && HexDigit(i) == HexDigit(j)
    ensures i == j
  {
  }

  lemma FourHexDigits(n: nat)
    requires n < 0x10000
    ensures n == 4096 * (n / 4096) + 256 * (n / 256 % 16) + 16 * (n / 16 % 16) + n % 16
  {
    assert n / 4096 == n / 256 / 16 && n / 256 == n / 16 / 16;
  }

  lemma HexSame(m: nat, n: nat)
    requires m < 0x10000 && n < 0x10000 && FourHex(m) == FourHex(n)
    ensures m / 4096 == n / 4096 && m / 256 % 16 == n / 256 % 16 && m / 16 % 16 == n / 16 % 16 && m % 16 == n % 16
  {
    var x, y := FourHex(m), FourHex(n);
    assert x[0] == y[0] && x[1] == y[1] && x[2] == y[2] && x[3] == y[3];
    HexDigitInjective(m / 4096, n / 4096);
    HexDigitInjective(m / 256 % 16, n / 256 % 16);
    HexDigitInjective(m / 16 % 16, n / 16 % 16);
    HexDigitInjective(m % 16, n % 16);
  }

  lemma HexInjective(c: char, d: char)
    requires c as int < 0x10000 && d as int < 0x10000
    requires UnicodeEscape(c) == UnicodeEscape(d)
    ensures c == d
  {
    var m, n := c as nat, d as nat;
    Cut("\\u", FourHex(m), "\\u", FourHex(n));
    HexSame(m, n);
    FourHexDigits(m);
    FourHexDigits(n);
  }

  lemma EscapeCharPrefix(c: char, r: string, d: char, q: string)
    requires EscapeChar(c) + r == EscapeChar(d) + q
    ensures c == d && r == q
  {
    var x, y := EscapeChar(c), EscapeChar(d);
    assert (x + r)[0] == x[0] && (y + q)[0] == y[0];
    assert |x| > 1 && |y| > 1 ==> (x + r)[1] == x[1] && (y + q)[1] == y[1];
    assert |x| == |y|;
    Cut(x, r, y, q);
    if |x| == 6 { HexInjective(c, d); }
  }

  lemma {:induction false} TextPrefix(s: string, r: string, t: string, q: string)
    requires EncodeText(s, r) == EncodeText(t, q)
    ensures s == t && r == q
    decreases |s|
  {
    assert (s == "") == (EncodeText(s, r)[0] == '"');
    assert (t == "") == (EncodeText(t, q)[0] == '"');
    if s == "" {
      CutOne('"', r, '"', q);
    } else {
      EscapeCharPrefix(s[0], EncodeText(s[1..], r), t[0], EncodeText(t[1..], q));
      TextPrefix(s[1..], r, t[1..], q);
      assert s == [s[0]] + s[1..] && t == [t[0]] + t[1..];
    }
  }

  /** Two digit runs that end where no digit follows are the same run. */
  lemma {:induction false} DigitsPrefix(a: string, r: string, b: string, q: string)
    requires a + r == b + q && Stop(r) && Stop(q)
    requires forall i :: 0 <= i < |a| ==> '0' <= a[i] <= '9'
    requires forall i :: 0 <= i < |b| ==> '0' <= b[i] <= '9'
    ensures a == b && r == q
    decreases |a|
  {
    assert a == "" ==> a + r == r;
    assert b == "" ==> b + q == q;
    assert a != "" ==> (a + r)[0] == a[0];
    assert b != "" ==> (b + q)[0] == b[0];
    if a != "" {
      assert a + r == [a[0]] + (a[1..] + r) && b + q == [b[0]] + (b[1..] + q);
      CutOne(a[0], a[1..] + r, b[0], b[1..] + q);
      DigitsPrefix(a[1..], r, b[1..], q);
      assert a == [a[0]] + a[1..] && b == [b[0]] + b[1..];
    }
  }

  lemma SignedThen(minus: bool, a: string, r: string)
    requires a != "" && a[0] != '-'
    ensures (Signed(minus, a) + r)[0] == '-' <==> minus
    ensures minus ==> Signed(minus, a) + r == ['-'] + (a + r)
  {
    if !minus { assert (a + r)[0] == a[0]; }
  }

  lemma SignedPrefix(minus: bool, a: string, r: string, minus': bool, b: string, q: string)
    requires Signed(minus, a) + r == Signed(minus', b) + q && Stop(r) && Stop(q)
    requires a != "" && forall i :: 0 <= i < |a| ==> '0' <= a[i] <= '9'
    requires b != "" && forall i :: 0 <= i < |b| ==> '0' <= b[i] <= '9'
    ensures minus == minus' && a == b && r == q
  {
    SignedThen(minus, a, r);
    SignedThen(minus', b, q);
    if minus {
      CutOne('-', a + r, '-', b + q);
    }
    DigitsPrefix(a, r, b, q);
  }

  lemma NumberPrefix(m: int, r: string, n: int, q: string)
    requires EncodeNumber(m) + r == EncodeNumber(n) + q && Stop(r) && Stop(q)
    ensures m == n && r == q
  {
    SignedPrefix(m < 0, Decimal(Abs(m)), r, n < 0, Decimal(Abs(n)), q);
    DecimalInjective(Abs(m), Abs(n));
  }

  /** A value can be told apart from what follows it. */
  lemma {:induction false} ValuePrefix(v: Json, r: string, w: Json, q: string)
    requires EncodeThen(v, r) == EncodeThen(w, q) && Stop(r) && Stop(q)
    ensures v == w && r == q
    decreases v, 1
  {
    match v
    case Null => Cut("null", r, "null", q);
    case Bool(flag) =>
      if flag { Cut("true", r, "true", q); } else { Cut("false", r, "false", q); }
    case Number(n) => NumberPrefix(n, r, w.number, q);
    case Str(text) =>
      CutOne('"', EncodeText(text, r), '"', EncodeText(w.text, q));
      TextPrefix(text, r, w.text, q);
    case Arr(items) =>
      CutOne('[', EncodeItems(items, r), '[', EncodeItems(w.items, q));
      ItemsPrefix(items, r, w.items, q);
    case Obj(fields) =>
      var a, b := SortedKeys(fields.Keys), SortedKeys(w.fields.Keys);
      CutOne('{', EncodeFields(v, a, r), '{', EncodeFields(w, b, q));
      FieldsPrefix(v, a, r, w, b, q);
      SameFields(fields, a, w.fields, b);
  }

  lemma SameFields(f: map<string, Json>, a: seq<string>, g: map<string, Json>, b: seq<string>)
    requires (forall k :: k in a <==> k in f) && (forall k :: k in b <==> k in g)
    requires a == b && forall k :: k in a ==> f[k] == g[k]
    ensures f == g
  {
    assert forall k :: k in f <==> k in g;
  }

  lemma {:induction false} ItemsPrefix(items: seq<Json>, r: string, others: seq<Json>, q: string)
    requires EncodeItems(items, r) == EncodeItems(others, q)
    ensures items == others && r == q
    decreases items, 0
  {
    assert (items == []) == (EncodeItems(items, r)[0] == ']');
    assert (others == []) == (EncodeItems(others, q)[0] == ']');
    if items == [] {
      CutOne(']', r, ']', q);
    } else {
      var r' := if |items| == 1 then [']'] + r else [','] + EncodeItems(items[1..], r);
      var q' := if |others| == 1 then [']'] + q else [','] + EncodeItems(others[1..], q);
      ValuePrefix(items[0], r', others[0], q');
      assert (|items| == 1) == (r'[0] == ']') && (|others| == 1) == (q'[0] == ']');
      if |items| == 1 {
        CutOne(']', r, ']', q);
      } else {
        CutOne(',', EncodeItems(items[1..], r), ',', EncodeItems(others[1..], q));
        ItemsPrefix(items[1..], r, others[1..], q);
      }
      assert items == [items[0]] + items[1..] && others == [others[0]] + others[1..];
    }
  }

  /** One field: its name, its value, and what follows. */
  lemma FieldPrefix(k: string, x: Json, r: string, l: string, y: Json, q: string)
    requires ['"'] + EncodeText(k, [':'] + EncodeThen(x, r)) == ['"'] + EncodeText(l, [':'] + EncodeThen(y, q))
    requires Stop(r) && Stop(q)
    ensures k == l && x == y && r == q
    decreases x, 2
  {
    var u, w := [':'] + EncodeThen(x, r), [':'] + EncodeThen(y, q);
    CutOne('"', EncodeText(k, u), '"', EncodeText(l, w));
    TextPrefix(k, u, l, w);
    CutOne(':', EncodeThen(x, r), ':', EncodeThen(y, q));
    ValuePrefix(x, r, y, q);
  }

  lemma {:induction false} FieldsPrefix(v: Json, a: seq<string>, r: string, w: Json, b: seq<string>, q: string)
    requires v.Obj? && w.Obj?
    requires (forall k :: k in a ==> k in v.fields) && (forall k :: k in b ==> k in w.fields)
    requires EncodeFields(v, a, r) == EncodeFields(w, b, q)
    ensures a == b && r == q && forall k :: k in a ==> v.fields[k] == w.fields[k]
    decreases v, 0, |a|, 0
  {
    if a == [] {
      CutOne('}', r, '}', q);
    } else {
      FieldPrefix(a[0], v.fields[a[0]], FieldsTail(v, a[1..], r), b[0], w.fields[b[0]], FieldsTail(w, b[1..], q));
      FieldsTailPrefix(v, a[1..], r, w, b[1..], q);
      assert a == [a[0]] + a[1..] && b == [b[0]] + b[1..];
    }
  }

  lemma FieldsTailPrefix(v: Json, a: seq<string>, r: string, w: Json, b: seq<string>, q: string)
    requires v.Obj? && w.Obj?
    requires (forall k :: k in a ==> k in v.fields) && (forall k :: k in b ==> k in w.fields)
    requires FieldsTail(v, a, r) == FieldsTail(w, b, q)
    ensures a == b && r == q && forall k :: k in a ==> v.fields[k] == w.fields[k]
    decreases v, 0, |a|, 1
  {
    if a == [] {
      CutOne('}', r, '}', q);
    } else {
      CutOne(',', EncodeFields(v, a, r), ',', EncodeFields(w, b, q));
      FieldsPrefix(v, a, r, w, b, q);
    }
  }

  /** Digests of arguments agree exactly when the arguments agree. */
  lemma HashDecidesArguments(a: Json, b: Json)
    ensures HashArguments(a) == HashArguments(b) <==> a == b
  {
    if HashArguments(a) == HashArguments(b) {
      ValuePrefix(a, "", b, "");
    }
  }

  // ----- The sender's field order does not matter -----

  predicate DistinctNames(members: seq<Member>) {
    forall i, j :: 0 <= i < j < |members| ==> members[i].name != members[j].name
  }

  /** Of fields with one name the last counts. */
  lemma {:induction false} DecodedField(members: seq<Member>, i: nat)
    requires i < |members| && forall j :: i < j < |members| ==> members[j].name != members[i].name
    ensures members[i].name in DecodeFields(members)
    ensures DecodeFields(members)[members[i].name] == Decode(members[i].value)
  {
    if i < |members| - 1 {
      DecodedField(members[..|members| - 1], i);
    }
  }

  lemma {:induction false} DecodedNames(members: seq<Member>, name: string)
    requires name in DecodeFields(members)
    ensures exists i :: 0 <= i < |members| && members[i].name == name
  {
    var last := |members| - 1;
    if members[last].name != name {
      DecodedNames(members[..last], name);
      var i :| 0 <= i < last && members[..last][i].name == name;
      assert members[i].name == name;
    }
  }

  /** The same value sent with the fields of any of its objects, at any depth, in another order. */
  ghost predicate SameSent(a: Sent, b: Sent)
    decreases a, 0
  {
    a == b
    || (a.SentArr? && b.SentArr? && |a.elements| == |b.elements|
        && forall i :: 0 <= i < |a.elements| ==> SameSent(a.elements[i], b.elements[i]))
    || (a.SentObj? && b.SentObj? && DistinctNames(a.members) && DistinctNames(b.members)
        && (forall i :: 0 <= i < |a.members| ==> HasLike(a.members[i].name, a.members[i].value, b.members))
        && forall j :: 0 <= j < |b.members| ==> HasName(b.members[j].name, a.members))
  }

  /** A field of this name whose value is the same up to the order of fields. */
  ghost predicate HasLike(name: string, value: Sent, members: seq<Member>)
    decreases value, 1
  {
    exists j :: 0 <= j < |members| && members[j].name == name && SameSent(value, members[j].value)
  }

  predicate HasName(name: string, members: seq<Member>) {
    exists i :: 0 <= i < |members| && members[i].name == name
  }

  lemma {:induction false} SameItems(a: seq<Sent>, b: seq<Sent>)
    requires |a| == |b| && forall i :: 0 <= i < |a| ==> Decode(a[i]) == Decode(b[i])
    ensures DecodeItems(a) == DecodeItems(b)
  {
    if a != [] { SameItems(a[1..], b[1..]); }
  }

  /** Issuer and consumer may send the fields in different orders, at every depth: both are decoded to the same
      value. */
  lemma {:induction false} SameSentDecodes(a: Sent, b: Sent)
    requires SameSent(a, b)
    ensures Decode(a) == Decode(b)
    decreases a
  {
    if a == b {
    } else if a.SentArr? {
      forall i | 0 <= i < |a.elements| ensures Decode(a.elements[i]) == Decode(b.elements[i]) {
        SameSentDecodes(a.elements[i], b.elements[i]);
      }
      SameItems(a.elements, b.elements);
    } else {
      var f, g := DecodeFields(a.members), DecodeFields(b.members);
      forall k | k in f ensures k in g && f[k] == g[k] {
        DecodedNames(a.members, k);
        var i :| 0 <= i < |a.members| && a.members[i].name == k;
        assert HasLike(a.members[i].name, a.members[i].value, b.members);
        var j :| 0 <= j < |b.members| && b.members[j].name == k && SameSent(a.members[i].value, b.members[j].value);
        SameSentDecodes(a.members[i].value, b.members[j].value);
        DecodedField(a.members, i);
        DecodedField(b.members, j);
      }
      forall k | k in g ensures k in f {
        DecodedNames(b.members, k);
        var j :| 0 <= j < |b.members| && b.members[j].name == k;
        assert HasName(b.members[j].name, a.members);
        var i :| 0 <= i < |a.members| && a.members[i].name == k;
        DecodedField(a.members, i);
      }
      assert f == g;
    }
  }

  /** Their digests agree. */
  lemma FieldOrderIrrelevant(a: Sent, b: Sent)
    requires SameSent(a, b)
    ensures HashArguments(Received(Decode(a))) == HashArguments(Received(Decode(b)))
  {
    SameSentDecodes(a, b);
  }

  // ----- Numbers: decoded into generic values they are rounded to double precision -----

  /** What the Authority has after decoding: the value as written with every number rounded. */
  function Received(v: Json): Json
    decreases v
  {
    match v
    case Number(n) => Number(Rounded(n))
    case Arr(items) => Arr(seq(|items|, i requires 0 <= i < |items| => Received(items[i])))
    case Obj(fields) => Obj(map k | k in fields :: Received(fields[k]))
    case _ => v
  }

  /** Every number in the value is one a double can hold. */
  predicate AllExact(v: Json)
    decreases v
  {
    match v
    case Number(n) => Exact(n)
    case Arr(items) => forall i :: 0 <= i < |items| ==> AllExact(items[i])
    case Obj(fields) => forall k :: k in fields ==> AllExact(fields[k])
    case _ => true
  }

  /** Decoding keeps a value as it was written exactly when all its numbers are exact. */
  lemma {:induction false} ReceivedAsWritten(v: Json)
    ensures Received(v) == v <==> AllExact(v)
    decreases v
  {
    hide Rounded, Exact;
    match v
    case Number(n) => RoundedIsNear(n);
    case Arr(items) =>
      forall i | 0 <= i < |items| ensures Received(items[i]) == items[i] <==> AllExact(items[i]) {
        ReceivedAsWritten(items[i]);
      }
      var received := Received(v).items;
      assert |received| == |items| && forall i :: 0 <= i < |items| ==> received[i] == Received(items[i]);
      if AllExact(v) { assert received == items; }
    case Obj(fields) =>
      forall k | k in fields ensures Received(fields[k]) == fields[k] <==> AllExact(fields[k]) {
        ReceivedAsWritten(fields[k]);
      }
      var received := Received(v).fields;
      assert received.Keys == fields.Keys && forall k :: k in fields ==> received[k] == Received(fields[k]);
      if AllExact(v) { assert received == fields; }
    case _ =>
  }

  /** Two argument texts whose numbers are exact get the same digest exactly when they denote the same value. */
  lemma ExactArgumentsDecide(a: Sent, b: Sent)
    requires AllExact(Decode(a)) && AllExact(Decode(b))
    ensures HashArguments(Received(Decode(a))) == HashArguments(Received(Decode(b))) <==> Decode(a) == Decode(b)
  {
    hide HashArguments, AllExact, Received;
    ReceivedAsWritten(Decode(a));
    ReceivedAsWritten(Decode(b));
    HashDecidesArguments(Decode(a), Decode(b));
  }

  /** In general they get the same digest exactly when rounding makes them the same. */
  lemma ArgumentsDecideRounded(a: Sent, b: Sent)
    ensures HashArguments(Received(Decode(a))) == HashArguments(Received(Decode(b))) <==>
      Received(Decode(a)) == Received(Decode(b))
  {
    HashDecidesArguments(Received(Decode(a)), Received(Decode(b)));
  }

  // ----- Which arguments share their digest with no others -----

  /** Every number in the value stands for itself alone. */
  predicate AllAlone(v: Json)
    decreases v
  {
    match v
    case Number(n) => Alone(n)
    case Arr(items) => forall i :: 0 <= i < |items| ==> AllAlone(items[i])
    case Obj(fields) => forall k :: k in fields ==> AllAlone(fields[k])
    case _ => true
  }

  lemma {:induction false} AloneIsUnique(v: Json, w: Json)
    requires AllAlone(v) && Received(w) == Received(v)
    ensures w == v
    decreases v
  {
    hide Rounded, Alone;
    match v
    case Number(n) =>
      AloneExactly(n);
      assert Rounded(w.number) == Rounded(n);
    case Arr(items) =>
      assert |w.items| == |Received(w).items| == |Received(v).items| == |items|;
      forall i | 0 <= i < |items| ensures w.items[i] == items[i] {
        assert Received(w).items[i] == Received(w.items[i]) && Received(v).items[i] == Received(items[i]);
        AloneIsUnique(items[i], w.items[i]);
      }
      assert w.items == items;
    case Obj(fields) =>
      assert w.fields.Keys == Received(w).fields.Keys == Received(v).fields.Keys == fields.Keys;
      forall k | k in fields ensures k in w.fields && w.fields[k] == fields[k] {
        assert k in w.fields.Keys;
        assert Received(w).fields[k] == Received(w.fields[k]) && Received(v).fields[k] == Received(fields[k]);
        AloneIsUnique(fields[k], w.fields[k]);
      }
      assert w.fields == fields;
    case _ =>
  }

  /** Another value that is decoded alike. */
  lemma {:induction false} OtherLike(v: Json) returns (w: Json)
    requires !AllAlone(v)
    ensures w != v && Received(w) == Received(v)
    decreases v
  {
    hide Rounded, Alone, Double;
    match v
    case Number(n) =>
      DoubleCollides(n);
      w := Number(Double(n));
    case Arr(items) =>
      var i :| 0 <= i < |items| && !AllAlone(items[i]);
      var other := OtherLike(items[i]);
      w := Arr(items[i := other]);
      assert w.items[i] != items[i];
      assert Received(w).items == Received(v).items;
    case Obj(fields) =>
      var k :| k in fields && !AllAlone(fields[k]);
      var other := OtherLike(fields[k]);
      w := Obj(fields[k := other]);
      assert w.fields[k] != fields[k];
      assert Received(w).fields.Keys == Received(v).fields.Keys;
      assert Received(w).fields == Received(v).fields;
  }

  /** A way to send a value. */
  function SentOf(v: Json): Sent
    decreases v, 1
  {
    match v
    case Null => SentNull
    case Bool(flag) => SentBool(flag)
    case Number(number) => SentNumber(number)
    case Str(text) => SentText(text)
    case Arr(items) => SentArr(seq(|items|, i requires 0 <= i < |items| => SentOf(items[i])))
    case Obj(fields) => SentObj(MembersOf(v, SortedKeys(fields.Keys)))
  }

  function MembersOf(v: Json, order: seq<string>): (members: seq<Member>)
    requires v.Obj? && forall k :: k in order ==> k in v.fields
    ensures |members| == |order| && forall i :: 0 <= i < |order| ==> members[i].name == order[i]
    decreases v, 0, |order|
  {
    if order == [] then []
    else
      var last := order[|order| - 1];
      MembersOf(v, order[..|order| - 1]) + [Member(last, SentOf(v.fields[last]))]
  }

  lemma {:induction false} DecodedItems(elements: seq<Sent>, items: seq<Json>)
    requires |elements| == |items| && forall i :: 0 <= i < |items| ==> Decode(elements[i]) == items[i]
    ensures DecodeItems(elements) == items
  {
    if elements != [] { DecodedItems(elements[1..], items[1..]); }
  }

  /** Every value can be sent. */
  lemma {:induction false} SentOfDecodes(v: Json)
    ensures Decode(SentOf(v)) == v
    decreases v, 1
  {
    hide DecodeFields, MembersOf, SortedKeys, DecodeItems;
    match v
    case Arr(items) =>
      var elements := SentOf(v).elements;
      forall i | 0 <= i < |items| ensures Decode(elements[i]) == items[i] { SentOfDecodes(items[i]); }
      DecodedItems(elements, items);
    case Obj(fields) =>
      MembersDecode(v, SortedKeys(fields.Keys));
      assert forall k :: k in fields <==> k in fields.Keys;
      assert DecodeFields(MembersOf(v, SortedKeys(fields.Keys))) == fields;
    case _ =>
  }

  lemma DecodedLast(front: seq<Member>, last: Member)
    ensures DecodeFields(front + [last]) == DecodeFields(front)[last.name := Decode(last.value)]
  {
    hide Decode;
    assert (front + [last])[..|front|] == front;
  }

  lemma MembersLast(v: Json, order: seq<string>)
    requires v.Obj? && order != [] && forall k :: k in order ==> k in v.fields
    ensures var last := order[|order| - 1];
      MembersOf(v, order) == MembersOf(v, order[..|order| - 1]) + [Member(last, SentOf(v.fields[last]))]
  {
    hide SentOf;
  }

  lemma {:induction false} MembersDecode(v: Json, order: seq<string>)
    requires v.Obj? && forall k :: k in order ==> k in v.fields
    ensures var decoded := DecodeFields(MembersOf(v, order));
      (forall k :: k in decoded <==> k in order) && forall k :: k in order ==> decoded[k] == v.fields[k]
    decreases v, 0, |order|
  {
    if order == [] {
      assert MembersOf(v, order) == [];
    } else {
      hide MembersOf, DecodeFields, Decode, SentOf;
      var front, last := order[..|order| - 1], order[|order| - 1];
      MembersDecode(v, front);
      SentOfDecodes(v.fields[last]);
      MembersLast(v, order);
      DecodedLast(MembersOf(v, front), Member(last, SentOf(v.fields[last])));
      assert order == front + [last];
    }
  }

  ghost predicate OwnDigest(a: Sent) {
    forall b: Sent ::
      HashArguments(Received(Decode(b))) == HashArguments(Received(Decode(a))) ==> Decode(b) == Decode(a)
  }

  /** Whoever asks for an Approval of some arguments can tell from their numbers alone whether the Approval is good for
      no others: exactly when each is below 2^53 in size, or below 2^54 and twice an odd number. */
  lemma OwnDigestExactly(a: Sent)
    ensures OwnDigest(a) <==> AllAlone(Decode(a))
  {
    hide HashArguments, AllAlone, Received, Decode, SentOf;
    if AllAlone(Decode(a)) {
      forall b: Sent | HashArguments(Received(Decode(b))) == HashArguments(Received(Decode(a)))
        ensures Decode(b) == Decode(a)
      {
        ArgumentsDecideRounded(a, b);
        AloneIsUnique(Decode(a), Decode(b));
      }
    } else {
      var other := OtherLike(Decode(a));
      SentOfDecodes(other);
      assert HashArguments(Received(Decode(SentOf(other)))) == HashArguments(Received(Decode(a)));
    }
  }

  /** 2^53 and its successor are different arguments with one digest. */
  lemma LargeNumbersCollide()
    ensures var a, b := SentNumber(PRECISION), SentNumber(PRECISION + 1);
      Decode(a) != Decode(b) && HashArguments(Received(Decode(a))) == HashArguments(Received(Decode(b)))
  {
    hide HashArguments;
    assert Unit(PRECISION / 2) == 1;
    assert (PRECISION + 1) / 2 == PRECISION / 2;
  }
}
