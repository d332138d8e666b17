/** The line file of consumed nonces (internal/approvalauthority/handler.go): what a restart reads back
    from what earlier lives of the Authority appended. */
module NonceFile {
  import opened Text

  /** The longest line bufio.Scanner returns: its buffer holds 65536 bytes including the line break. */
  const MAX_LINE := 65535

  datatype Loaded = Loaded(nonces: set<string>, ok: bool)

  /** Where the first line ends: the index of its line break, or the end of the text. */
  function LineEnd(text: string): (n: nat)
    ensures n <= |text|
    ensures n < |text| ==> text[n] == '\n'
    ensures '\n' !in text[..n]
  {
    if text == "" || text[0] == '\n' then 0
    else
      var n := 1 + LineEnd(text[1..]);
      assert text[..n] == [text[0]] + text[1..][..n - 1];
      n
  }

  function AfterLine(text: string): (rest: string)
    requires text != ""
    ensures |rest| < |text|
  {
    var n := LineEnd(text);
    if n == |text| then "" else text[n + 1..]
  }

  /** The nonce on a line, if it holds more than white space. Trimming also removes a trailing
      carriage return, which the scanner drops. */
  function LineNonces(line: string): set<string> {
    var nonce := TrimSpace(line);
    if nonce == "" then {} else {nonce}
  }

  /** Reading stops with an error at the first line that is too long; the lines before it are kept. */
  function Load(text: string): Loaded
    decreases |text|
  {
    if text == "" then Loaded({}, true)
    else if LineEnd(text) > MAX_LINE then Loaded({}, false)
    else
      var rest := Load(AfterLine(text));
      Loaded(LineNonces(text[..LineEnd(text)]) + rest.nonces, rest.ok)
  }

  /** The scanner loop: reads line by line into the in-memory set. */
  method LoadUsedNonces(text: string) returns (used: set<string>, ok: bool)
    ensures Loaded(used, ok) == Load(text)
  {
    used, ok := {}, true;
    var rest := text;
    while rest != ""
      invariant ok
      invariant Load(text) == Loaded(used + Load(rest).nonces, Load(rest).ok)
      decreases |rest|
    {
      LoadFirst(rest);
      var n := LineEnd(rest);
      if n > MAX_LINE {
        ok := false;
        return;
      }
      var nonce := TrimSpace(rest[..n]);
      if nonce != "" { used := used + {nonce}; }
      rest := AfterLine(rest);
    }
  }

  /** A nonce as the Authority issues it: non-empty, without white space, and short enough for a line
      (32 hexadecimal digits in fact). */
  predicate Writable(nonce: string) {
    nonce != "" && |nonce| <= MAX_LINE && forall i :: 0 <= i < |nonce| ==> !IsSpace(nonce[i])
  }

  predicate IsNonce(nonce: string) {
    |nonce| == 32 && forall i :: 0 <= i < |nonce| ==> '0' <= nonce[i] <= '9' || 'a' <= nonce[i] <= 'f'
  }

  lemma NonceWritable(nonce: string)
    requires IsNonce(nonce)
    ensures Writable(nonce)
  {
  }

  /** The text ends with a line break, or is empty: no unfinished line. */
  predicate Complete(text: string) {
    text == "" || text[|text| - 1] == '\n'
  }

  function Appended(text: string, nonce: string): string {
    text + nonce + "\n"
  }

  function Print(nonces: seq<string>): string {
    if nonces == [] then "" else Appended(Print(nonces[..|nonces| - 1]), nonces[|nonces| - 1])
  }

  lemma {:induction false} LineEndUnique(text: string, n: nat)
    requires n <= |text| && '\n' !in text[..n] && (n < |text| ==> text[n] == '\n')
    ensures LineEnd(text) == n
  {
    var e := LineEnd(text);
    assert forall i :: 0 <= i < n ==> text[i] == text[..n][i];
    assert forall i :: 0 <= i < e ==> text[i] == text[..e][i];
  }

  /** A single finished line holding a nonce. */
  lemma LoadLine(nonce: string)
    requires Writable(nonce)
    ensures Load(nonce + "\n") == Loaded({nonce}, true)
  {
    var text := nonce + "\n";
    assert text[..|nonce|] == nonce;
    LineEndUnique(text, |nonce|);
    assert AfterLine(text) == "";
    TrimSpaceFixed(nonce);
  }

  /** The longest line that can be read back. */
  lemma LineLimit(line: string)
    requires '\n' !in line
    ensures Load(line + "\n").ok <==> |line| <= 65_535
  {
    var text := line + "\n";
    assert text[..|line|] == line;
    LineEndUnique(text, |line|);
    assert AfterLine(text) == "";
  }

  /** A text of finished lines has a line break. */
  lemma FirstLineFinished(text: string)
    requires text != "" && Complete(text)
    ensures LineEnd(text) < |text|
  {
    hide LineEnd;
    var n := LineEnd(text);
    assert forall i :: 0 <= i < n ==> text[i] == text[..n][i];
  }

  /** The first line of a text with finished lines is not affected by what is appended. */
  lemma FirstLineKept(text: string, more: string)
    requires text != "" && Complete(text)
    ensures LineEnd(text) < |text| && LineEnd(text + more) == LineEnd(text)
    ensures (text + more)[..LineEnd(text)] == text[..LineEnd(text)]
    ensures AfterLine(text + more) == AfterLine(text) + more
    ensures Complete(AfterLine(text))
  {
    hide LineEnd;
    var n := LineEnd(text);
    FirstLineFinished(text);
    assert (text + more)[..n] == text[..n];
    LineEndUnique(text + more, n);
    assert (text + more)[n + 1..] == text[n + 1..] + more;
  }

  lemma LoadFirst(text: string)
    requires text != ""
    ensures Load(text) ==
      if LineEnd(text) > MAX_LINE then Loaded({}, false)
      else Loaded(LineNonces(text[..LineEnd(text)]) + Load(AfterLine(text)).nonces, Load(AfterLine(text)).ok)
  {
  }

  lemma LoadNothing()
    ensures Load("") == Loaded({}, true)
  {
  }

  /** Loading two finished pieces one after the other. */
  lemma {:induction false} LoadConcat(text: string, more: string)
    requires Complete(text) && Load(text).ok
    ensures Load(text + more) == Loaded(Load(text).nonces + Load(more).nonces, Load(more).ok)
    decreases |text|
  {
    hide Load, LineEnd, AfterLine, LineNonces, Complete;
    if text == "" {
      LoadNothing();
      assert text + more == more;
    } else {
      var first, rest := LineNonces(text[..LineEnd(text)]), AfterLine(text);
      FirstLineKept(text, more);
      LoadFirst(text);
      LoadFirst(text + more);
      LoadConcat(rest, more);
      assert (first + Load(rest).nonces) + Load(more).nonces == first + (Load(rest).nonces + Load(more).nonces);
    }
  }

  /** Appending one line adds exactly that nonce, and leaves the file loadable and finished. */
  lemma AppendAddsOne(text: string, nonce: string)
    requires Complete(text) && Load(text).ok && Writable(nonce)
    ensures Complete(Appended(text, nonce))
    ensures Load(Appended(text, nonce)) == Loaded(Load(text).nonces + {nonce}, true)
  {
    hide Load, Writable;
    var line := nonce + "\n";
    assert Appended(text, nonce) == text + line;
    LoadLine(nonce);
    LoadConcat(text, line);
  }

  lemma AppendToList(front: seq<string>, last: string)
    ensures Print(front + [last]) == Appended(Print(front), last)
    ensures (set n | n in front + [last]) == (set n | n in front) + {last}
  {
    assert (front + [last])[..|front|] == front;
  }

  /** Loading the file printed from any list of nonces gives exactly that set. */
  lemma {:induction false} LoadPrinted(nonces: seq<string>)
    requires forall n :: n in nonces ==> Writable(n)
    ensures Complete(Print(nonces))
    ensures Load(Print(nonces)) == Loaded(set n | n in nonces, true)
    decreases |nonces|
  {
    if nonces != [] {
      var front, last := nonces[..|nonces| - 1], nonces[|nonces| - 1];
      assert nonces == front + [last];
      LoadPrinted(front);
      var text := Print(front);
      AppendToList(front, last);
      AppendAddsOne(text, last);
    }
  }

  /** Only finished texts have this property: after an unfinished line the appended nonce is not found
      as written, because it runs on from the unfinished line. */
  lemma UnfinishedLineSwallows(partial: string, nonce: string)
    requires Writable(partial) && Writable(nonce) && |partial| + |nonce| <= MAX_LINE
    ensures Load(Appended(partial, nonce)) == Loaded({partial + nonce}, true)
    ensures nonce !in Load(Appended(partial, nonce)).nonces
  {
    assert Appended(partial, nonce) == (partial + nonce) + "\n";
    LoadLine(partial + nonce);
  }
}
