/** The Approval Authority (internal/approvalauthority/handler.go): issuing exact Approvals, and consuming each
    nonce at most once across persist failures and restarts. */
module ApprovalAuthority {
  import opened Text
  import opened CanonicalJson
  import opened Instants
  import Lock = SmartLockServer
  import Token = ApprovalToken
  import opened NonceFile

  datatype Binding = Binding(subject: string, actor: string, tool: string, arguments: Json, traceId: string)

  datatype Claims = Claims(subject: string, actor: string, tool: string, argumentsHash: Digest, traceId: string,
                           expiresAt: int, nonce: string)

  const TELEGRAM_ACTOR := "telegram-agent"
  const CREATE_EVENT := "calendar.create_event"
  const UNLOCK := "smart_lock.unlock"

  // ----- What may be issued -----

  function LowerChar(c: char): char {
    if 'A' <= c <= 'Z' then (c as int + 32) as char else c
  }

  function Lower(s: string): string {
    if s == "" then "" else [LowerChar(s[0])] + Lower(s[1..])
  }

  /** Decoding into a struct with the single field device_id: names match without regard to case, unknown names
      are errors, null leaves the field alone, and the last match in key order wins. */
  function DeviceField(fields: map<string, Json>, order: seq<string>, current: string): Option<string>
    requires forall k :: k in order ==> k in fields
    decreases |order|
  {
    if order == [] then Some(current)
    else if Lower(order[0]) != "device_id" then None
    else
      match fields[order[0]]
      case Str(text) => DeviceField(fields, order[1..], text)
      case Null => DeviceField(fields, order[1..], current)
      case _ => None
  }

  predicate ValidToolBinding(binding: Binding) {
    binding.tool == CREATE_EVENT
    || (binding.tool == UNLOCK && binding.arguments.Obj?
        && DeviceField(binding.arguments.fields, SortedKeys(binding.arguments.fields.Keys), "")
           == Some(Lock.DEMO_DEVICE))
  }

  predicate ValidBinding(keyLength: nat, owner: string, binding: Binding) {
    keyLength >= 32 && binding.subject == owner && binding.actor == TELEGRAM_ACTOR && binding.traceId != ""
    && binding.arguments != Null && ValidToolBinding(binding)
  }

  // ----- What a binding for the lock may say -----

  /** "device_id", each letter small or capital. */
  predicate SpellsDevice(name: string) {
    |name| == 9 && forall i :: 0 <= i < 9 ==> name[i] in {"device_id"[i], "DEVICE_ID"[i]}
  }

  /** Every field is the device, as a text or null, and the last text names the demo door. */
  predicate NamesDemoDoor(fields: map<string, Json>) {
    (forall k :: k in fields ==> SpellsDevice(k) && (fields[k].Str? || fields[k].Null?))
    && exists k :: k in fields && fields[k] == Str("demo-front-door")
                   && forall l :: l in fields && Less(k, l) ==> fields[l].Null?
  }

  lemma LowerLength(s: string)
    ensures |Lower(s)| == |s| && forall i :: 0 <= i < |s| ==> Lower(s)[i] == LowerChar(s[i])
  {
    if s != "" { LowerLength(s[1..]); }
  }

  lemma SpellsExactly(name: string)
    ensures Lower(name) == "device_id" <==> SpellsDevice(name)
  {
    hide Lower;
    LowerLength(name);
    if SpellsDevice(name) {
      assert forall i :: 0 <= i < 9 ==> Lower(name)[i] == "device_id"[i];
    }
  }

  /** The position of the last text among the fields. */
  predicate LastText(fields: map<string, Json>, order: seq<string>, i: int)
    requires forall k :: k in order ==> k in fields
  {
    0 <= i < |order| && fields[order[i]].Str? && forall j :: i < j < |order| ==> fields[order[j]].Null?
  }

  lemma {:induction false} DeviceFieldMeans(fields: map<string, Json>, order: seq<string>, current: string)
    requires forall k :: k in order ==> k in fields
    ensures DeviceField(fields, order, current).Some? <==>
      forall k :: k in order ==> SpellsDevice(k) && (fields[k].Str? || fields[k].Null?)
    ensures (forall k :: k in order ==> fields[k].Null?) && DeviceField(fields, order, current).Some? ==>
      DeviceField(fields, order, current) == Some(current)
    ensures forall i :: LastText(fields, order, i) && DeviceField(fields, order, current).Some? ==>
      DeviceField(fields, order, current) == Some(fields[order[i]].text)
    decreases |order|
  {
    if order != [] {
      hide SpellsDevice, Lower;
      SpellsExactly(order[0]);
      var next := if fields[order[0]].Str? then fields[order[0]].text else current;
      DeviceFieldMeans(fields, order[1..], next);
      assert forall k :: k in order <==> k == order[0] || k in order[1..];
      forall i | LastText(fields, order, i) && DeviceField(fields, order, current).Some?
        ensures DeviceField(fields, order, current) == Some(fields[order[i]].text)
      {
        if i > 0 {
          assert LastText(fields, order[1..], i - 1);
        } else {
          assert forall k :: k in order[1..] ==> fields[k].Null?;
        }
      }
    }
  }

  lemma {:induction false} LastTextExists(fields: map<string, Json>, order: seq<string>) returns (i: int)
    requires forall k :: k in order ==> k in fields && (fields[k].Str? || fields[k].Null?)
    requires exists k :: k in order && fields[k].Str?
    ensures LastText(fields, order, i)
    decreases |order|
  {
    var last := |order| - 1;
    if fields[order[last]].Str? {
      i := last;
    } else {
      assert forall k :: k in order <==> k in order[..last] || k == order[last];
      i := LastTextExists(fields, order[..last]);
    }
  }

  /** Decoding into the struct gives the demo door exactly if the fields say so. */
  lemma DeviceExactly(fields: map<string, Json>)
    ensures DeviceField(fields, SortedKeys(fields.Keys), "") == Some("demo-front-door") <==> NamesDemoDoor(fields)
  {
    hide SpellsDevice, DeviceField, SortedKeys;
    var order := SortedKeys(fields.Keys);
    SortedKeysSorted(fields.Keys);
    DeviceFieldMeans(fields, order, "");
    assert forall k :: k in order <==> k in fields;
    var allGood := forall k :: k in fields ==> SpellsDevice(k) && (fields[k].Str? || fields[k].Null?);
    if allGood && exists k :: k in order && fields[k].Str? {
      var i := LastTextExists(fields, order);
      assert forall l :: l in fields && Less(order[i], l) ==> fields[l].Null? by { AfterIsNull(fields, order, i); }
      if NamesDemoDoor(fields) {
        var k :| k in fields && fields[k] == Str("demo-front-door")
          && forall l :: l in fields && Less(k, l) ==> fields[l].Null?;
        LessTotal(k, order[i]);
      }
    }
  }

  /** Behind the last text in the order of names there is only null. */
  lemma AfterIsNull(fields: map<string, Json>, order: seq<string>, i: int)
    requires (forall k :: k in order <==> k in fields) && LastText(fields, order, i)
    requires forall j, k :: 0 <= j < k < |order| ==> Less(order[j], order[k])
    ensures forall l :: l in fields && Less(order[i], l) ==> fields[l].Null?
  {
    forall l | l in fields && Less(order[i], l) ensures fields[l].Null? {
      var j :| 0 <= j < |order| && order[j] == l;
      LessTotal(order[i], l);
    }
  }

  /** What is issued: with a key of 32 bytes, to the owner through the Telegram agent, under a trace, for a calendar
      event with any arguments or for the demo door. */
  predicate Issuable(keyLength: nat, owner: string, binding: Binding) {
    keyLength >= 32 && binding.subject == owner && binding.actor == "telegram-agent" && binding.traceId != ""
    && (if binding.tool == "calendar.create_event" then binding.arguments != Null
        else binding.tool == "smart_lock.unlock" && binding.arguments.Obj? && NamesDemoDoor(binding.arguments.fields))
  }

  lemma ValidBindingExactly(keyLength: nat, owner: string, binding: Binding)
    ensures ValidBinding(keyLength, owner, binding) <==> Issuable(keyLength, owner, binding)
  {
    hide NamesDemoDoor, DeviceField;
    if binding.arguments.Obj? { DeviceExactly(binding.arguments.fields); }
  }

  function DeviceArguments(device: string): Json {
    Obj(map["device_id" := Str(device)])
  }

  /** An unlock Approval for the arguments the gateway sends names the demo device. */
  lemma UnlockNamesDemoDevice(binding: Binding, device: string)
    requires binding.tool == UNLOCK && ValidToolBinding(binding) && binding.arguments == DeviceArguments(device)
    ensures device == Lock.DEMO_DEVICE
  {
    var order := SortedKeys(binding.arguments.fields.Keys);
    assert |binding.arguments.fields.Keys| == |{"device_id"}|;
    assert order[0] in order;
    assert order == ["device_id"];
    assert DeviceField(binding.arguments.fields, order[1..], device) == Some(device);
  }

  // ----- Claims and their match -----

  function ClaimsFor(binding: Binding, now: int, ttl: int, nonce: string): Claims {
    Claims(binding.subject, binding.actor, binding.tool, HashArguments(binding.arguments), binding.traceId,
           Token.ExpiresAt(now, ttl), nonce)
  }

  predicate SameBinding(claims: Claims, binding: Binding) {
    claims.subject == binding.subject && claims.actor == binding.actor && claims.tool == binding.tool
    && claims.traceId == binding.traceId && claims.argumentsHash == HashArguments(binding.arguments)
  }

  predicate Matches(claims: Claims, binding: Binding, now: int) {
    SameBinding(claims, binding) && Token.Unexpired(now, claims.expiresAt)
  }

  /** An Approval matches the binding it was issued for and no other, however many fields are compared by digest. */
  lemma ExactMatch(issued: Binding, now: int, ttl: int, nonce: string, presented: Binding)
    ensures SameBinding(ClaimsFor(issued, now, ttl, nonce), presented) <==> issued == presented
  {
    HashDecidesArguments(issued.arguments, presented.arguments);
  }

  // ----- Nonce state -----

  /** `used` and `stateErr` in memory, and the text of the state file. */
  datatype NonceState = NonceState(used: set<string>, failed: bool, text: string)

  /** How an append ends. A failure may be reported although the whole line was written. */
  datatype Append = Written | WrittenWithError | NotWritten

  datatype Verdict = Accepted | Replayed | Refused | Unavailable | Malformed

  function Commit(state: NonceState, nonce: string, append: Append): (NonceState, Verdict) {
    if state.failed then (state, Unavailable)
    else if nonce in state.used then (state, Replayed)
    else
      match append
      case Written => (NonceState(state.used + {nonce}, false, Appended(state.text, nonce)), Accepted)
      case WrittenWithError => (state.(failed := true, text := Appended(state.text, nonce)), Unavailable)
      case NotWritten => (state.(failed := true), Unavailable)
  }

  /** A whole consumption, for a token that opens to the given claims or to none. */
  function Consuming(state: NonceState, token: string, claims: Option<Claims>, binding: Binding, now: int,
                     append: Append):
    (NonceState, Verdict)
  {
    if state.failed then (state, Unavailable)
    else if token == "" then (state, Malformed)
    else if claims.Some? && Matches(claims.value, binding, now) then Commit(state, claims.value.nonce, append)
    else (state, Refused)
  }

  function Restart(text: string, readable: bool): NonceState {
    if readable then NonceState(Load(text).nonces, !Load(text).ok, text) else NonceState({}, true, text)
  }

  /** While the state is available, memory holds exactly what the file holds. */
  predicate StateValid(state: NonceState) {
    Complete(state.text)
    && (!state.failed ==> Load(state.text).ok && state.used == Load(state.text).nonces)
  }

  lemma CommitKeepsValid(state: NonceState, nonce: string, append: Append)
    requires StateValid(state) && Writable(nonce)
    ensures var (next, verdict) := Commit(state, nonce, append);
      StateValid(next)
      && Load(state.text).nonces <= Load(next.text).nonces
      && (Load(state.text).ok ==> Load(next.text).ok)
      && (verdict == Accepted ==> nonce !in Load(state.text).nonces && nonce in Load(next.text).nonces)
  {
    if !state.failed { AppendAddsOne(state.text, nonce); }
  }

  lemma RestartKeepsValid(text: string, readable: bool)
    requires Complete(text)
    ensures StateValid(Restart(text, readable))
  {
  }

  // ----- Runs of the Authority: any sequence of consumptions, persist failures and restarts -----

  datatype Op = Consume(nonce: string, append: Append) | RestartNow(readable: bool)

  function After(state: NonceState, op: Op): NonceState {
    match op
    case Consume(nonce, append) => Commit(state, nonce, append).0
    case RestartNow(readable) => Restart(state.text, readable)
  }

  function Final(state: NonceState, ops: seq<Op>): NonceState
    decreases |ops|
  {
    if ops == [] then state else Final(After(state, ops[0]), ops[1..])
  }

  /** The nonces answered 204, in order. */
  function AcceptedNonces(state: NonceState, ops: seq<Op>): seq<string>
    decreases |ops|
  {
    if ops == [] then []
    else
      var rest := AcceptedNonces(After(state, ops[0]), ops[1..]);
      if Accepts(state, ops[0]) then [ops[0].nonce] + rest else rest
  }

  predicate AllWritable(ops: seq<Op>) {
    forall i :: 0 <= i < |ops| && ops[i].Consume? ==> Writable(ops[i].nonce)
  }

  predicate Distinct(nonces: seq<string>) {
    forall i, j :: 0 <= i < j < |nonces| ==> nonces[i] != nonces[j]
  }

  lemma DistinctCons(first: string, rest: seq<string>)
    requires Distinct(rest) && first !in rest
    ensures Distinct([first] + rest)
  {
  }

  predicate Accepts(state: NonceState, op: Op) {
    op.Consume? && Commit(state, op.nonce, op.append).1 == Accepted
  }

  function OnFile(state: NonceState): set<string> {
    Load(state.text).nonces
  }

  lemma StepKeepsValid(state: NonceState, op: Op)
    requires StateValid(state) && (op.Consume? ==> Writable(op.nonce))
    ensures StateValid(After(state, op)) && OnFile(state) <= OnFile(After(state, op))
    ensures Accepts(state, op) ==> op.nonce !in OnFile(state) && op.nonce in OnFile(After(state, op))
  {
    if op.Consume? {
      CommitKeepsValid(state, op.nonce, op.append);
    } else {
      RestartKeepsValid(state.text, op.readable);
    }
  }

  lemma {:induction false} RunKeepsValid(state: NonceState, ops: seq<Op>)
    requires StateValid(state) && AllWritable(ops)
    ensures StateValid(Final(state, ops)) && OnFile(state) <= OnFile(Final(state, ops))
    decreases |ops|
  {
    if ops != [] {
      StepKeepsValid(state, ops[0]);
      RunKeepsValid(After(state, ops[0]), ops[1..]);
    }
  }

  /** No run accepts a nonce that the file already held. */
  lemma {:induction false} OnFileNeverAccepted(state: NonceState, ops: seq<Op>, nonce: string)
    requires StateValid(state) && AllWritable(ops) && nonce in OnFile(state)
    ensures nonce !in AcceptedNonces(state, ops)
    decreases |ops|
  {
    if ops != [] {
      StepKeepsValid(state, ops[0]);
      OnFileNeverAccepted(After(state, ops[0]), ops[1..], nonce);
    }
  }

  /** Single use over every run of consumptions, persist failures and restarts: no nonce is accepted twice. */
  lemma {:induction false} AcceptedOnce(state: NonceState, ops: seq<Op>)
    requires StateValid(state) && AllWritable(ops)
    ensures Distinct(AcceptedNonces(state, ops))
    decreases |ops|
  {
    if ops != [] {
      var next := After(state, ops[0]);
      StepKeepsValid(state, ops[0]);
      AcceptedOnce(next, ops[1..]);
      if Accepts(state, ops[0]) {
        OnFileNeverAccepted(next, ops[1..], ops[0].nonce);
        DistinctCons(ops[0].nonce, AcceptedNonces(next, ops[1..]));
      }
    }
  }

  /** Every accepted nonce is on file at the end of the run. */
  lemma {:induction false} AcceptedOnFile(state: NonceState, ops: seq<Op>, nonce: string)
    requires StateValid(state) && AllWritable(ops) && nonce in AcceptedNonces(state, ops)
    ensures nonce in OnFile(Final(state, ops))
    decreases |ops|
  {
    hide After, Accepts, StateValid, OnFile;
    var next := After(state, ops[0]);
    StepKeepsValid(state, ops[0]);
    if nonce in AcceptedNonces(next, ops[1..]) {
      AcceptedOnFile(next, ops[1..], nonce);
    } else {
      RunKeepsValid(next, ops[1..]);
    }
  }

  /** After a persist error nothing is accepted until the next restart. */
  lemma {:induction false} FailureIsSticky(state: NonceState, ops: seq<Op>)
    requires state.failed && forall i :: 0 <= i < |ops| ==> ops[i].Consume?
    ensures AcceptedNonces(state, ops) == [] && Final(state, ops) == state
    decreases |ops|
  {
    if ops != [] { FailureIsSticky(state, ops[1..]); }
  }

  // ----- The service -----

  /** The state file on disk; it outlives every Authority that uses it. */
  class StateFile {
    var text: string

    constructor ()
      ensures text == ""
    {
      text := "";
    }

    /** Open for appending, write the line, sync, close. */
    method PersistNonce(nonce: string, append: Append) returns (ok: bool)
      modifies this
      ensures ok <==> append == Written
      ensures text == if append == NotWritten then old(text) else Appended(old(text), nonce)
    {
      if append != NotWritten {
        text := text + nonce + "\n";
      }
      ok := append == Written;
    }
  }

  /** Deployment settings. `render` and `parse` are the JSON form of the claims, `mac` the keyed digest. */
  datatype Config = Config(
    keyLength: nat, owner: string, configuredTtl: int, mac: string -> seq<Token.Byte>,
    render: Claims -> seq<Token.Byte>, parse: seq<Token.Byte> -> Option<Claims>)
  {
    /** A lifetime that is not positive is replaced by two minutes. */
    function Ttl(): (ttl: int)
      ensures ttl > 0
    {
      if configuredTtl <= 0 then 120 * SECOND else configuredTtl
    }

    ghost predicate Faithful() {
      forall c :: parse(render(c)) == Some(c)
    }

    /** The claims behind a token, if it verifies and holds claims at all. */
    function Open(token: string): Option<Claims> {
      match Token.Verify(mac, token)
      case None => None
      case Some(payload) => parse(payload)
    }
  }

  class Authority {
    const config: Config
    const file: StateFile
    var used: set<string>
    var stateErr: bool
    var consumeCount: nat

    ghost function State(): NonceState
      reads this, file
    {
      NonceState(used, stateErr, file.text)
    }

    /** Start or restart: rebuild the used set from the file. `readable` says whether it can be opened. */
    constructor (config: Config, file: StateFile, readable: bool)
      ensures this.config == config && this.file == file
      ensures State() == Restart(file.text, readable) && consumeCount == 0
    {
      this.config := config;
      this.file := file;
      this.used, this.stateErr, this.consumeCount := {}, true, 0;
      new;
      if readable {
        var nonces, ok := LoadUsedNonces(file.text);
        used, stateErr := nonces, !ok;
      }
    }

    /** Issue an Approval with a fresh nonce: the token opens to the claims for exactly this binding. */
    method Issue(binding: Binding, nonce: string, now: int) returns (token: Option<string>)
      requires config.Faithful()
      ensures token.Some? <==> !stateErr && ValidBinding(config.keyLength, config.owner, binding)
      ensures binding.tool == "calendar.create_event" ==>
        (token.Some? <==>
         !stateErr && config.keyLength >= 32 && binding.subject == config.owner && binding.actor == "telegram-agent"
         && binding.traceId != "" && binding.arguments != Null)
      ensures token.Some? <==> !stateErr && Issuable(config.keyLength, config.owner, binding)
      ensures token.Some? ==> config.Open(token.value) == Some(ClaimsFor(binding, now, config.Ttl(), nonce))
      ensures token.Some? ==>
        config.Open(token.value).value.expiresAt ==
        (now + if config.configuredTtl <= 0 then 120_000_000_000 else config.configuredTtl) / 1_000_000_000
    {
      hide NamesDemoDoor, ValidBinding;
      ValidBindingExactly(config.keyLength, config.owner, binding);
      if stateErr || !ValidBinding(config.keyLength, config.owner, binding) {
        return None;
      }
      var claims := Claims(binding.subject, binding.actor, binding.tool, HashArguments(binding.arguments),
                           binding.traceId, Token.ExpiresAt(now, config.Ttl()), nonce);
      token := Some(Token.Sign(config.mac, config.render(claims)));
      Token.SignedVerifies(config.mac, config.render(claims));
    }

    /** The critical section: the nonce is on disk before it is accepted. */
    method CommitNonce(nonce: string, append: Append) returns (verdict: Verdict)
      modifies this`used, this`stateErr, file
      ensures (State(), verdict) == Commit(old(State()), nonce, append)
    {
      if stateErr { return Unavailable; }
      if nonce in used { return Replayed; }
      var ok := file.PersistNonce(nonce, append);
      if !ok {
        stateErr := true;
        return Unavailable;
      }
      used := used + {nonce};
      verdict := Accepted;
    }

    /** Consume an Approval for a binding: refused unless the state is available and the token opens to claims that
        match the binding and are unexpired, and then committed; nothing else changes but the call counter. */
    method ConsumeApproval(token: string, binding: Binding, now: int, append: Append) returns (verdict: Verdict)
      modifies this`used, this`stateErr, this`consumeCount, file
      ensures consumeCount == old(consumeCount) + 1
      ensures (State(), verdict) == Consuming(old(State()), token, config.Open(token), binding, now, append)
      ensures verdict == Accepted <==>
        !old(stateErr) && token != "" && config.Open(token).Some? && Matches(config.Open(token).value, binding, now)
        && config.Open(token).value.nonce !in old(used) && append == Written
    {
      consumeCount := consumeCount + 1;
      if stateErr { return Unavailable; }
      if token == "" { return Malformed; }
      var found := config.Open(token);
      if found == None { return Refused; }
      var claims := found.value;
      if claims.subject != binding.subject || claims.actor != binding.actor || claims.tool != binding.tool
         || claims.traceId != binding.traceId || claims.argumentsHash != HashArguments(binding.arguments)
         || !Token.Unexpired(now, claims.expiresAt)
      {
        return Refused;
      }
      verdict := CommitNonce(claims.nonce, append);
    }
  }
}
