/** The lock's side of the protocol keeps the invariant: evidence, the call to the lock, its answer and resets. */
module ProtocolLock {
  import opened Text
  import opened Protocol
  import opened ProtocolInvariant
  import opened ProtocolSteps
  import opened ProtocolEffects
  import opened ProtocolCalendar
  import Audit
  import Policy
  import Store = MeetingStore
  import Lock = SmartLockServer

  // ----- Evidence -----

  lemma EvidenceAdd(proposals: Proposals, handlers: Handlers, creates: Creates, unlocks: Unlocks,
                    accepted: Acceptances, effects: Effects, evidence: Evidences, h: HandlerId, e: Evidence)
    requires EffectsOk(proposals, handlers, creates, unlocks, accepted, effects, evidence)
    requires h !in evidence && EvidenceOk(accepted, h, e)
    ensures EffectsOk(proposals, handlers, creates, unlocks, accepted, effects, evidence[h := e])
  {
    hide Store.OperationFor, EvidenceOk;
  }

  lemma EvidenceTimes(issued: Issued, accepted: Acceptances, effects: Effects, evidence: Evidences, ticks: nat,
                      h: HandlerId, e: Evidence)
    requires TimesOk(issued, accepted, effects, evidence, ticks) && e.when < ticks
    ensures TimesOk(issued, accepted, effects, evidence[h := e], ticks)
  {
  }

  /** The record is about this unlock and carries the Approval's trace. */
  lemma UnlockRecordOk(handler: Handler, traceId: string)
    ensures var record := UnlockRecord(handler, traceId);
      record.outcome == "allow" && record.operation == "execute" && record.tool == Policy.UNLOCK_LOCK
      && (traceId != "" ==> record.traceId == traceId)
  {
    hide Audit.Valid;
  }

  lemma AcceptedBefore(s: System, h: HandlerId)
    requires Inv(s) && h in s.history.accepted
    ensures s.history.accepted[h].when < s.ticks
  {
    hide Store.Valid, IssuesOk, NoncesOk, AcceptedOk, SingleUse, ConsumesOk, StagesOk, EffectsOk, HoldersOk, EventsOk,
      RepliesOk, AbandonedOk, CreatedOnce, LockOk;
  }

  /** What a handler about to record its evidence knows, and what the evidence then says. */
  lemma AuditingKnown(s: System, h: HandlerId, record: Audit.AuditRecord)
    requires Inv(s) && At(s, h, Auditing) && h in s.history.accepted
    requires record == UnlockRecord(s.handlers[h], s.history.accepted[h].claims.traceId) && Audit.Valid(record)
    ensures s.handlers[h].request.Unlock? && h !in s.history.evidence
    ensures EvidenceOk(s.history.accepted, h, Evidence(record, s.ticks))
    ensures StageOk(s.handlers[h].(stage := Opening), h, s.consumes, s.creates, s.unlocks, s.history.accepted,
                    s.history.effects,
                    s.history.evidence[h := Evidence(record, s.ticks)])
  {
    hide Inv, Granted, Audit.Valid, UnlockRecord;
    StageKnown(s, h);
    AcceptedBefore(s, h);
    UnlockRecordOk(s.handlers[h], s.history.accepted[h].claims.traceId);
  }

  /** An unlock handler neither holds nor retries, wherever it stands. */
  lemma UnlockMoveIsLocal(states: States, handlers: Handlers, h: HandlerId, stage: Stage)
    requires h in handlers && handlers[h].request.Unlock?
    ensures HoldingKept(states, handlers, states, handlers[h := handlers[h].(stage := stage)])
  {
    MoveIsLocal(states, handlers, h, handlers[h].(stage := stage));
  }

  lemma AuditStored(s: System, h: HandlerId, record: Audit.AuditRecord, t: System)
    requires Inv(s) && At(s, h, Auditing) && h in s.history.accepted
    requires record == UnlockRecord(s.handlers[h], s.history.accepted[h].claims.traceId) && Audit.Valid(record)
    requires t == Move(s, h, Opening).(
      collector := t.collector, history := s.history.(evidence := s.history.evidence[h := Evidence(record, s.ticks)]),
      ticks := s.ticks + 1)
    ensures Inv(t)
  {
    hide StageOk, SameRequests, HoldingKept, EvidenceOk, Audit.Valid, UnlockRecord;
    hide Store.Valid, IssuesOk, NoncesOk, AcceptedOk, SingleUse, ConsumesOk, StagesOk, EffectsOk, HoldersOk, EventsOk,
      RepliesOk, AbandonedOk, CreatedOnce, LockOk, TimesOk;
    var y, e := s.history, Evidence(record, s.ticks);
    TimesGrow(s);
    AuditingKnown(s, h, record);
    StageMoves(s.handlers, h, Opening);
    EvidenceTimes(y.issued, y.accepted, y.effects, y.evidence, t.ticks, h, e);
    ConsumesGrow(s.store.proposals, s.handlers, s.consumes, y.issued, y.accepted, s.store.proposals, t.handlers,
                 y.issued);
    StagesStep(h, s.handlers, s.consumes, s.creates, s.unlocks, y.accepted, y.effects, y.evidence,
               t.handlers, s.consumes, s.creates, s.unlocks, y.accepted, y.effects, t.history.evidence);
    EffectsGrow(s.store.proposals, s.handlers, s.creates, s.unlocks, y.accepted, y.effects, y.evidence,
                s.store.proposals, t.handlers, y.accepted);
    EvidenceAdd(s.store.proposals, t.handlers, s.creates, s.unlocks, y.accepted, y.effects, y.evidence, h, e);
    UnlockMoveIsLocal(s.store.states, s.handlers, h, Opening);
    HoldersKept(s.store.states, s.handlers, y.holder, s.store.states, t.handlers);
  }

  lemma AuditKeeps(s: System, h: HandlerId, delivered: bool, replied: bool, t: System)
    requires Inv(s) && At(s, h, Auditing) && h in s.history.accepted
    requires t == AfterAudit(s, h, delivered, replied).(ticks := s.ticks + 1)
    ensures Inv(t)
  {
    hide Inv, Audit.Valid, UnlockRecord, Granted;
    var record := UnlockRecord(s.handlers[h], s.history.accepted[h].claims.traceId);
    if delivered && Audit.Valid(record) && replied {
      AuditStored(s, h, record, t);
    } else {
      MoveKeeps(s, h, t.handlers[h], t);
    }
  }

  // ----- The call to the lock -----

  lemma EffectsAddOpen(proposals: Proposals, handlers: Handlers, creates: Creates, unlocks: Unlocks,
                       accepted: Acceptances, effects: Effects, evidence: Evidences, h: HandlerId, call: UnlockCall,
                       when: nat)
    requires EffectsOk(proposals, handlers, creates, unlocks, accepted, effects, evidence) && h !in effects
    requires EffectOk(proposals, handlers, creates, unlocks[h := call], accepted, evidence, h,
                      OpenLock(call.device, when))
    ensures EffectsOk(proposals, handlers, creates, unlocks[h := call], accepted,
                      effects[h := OpenLock(call.device, when)], evidence)
  {
    hide Store.OperationFor, EvidenceOk;
  }

  lemma EvidenceBefore(s: System, h: HandlerId)
    requires Inv(s) && h in s.history.evidence
    ensures s.history.evidence[h].when < s.ticks
  {
    hide Store.Valid, IssuesOk, NoncesOk, AcceptedOk, SingleUse, ConsumesOk, StagesOk, EffectsOk, HoldersOk, EventsOk,
      RepliesOk, AbandonedOk, CreatedOnce, LockOk;
  }

  /** What a handler about to call the lock knows, and what its call is then about. */
  lemma OpeningKnown(s: System, h: HandlerId, call: UnlockCall, effects: Effects)
    requires Inv(s) && At(s, h, Opening) && s.handlers[h].request.Unlock? && call.device == s.handlers[h].request.device
    ensures h !in s.history.effects && h in s.history.accepted && h in s.history.evidence
    ensures var handlers := Move(s, h, Unlocking).handlers;
      EffectOk(s.store.proposals, handlers, s.creates, s.unlocks[h := call], s.history.accepted, s.history.evidence, h,
               OpenLock(call.device, s.ticks))
      && StageOk(handlers[h], h, s.consumes, s.creates, s.unlocks[h := call], s.history.accepted, effects,
                 s.history.evidence)
  {
    hide Inv, Granted;
    StageKnown(s, h);
    AcceptedBefore(s, h);
    EvidenceBefore(s, h);
  }

  lemma CallLockKeeps(s: System, h: HandlerId, t: System)
    requires Inv(s) && At(s, h, Opening) && s.handlers[h].request.Unlock?
      && t == AfterCallLock(s, h).(ticks := s.ticks + 1)
    ensures Inv(t)
  {
    hide StageOk, SameRequests, EffectOk, HoldingKept;
    hide Store.Valid, IssuesOk, NoncesOk, AcceptedOk, SingleUse, ConsumesOk, StagesOk, EffectsOk, HoldersOk, EventsOk,
      RepliesOk, AbandonedOk, CreatedOnce, LockOk, TimesOk;
    var y, call := s.history, t.unlocks[h];
    TimesGrow(s);
    OpeningKnown(s, h, call, t.history.effects);
    StageMoves(s.handlers, h, Unlocking);
    EffectTimes(y.issued, y.accepted, y.effects, y.evidence, t.ticks, h, t.history.effects[h]);
    ConsumesGrow(s.store.proposals, s.handlers, s.consumes, y.issued, y.accepted, s.store.proposals, t.handlers,
                 y.issued);
    StagesStep(h, s.handlers, s.consumes, s.creates, s.unlocks, y.accepted, y.effects, y.evidence,
               t.handlers, s.consumes, s.creates, t.unlocks, y.accepted, t.history.effects, y.evidence);
    EffectsGrow(s.store.proposals, s.handlers, s.creates, s.unlocks, y.accepted, y.effects, y.evidence,
                s.store.proposals, t.handlers, y.accepted);
    EffectsAddOpen(s.store.proposals, t.handlers, s.creates, s.unlocks, y.accepted, y.effects, y.evidence, h, call,
                   s.ticks);
    UnlockMoveIsLocal(s.store.states, s.handlers, h, Unlocking);
    HoldersKept(s.store.states, s.handlers, y.holder, s.store.states, t.handlers);
  }

  // ----- The lock's answer -----

  lemma EffectsUnlocked(proposals: Proposals, handlers: Handlers, creates: Creates, unlocks: Unlocks,
                        accepted: Acceptances, effects: Effects, evidence: Evidences, h: HandlerId, call: UnlockCall)
    requires EffectsOk(proposals, handlers, creates, unlocks, accepted, effects, evidence)
    requires h in unlocks && call.device == unlocks[h].device
    ensures EffectsOk(proposals, handlers, creates, unlocks[h := call], accepted, effects, evidence)
  {
    hide Store.OperationFor, EvidenceOk;
  }

  lemma LockUnlocks(lock: Lock.LockState, openings: nat, resets: nat, device: string)
    requires LockOk(lock, openings, resets)
    ensures var (lock', answer) := Lock.Unlocking(lock, device);
      LockOk(lock', openings + if answer == Lock.Unlocked then 1 else 0, resets)
  {
    Lock.UnlockingKeepsValid(lock, device);
  }

  lemma UnlockKeeps(s: System, h: HandlerId, t: System)
    requires Inv(s) && h in s.unlocks && s.unlocks[h].answer == None && t == AfterUnlock(s, h).(ticks := s.ticks + 1)
    ensures Inv(t)
  {
    hide Lock.Unlocking;
    hide Store.Valid, IssuesOk, NoncesOk, AcceptedOk, SingleUse, ConsumesOk, StagesOk, EffectsOk, HoldersOk, EventsOk,
      RepliesOk, AbandonedOk, CreatedOnce, LockOk, TimesOk;
    var y := s.history;
    TimesGrow(s);
    LockUnlocks(s.lock, y.openings, y.resets, s.unlocks[h].device);
    EffectsUnlocked(s.store.proposals, s.handlers, s.creates, s.unlocks, y.accepted, y.effects, y.evidence, h,
                    t.unlocks[h]);
    StagesSame(s.handlers, s.consumes, s.creates, s.unlocks, y.accepted, y.effects, y.evidence,
               s.consumes, s.creates, t.unlocks, y.accepted);
  }

  lemma LockResets(lock: Lock.LockState, openings: nat, resets: nat)
    requires LockOk(lock, openings, resets)
    ensures LockOk(Lock.LOCKED, openings, resets + 1)
  {
  }

  lemma ResetKeeps(s: System, t: System)
    requires Inv(s)
    requires t == s.(lock := Lock.LOCKED, history := s.history.(resets := s.history.resets + 1), ticks := s.ticks + 1)
    ensures Inv(t)
  {
    hide Store.Valid, IssuesOk, NoncesOk, AcceptedOk, SingleUse, ConsumesOk, StagesOk, EffectsOk, HoldersOk, EventsOk,
      RepliesOk, AbandonedOk, CreatedOnce, LockOk, TimesOk;
    TimesGrow(s);
    LockResets(s.lock, s.history.openings, s.history.resets);
  }
}
