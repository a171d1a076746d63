// src/adapters/registration.rs: `RegistrationAuthority`, whose methods take the steps of the protocol on
// the files they own.
module RegistrationAuthority {
  import opened Wrappers
  import opened Registration

  class RegistrationAuthority {
    var config: Config
    var drafts: map<DraftId, Draft>
    // Where the commit that holds the lock has got to.
    var pending: Pending
    ghost var reviews: set<Draft>
    ghost var confirmations: set<Confirmation>
    ghost var writes: seq<ConfigWrite>

    ghost function Now(): State
      reads this
    {
      State(config, drafts, pending, reviews, confirmations, writes)
    }

    ghost predicate Valid()
      reads this
    {
      Inv(Now())
    }

    constructor (config: Config)
      ensures Valid() && Now() == Fresh(config)
    {
      this.config, drafts, pending := config, map[], Idle;
      reviews, confirmations, writes := {}, {}, [];
    }

    method GetDraft(id: DraftId) returns (r: Result<Draft, Error>)
      ensures r == Load(drafts, id)
      ensures r == if id !in drafts then Failure(DraftNotFound)
                   else
                     var d := drafts[id];
                     if && d.schemaVersion == 1 && d.configurationPath == OwnConfiguration
                        && d.draftId == DraftFor(d.requestId)
                        && d.proposalHash == HashOf(Proposal(d.requestId, d.operation, d.serviceId, d.baseRevision,
                                                             d.proposedRevision, d.after))
                        && d.proposedRevision == Fingerprint(d.after)
                        && d.phrase == Approve(d.serviceId, d.proposalHash)
                     then Success(d) else Failure(IntegrityFailed)
    {
      if id !in drafts {
        return Failure(DraftNotFound);
      }
      var draft := drafts[id];
      if draft.schemaVersion != REGISTRATION_SCHEMA_VERSION || draft.configurationPath != OwnConfiguration
         || draft.draftId != DraftFor(draft.requestId) {
        return Failure(IntegrityFailed);
      }
      if HashOf(ProposalOf(draft)) != draft.proposalHash || Fingerprint(draft.after) != draft.proposedRevision
         || draft.phrase != Approve(draft.serviceId, draft.proposalHash) {
        return Failure(IntegrityFailed);
      }
      return Success(draft);
    }

    // Reading a draft for approval.
    method ReviewDraft(id: DraftId) returns (r: Result<Draft, Error>)
      requires Valid()
      modifies this`reviews
      ensures Valid() && Now() == Next(old(Now()), Review(id))
      ensures r == Load(drafts, id) && (r.Success? ==> r.value in reviews)
    {
      hide Inv, Load;
      KeepsInv(Now(), Review(id));
      r := GetDraft(id);
      LoadIsStored(drafts, id);
      if r.Success? {
        reviews := reviews + {r.value};
      }
    }

    // `audited`, here and below, says whether the audit append behind the last write succeeds.
    method PrepareChange(request: Request, clean: bool, now: nat, written: bool, audited: bool)
      returns (r: Result<Draft, Error>)
      requires Valid()
      modifies this`drafts
      ensures Valid() && Now() == Next(old(Now()), Prepare(request, clean, now, written))
      ensures var reply := old(PrepareReply(Now(), request, clean, now));
              r == if reply.Failure? || DraftFor(request.requestId) in old(drafts) then reply
                   else if !written then Failure(WriteFailed)
                   else if !audited then Failure(AuditFailed) else reply
      // A stored draft is the answer exactly when the request asks for it again; nothing is written.
      ensures pending.Idle? && DraftFor(request.requestId) in old(drafts) ==>
                var d := old(drafts)[DraftFor(request.requestId)];
                var again := Proposed(d.before, request.operation, request.serviceId, request.service, clean);
                && drafts == old(drafts)
                && r == if && request.baseRevision == d.baseRevision && again.Success?
                           && HashOf(Proposal(request.requestId, request.operation, request.serviceId,
                                              request.baseRevision, Fingerprint(again.value.0), again.value.0))
                              == d.proposalHash
                        then Success(d) else Failure(RequestIdConflict)
      ensures !pending.Idle? ==> drafts == old(drafts) && r == Failure(TransactionInProgress)
      // Otherwise every check is made on the configuration as it is, and a new draft records the outcome.
      ensures pending.Idle? && DraftFor(request.requestId) !in old(drafts) ==>
                var refused :=
                  if exists id :: id in config.services && config.services[id].sensitive then Some(SensitiveEnvironment)
                  else if request.baseRevision != Fingerprint(config) then Some(RevisionConflict)
                  else if request.operation == Register && request.serviceId in config.services
                    then Some(AlreadyRegistered)
                  else if request.operation != Register && request.serviceId !in config.services
                    then Some(NotRegistered)
                  else if request.operation == Unregister && request.service.Some? then Some(DefinitionForbidden)
                  else if request.operation != Unregister && request.service.None? then Some(DefinitionRequired)
                  else if !clean || (request.service.Some? && request.service.value.sensitive)
                    then Some(ValidationFailed)
                  else None;
                if refused.Some? || !written then
                  drafts == old(drafts) && r == Failure(if refused.Some? then refused.value else WriteFailed)
                else
                  && DraftFor(request.requestId) in drafts
                  && var d := drafts[DraftFor(request.requestId)];
                  && drafts == old(drafts)[DraftFor(request.requestId) := d]
                  && r == (if audited then Success(d) else Failure(AuditFailed))
                  && d.requestId == request.requestId && d.operation == request.operation
                  && d.serviceId == request.serviceId && d.before == config
                  && d.after == config.(services := if request.operation == Unregister
                                                    then config.services - {request.serviceId}
                                                    else config.services[request.serviceId := request.service.value])
                  && d.status == Prepared && d.approvedAt.None? && d.committedAt.None?
                  && d.createdAt == now && d.expiresAt == now + 30 * 60 * 1000
    {
      hide Inv, Load, Verified;
      if DraftFor(request.requestId) in drafts {
        StoredDraftAnswers(Now(), request, clean, now);
      }
      hide Proposed, Safe;
      KeepsInv(Now(), Prepare(request, clean, now, written));
      if !pending.Idle? {
        return Failure(TransactionInProgress);
      }
      var id := DraftFor(request.requestId);
      if id in drafts {
        var existing := GetDraft(id);
        if existing.Failure? {
          return existing;
        }
        return if Matches(request, existing.value) then existing else Failure(RequestIdConflict);
      }
      if !Safe(config) {
        return Failure(SensitiveEnvironment);
      }
      if request.baseRevision != Fingerprint(config) {
        return Failure(RevisionConflict);
      }
      var validated := ValidateProposal(config, request.operation, request.serviceId, request.service, clean);
      if validated.Failure? {
        return Failure(validated.error);
      }
      var (proposed, valid) := validated.value;
      if !valid {
        return Failure(ValidationFailed);
      }
      var draft := DraftOf(request, config, proposed, now);
      if !written {
        return Failure(WriteFailed);
      }
      drafts := drafts[id := draft];
      return if audited then Success(draft) else Failure(AuditFailed);
    }

    method ApproveWithConfirmation(draft: Draft, typed: Phrase, now: nat, later: nat, written: bool, audited: bool)
      returns (r: Result<Draft, Error>)
      requires Valid() && draft in reviews
      modifies this`drafts, this`confirmations
      ensures Valid() && Now() == Next(old(Now()), Confirm(draft, typed, now, later, written))
      ensures var reply := ConfirmReply(draft, typed, now, later);
              r == if reply.Failure? then reply
                   else if draft.status == Prepared && !written then Failure(WriteFailed)
                   else if !audited then Failure(AuditFailed) else reply
      ensures r == if draft.status == Committed || (draft.status == Approved && typed != draft.phrase)
                   then Failure(DraftNotPrepared)
                   else if draft.status == Prepared && now > draft.expiresAt then Failure(DraftExpired)
                   else if typed != draft.phrase then Failure(ConfirmationMismatch)
                   else if draft.status == Prepared && !written then Failure(WriteFailed)
                   else if !audited then Failure(AuditFailed)
                   else if draft.status == Approved then Success(draft)
                   else Success(draft.(status := Approved, approvedAt := Some(later)))
      ensures if draft.status == Prepared && now <= draft.expiresAt && typed == draft.phrase && written
              then drafts == old(drafts)[draft.draftId := draft.(status := Approved, approvedAt := Some(later))]
              else drafts == old(drafts)
    {
      hide Inv;
      KeepsInv(Now(), Confirm(draft, typed, now, later, written));
      if draft.status != Prepared {
        if draft.status == Approved && typed == draft.phrase {
          return if audited then Success(draft) else Failure(AuditFailed);
        }
        return Failure(DraftNotPrepared);
      }
      if now > draft.expiresAt {
        return Failure(DraftExpired);
      }
      if typed != draft.phrase {
        return Failure(ConfirmationMismatch);
      }
      var approved := draft.(status := Approved, approvedAt := Some(later));
      if !written {
        return Failure(WriteFailed);
      }
      drafts := drafts[approved.draftId := approved];
      confirmations := confirmations + {Confirmation(draft.proposalHash, typed, now)};
      return if audited then Success(approved) else Failure(AuditFailed);
    }

    // A commit up to its first file write. Idle answers that nothing is left to write.
    method StartCommit(id: DraftId, now: nat, clean: bool, stopped: bool) returns (r: Result<Pending, Error>)
      requires Valid()
      modifies this`pending
      ensures Valid() && Now() == Next(old(Now()), BeginCommit(id, now, clean, stopped))
      ensures r == CommitPlan(old(Now()), id, now, clean, stopped)
      ensures pending == if r.Success? then r.value else old(pending)
      ensures r == if !old(pending).Idle? then Failure(TransactionInProgress)
                   else if id !in drafts then Failure(DraftNotFound)
                   else
                     var d := drafts[id];
                     if d.status == Committed then Success(Idle)
                     else if d.status == Prepared then Failure(ApprovalRequired)
                     else if now > d.expiresAt then Failure(DraftExpired)
                     else if exists x :: x in config.services && config.services[x].sensitive
                       then Failure(SensitiveEnvironment)
                     else if config == d.after then Success(WritingDraft(d))
                     else if config != d.before then Failure(RevisionConflict)
                     else if d.operation != Register && !stopped then Failure(MustBeStopped)
                     else if !clean then Failure(ValidationFailed)
                     else Success(WritingConfig(d, d.after, now))
    {
      CommitDecides(Now(), id, now, clean, stopped);
      BeginCommitIs(Now(), id, now, clean, stopped);
      hide Inv, Load, Verified, Proposed, Safe, Next;
      KeepsInv(Now(), BeginCommit(id, now, clean, stopped));
      if !pending.Idle? {
        return Failure(TransactionInProgress);
      }
      var loaded := GetDraft(id);
      if loaded.Failure? {
        return Failure(loaded.error);
      }
      var draft := loaded.value;
      if draft.status == Committed {
        return Success(Idle);
      }
      if draft.status != Approved {
        return Failure(ApprovalRequired);
      }
      if now > draft.expiresAt {
        return Failure(DraftExpired);
      }
      if !Safe(config) {
        return Failure(SensitiveEnvironment);
      }
      if Fingerprint(config) == draft.proposedRevision {
        pending := WritingDraft(draft);
        return Success(pending);
      }
      if Fingerprint(config) != draft.baseRevision {
        return Failure(RevisionConflict);
      }
      if draft.operation != Register && !stopped {
        return Failure(MustBeStopped);
      }
      var service := None;
      if draft.operation != Unregister {
        if draft.serviceId !in draft.after.services {
          return Failure(IntegrityFailed);
        }
        service := Some(draft.after.services[draft.serviceId]);
      }
      var validated := ValidateProposal(config, draft.operation, draft.serviceId, service, clean);
      if validated.Failure? {
        return Failure(validated.error);
      }
      var (proposed, valid) := validated.value;
      if !valid {
        return Failure(ValidationFailed);
      }
      if Fingerprint(proposed) != draft.proposedRevision {
        return Failure(IntegrityFailed);
      }
      pending := WritingConfig(draft, proposed, now);
      return Success(pending);
    }

    method WriteConfiguration(written: bool) returns (r: Result<(), Error>)
      requires Valid() && pending.WritingConfig?
      modifies this`config, this`pending, this`writes
      ensures Valid() && Now() == Next(old(Now()), WriteConfig(written))
      ensures r == if written then Success(()) else Failure(WriteFailed)
      ensures config == (if written then old(pending).draft.after else old(config))
      ensures pending == if written then WritingDraft(old(pending).draft) else Idle
    {
      assert pending.proposed == pending.draft.after;
      hide Inv;
      KeepsInv(Now(), WriteConfig(written));
      if !written {
        pending := Idle;
        return Failure(WriteFailed);
      }
      writes := writes + [ConfigWrite(pending.draft, config, pending.proposed, pending.checkedAt)];
      config := pending.proposed;
      pending := WritingDraft(pending.draft);
      return Success(());
    }

    method WriteCommittedDraft(now: nat, written: bool, audited: bool) returns (r: Result<Draft, Error>)
      requires Valid() && pending.WritingDraft?
      modifies this`drafts, this`pending
      ensures Valid() && Now() == Next(old(Now()), WriteDraft(now, written))
      ensures r == if !written then Failure(WriteFailed)
                   else if !audited then Failure(AuditFailed)
                   else Success(old(pending).draft.(status := Committed, committedAt := Some(now)))
      ensures var d := old(pending).draft;
              drafts == if written then old(drafts)[d.draftId := d.(status := Committed, committedAt := Some(now))]
                        else old(drafts)
      ensures pending == Idle
    {
      hide Inv;
      KeepsInv(Now(), WriteDraft(now, written));
      var draft := pending.draft.(status := Committed, committedAt := Some(now));
      pending := Idle;
      if !written {
        return Failure(WriteFailed);
      }
      drafts := drafts[draft.draftId := draft];
      return if audited then Success(draft) else Failure(AuditFailed);
    }
  }

  lemma {:induction false} BeginCommitIs(s: State, id: DraftId, now: nat, clean: bool, stopped: bool)
    ensures var r := CommitPlan(s, id, now, clean, stopped);
            Next(s, BeginCommit(id, now, clean, stopped)) == if r.Failure? then s else s.(pending := r.value)
  {}

  lemma {:induction false} LoadIsStored(drafts: map<DraftId, Draft>, id: DraftId)
    ensures Load(drafts, id).Success? ==> id in drafts && Load(drafts, id).value == drafts[id]
  {}
}
