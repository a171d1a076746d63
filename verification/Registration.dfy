// src/adapters/registration.rs: the revision-bound prepare, approve and commit protocol that changes
// the configuration file. Prepare and commit hold the commit lock; approval does not, so a human may
// confirm a draft that was read at any earlier moment. A commit is split at its file writes.
module Registration {
  import opened Wrappers

  const DRAFT_LIFETIME_MS: nat := 30 * 60 * 1000
  const REGISTRATION_SCHEMA_VERSION: nat := 1

  datatype Operation = Register | Update | Unregister

  datatype DraftStatus = Prepared | Approved | Committed

  // A service entry; `sensitive` says that some environment key looks like a secret.
  datatype Service = Service(definition: string, sensitive: bool)

  // `settings` stands for everything outside the service table.
  datatype Config = Config(settings: string, services: map<string, Service>)

  // Fingerprints are taken to be injective; a caller may also present any other text.
  datatype Revision = Fingerprint(config: Config) | OtherText(text: string)

  datatype Proposal = Proposal(requestId: string, operation: Operation, serviceId: string, baseRevision: Revision,
                               proposedRevision: Revision, after: Config)

  datatype Hash = HashOf(proposal: Proposal)

  datatype Phrase = Approve(serviceId: string, hash: Hash) | OtherPhrase(text: string)

  datatype DraftId = DraftFor(requestId: string)

  // The configuration file of this authority, or some other one.
  datatype Location = OwnConfiguration | Elsewhere(path: string)

  datatype Draft = Draft(
    schemaVersion: nat, configurationPath: Location,
    draftId: DraftId, requestId: string, operation: Operation, serviceId: string,
    baseRevision: Revision, proposedRevision: Revision, proposalHash: Hash,
    createdAt: nat, expiresAt: nat, status: DraftStatus,
    approvedAt: Option<nat>, committedAt: Option<nat>,
    phrase: Phrase, before: Config, after: Config)

  datatype Request = Request(requestId: string, operation: Operation, serviceId: string, baseRevision: Revision,
                             service: Option<Service>)

  datatype Error =
    | TransactionInProgress | RequestIdConflict | SensitiveEnvironment | RevisionConflict
    | AlreadyRegistered | NotRegistered | DefinitionRequired | DefinitionForbidden
    | ValidationFailed | DraftNotFound | IntegrityFailed | DraftNotPrepared | DraftExpired
    | ConfirmationMismatch | ApprovalRequired | MustBeStopped | WriteFailed | AuditFailed

  // --- the checks ---

  function ProposalOf(d: Draft): Proposal {
    Proposal(d.requestId, d.operation, d.serviceId, d.baseRevision, d.proposedRevision, d.after)
  }

  predicate Verified(d: Draft) {
    && d.schemaVersion == REGISTRATION_SCHEMA_VERSION && d.configurationPath == OwnConfiguration
    && d.draftId == DraftFor(d.requestId)
    && HashOf(ProposalOf(d)) == d.proposalHash
    && Fingerprint(d.after) == d.proposedRevision
    && d.phrase == Approve(d.serviceId, d.proposalHash)
  }

  predicate Safe(config: Config) {
    forall id :: id in config.services ==> !config.services[id].sensitive
  }

  // The proposed configuration, and whether no issue was found in it; `clean` is the verdict of the
  // structural and file-system checks on it.
  method ValidateProposal(current: Config, operation: Operation, serviceId: string, service: Option<Service>,
                          clean: bool)
    returns (r: Result<(Config, bool), Error>)
    ensures r == Proposed(current, operation, serviceId, service, clean)
    ensures r.Failure? <==>
              (operation == Register <==> serviceId in current.services) || (operation == Unregister <==> service.Some?)
    ensures r.Failure? ==>
              r.error == if operation == Register && serviceId in current.services then AlreadyRegistered
                         else if operation != Register && serviceId !in current.services then NotRegistered
                         else if service.Some? then DefinitionForbidden else DefinitionRequired
    ensures r.Success? ==>
              var (after, valid) := r.value;
              && Changes(current, after, operation, serviceId)
              && (service.Some? ==> after.services[serviceId] == service.value)
              && (valid <==> clean && (service.Some? ==> !service.value.sensitive))
              && (Safe(current) && valid ==> Safe(after))
  {
    var registered := serviceId in current.services;
    match operation {
      case Register => if registered { return Failure(AlreadyRegistered); }
      case Update => if !registered { return Failure(NotRegistered); }
      case Unregister => if !registered { return Failure(NotRegistered); }
    }
    var proposed := current;
    var valid := true;
    if operation.Unregister? {
      if service.Some? { return Failure(DefinitionForbidden); }
      proposed := proposed.(services := proposed.services - {serviceId});
    } else {
      if service.None? { return Failure(DefinitionRequired); }
      if service.value.sensitive { valid := false; }
      proposed := proposed.(services := proposed.services[serviceId := service.value]);
    }
    valid := valid && clean;
    return Success((proposed, valid));
  }

  function Proposed(current: Config, operation: Operation, serviceId: string, service: Option<Service>, clean: bool)
    : Result<(Config, bool), Error>
  {
    if operation == Register && serviceId in current.services then Failure(AlreadyRegistered)
    else if operation != Register && serviceId !in current.services then Failure(NotRegistered)
    else if operation == Unregister then
      if service.Some? then Failure(DefinitionForbidden)
      else Success((current.(services := current.services - {serviceId}), clean))
    else if service.None? then Failure(DefinitionRequired)
    else Success((current.(services := current.services[serviceId := service.value]), clean &&
        !service.value.sensitive))
  }

  predicate Matches(request: Request, d: Draft) {
    && request.requestId == d.requestId && request.operation == d.operation
    && request.serviceId == d.serviceId && request.baseRevision == d.baseRevision
    && if request.operation == Unregister then request.service.None? && request.serviceId !in d.after.services
       else request.service.Some? && request.serviceId in d.after.services &&
            d.after.services[request.serviceId] == request.service.value
  }

  // What a change of one service by this operation looks like.
  ghost predicate Changes(before: Config, after: Config, operation: Operation, serviceId: string) {
    && after.settings == before.settings
    && (forall id :: id != serviceId ==> (id in after.services <==> id in before.services))
    && (forall id :: id != serviceId && id in after.services ==> after.services[id] == before.services[id])
    && (serviceId in before.services <==> operation != Register)
    && (serviceId in after.services <==> operation != Unregister)
  }

  lemma {:induction false} ProposedChanges(current: Config, operation: Operation, serviceId: string,
                                           service: Option<Service>, clean: bool)
    requires Proposed(current, operation, serviceId, service, clean).Success?
    ensures var (after, valid) := Proposed(current, operation, serviceId, service, clean).value;
            && Changes(current, after, operation, serviceId)
            && (Safe(current) && valid ==> Safe(after))
  {}

  // --- the shared files and the people and agents acting on them ---

  // A commit between its file writes.
  datatype Pending = Idle | WritingConfig(draft: Draft, proposed: Config, checkedAt: nat) | WritingDraft(draft: Draft)

  datatype ConfigWrite = ConfigWrite(draft: Draft, before: Config, after: Config, checkedAt: nat)

  datatype Confirmation = Confirmation(hash: Hash, phrase: Phrase, at: nat)

  datatype State = State(
    config: Config,
    drafts: map<DraftId, Draft>,
    pending: Pending,
    reviews: set<Draft>,               // drafts read for approval, however long ago
    confirmations: set<Confirmation>,  // confirmations that were accepted and written
    writes: seq<ConfigWrite>)          // configuration writes made by commits

  datatype Step =
    | Prepare(request: Request, clean: bool, now: nat, writes: bool)
    | Review(id: DraftId)
    | Confirm(draft: Draft, typed: Phrase, now: nat, later: nat, writes: bool)
    | BeginCommit(id: DraftId, now: nat, clean: bool, stopped: bool)
    | WriteConfig(writes: bool)
    | WriteDraft(now: nat, writes: bool)
    | EditConfig(config: Config) // by hand, outside the protocol

  predicate Enabled(s: State, step: Step) {
    match step
    case Confirm(draft, _, _, _, _) => draft in s.reviews
    case WriteConfig(_) => s.pending.WritingConfig?
    case WriteDraft(_, _) => s.pending.WritingDraft?
    case EditConfig(_) => s.pending.Idle?
    case _ => true
  }

  function Load(drafts: map<DraftId, Draft>, id: DraftId): Result<Draft, Error> {
    if id !in drafts then Failure(DraftNotFound)
    else if !Verified(drafts[id]) then Failure(IntegrityFailed)
    else Success(drafts[id])
  }

  function DraftOf(request: Request, current: Config, after: Config, now: nat): Draft {
    var proposed := Fingerprint(after);
    var hash := HashOf(Proposal(request.requestId, request.operation, request.serviceId, request.baseRevision, proposed,
        after));
    Draft(REGISTRATION_SCHEMA_VERSION, OwnConfiguration, DraftFor(request.requestId), request.requestId,
        request.operation, request.serviceId,
          Fingerprint(current), proposed, hash, now, now + DRAFT_LIFETIME_MS, Prepared, None, None,
          Approve(request.serviceId, hash), current, after)
  }

  function PrepareReply(s: State, request: Request, clean: bool, now: nat): Result<Draft, Error> {
    var id := DraftFor(request.requestId);
    if !s.pending.Idle? then Failure(TransactionInProgress)
    else if id in s.drafts then
      match Load(s.drafts, id)
      case Failure(e) => Failure(e)
      case Success(existing) => if Matches(request, existing) then Success(existing) else Failure(RequestIdConflict)
    else if !Safe(s.config) then Failure(SensitiveEnvironment)
    else if request.baseRevision != Fingerprint(s.config) then Failure(RevisionConflict)
    else
      match Proposed(s.config, request.operation, request.serviceId, request.service, clean)
      case Failure(e) => Failure(e)
      case Success((after, valid)) =>
        if !valid then Failure(ValidationFailed) else Success(DraftOf(request, s.config, after, now))
  }

  function ConfirmReply(draft: Draft, typed: Phrase, now: nat, later: nat): Result<Draft, Error> {
    if draft.status != Prepared then
      if draft.status == Approved && typed == draft.phrase then Success(draft) else Failure(DraftNotPrepared)
    else if now > draft.expiresAt then Failure(DraftExpired)
    else if typed != draft.phrase then Failure(ConfirmationMismatch)
    else Success(draft.(status := Approved, approvedAt := Some(later)))
  }

  // What a commit decides before it writes anything; a committed draft needs no write.
  function CommitPlan(s: State, id: DraftId, now: nat, clean: bool, stopped: bool): Result<Pending, Error> {
    if !s.pending.Idle? then Failure(TransactionInProgress)
    else match Load(s.drafts, id)
      case Failure(e) => Failure(e)
      case Success(d) =>
        if d.status == Committed then Success(Idle)
        else if d.status != Approved then Failure(ApprovalRequired)
        else if now > d.expiresAt then Failure(DraftExpired)
        else if !Safe(s.config) then Failure(SensitiveEnvironment)
        else if Fingerprint(s.config) == d.proposedRevision then Success(WritingDraft(d))
        else if Fingerprint(s.config) != d.baseRevision then Failure(RevisionConflict)
        else if d.operation != Register && !stopped then Failure(MustBeStopped)
        else if d.operation != Unregister && d.serviceId !in d.after.services then Failure(IntegrityFailed)
        else
          var service := if d.operation == Unregister then None else Some(d.after.services[d.serviceId]);
          match Proposed(s.config, d.operation, d.serviceId, service, clean)
          case Failure(e) => Failure(e)
          case Success((proposed, valid)) =>
            if !valid then Failure(ValidationFailed)
            else if Fingerprint(proposed) != d.proposedRevision then Failure(IntegrityFailed)
            else Success(WritingConfig(d, proposed, now))
  }

  function Next(s: State, step: Step): State {
    match step
    case Prepare(request, clean, now, writes) =>
      var r := PrepareReply(s, request, clean, now);
      if r.Failure? || DraftFor(request.requestId) in s.drafts || !writes then s
      else s.(drafts := s.drafts[DraftFor(request.requestId) := r.value])
    case Review(id) =>
      if Load(s.drafts, id).Success? then s.(reviews := s.reviews + {s.drafts[id]}) else s
    case Confirm(draft, typed, now, later, writes) =>
      var r := ConfirmReply(draft, typed, now, later);
      if r.Failure? || draft.status != Prepared || !writes then s
      else s.(drafts := s.drafts[draft.draftId := r.value],
              confirmations := s.confirmations + {Confirmation(draft.proposalHash, typed, now)})
    case BeginCommit(id, now, clean, stopped) =>
      var r := CommitPlan(s, id, now, clean, stopped);
      if r.Failure? then s else s.(pending := r.value)
    case WriteConfig(writes) =>
      if !s.pending.WritingConfig? then s
      else if !writes then s.(pending := Idle)
      else
        var d := s.pending.draft;
        s.(config := s.pending.proposed, pending := WritingDraft(d),
           writes := s.writes + [ConfigWrite(d, s.config, s.pending.proposed, s.pending.checkedAt)])
    case WriteDraft(now, writes) =>
      if !s.pending.WritingDraft? then s
      else if !writes then s.(pending := Idle)
      else
        var d := s.pending.draft;
        s.(drafts := s.drafts[d.draftId := d.(status := Committed, committedAt := Some(now))], pending := Idle)
    case EditConfig(config) => s.(config := config)
  }

  // --- what every step keeps ---

  // Drafts are well formed, describe a change of one service, and were confirmed before they were
  // anything more than prepared.
  ghost predicate Sound(d: Draft, confirmations: set<Confirmation>) {
    && Verified(d)
    && d.baseRevision == Fingerprint(d.before)
    && Changes(d.before, d.after, d.operation, d.serviceId)
    && (Safe(d.before) ==> Safe(d.after))
    && (d.status != Prepared ==> Confirmed(d, confirmations))
  }

  ghost predicate Confirmed(d: Draft, confirmations: set<Confirmation>) {
    exists c :: c in confirmations && c.hash == d.proposalHash && c.phrase == d.phrase && c.at <= d.expiresAt
  }

  // One commit's configuration write did exactly what its draft says.
  ghost predicate Authorised(w: ConfigWrite, confirmations: set<Confirmation>) {
    && Sound(w.draft, confirmations)
    && w.draft.status == Approved && w.checkedAt <= w.draft.expiresAt
    && w.before == w.draft.before && w.after == w.draft.after
  }

  ghost predicate DraftsSound(drafts: map<DraftId, Draft>, confirmations: set<Confirmation>) {
    forall id :: id in drafts ==> drafts[id].draftId == id && Sound(drafts[id], confirmations)
  }

  ghost predicate ReviewsSound(reviews: set<Draft>, confirmations: set<Confirmation>) {
    forall d :: d in reviews ==> Sound(d, confirmations)
  }

  ghost predicate PendingSound(pending: Pending, config: Config, confirmations: set<Confirmation>) {
    match pending
    case Idle => true
    case WritingConfig(d, proposed, checkedAt) => Authorised(ConfigWrite(d, config, proposed, checkedAt), confirmations)
    case WritingDraft(d) => Sound(d, confirmations) && d.status == Approved && config == d.after
  }

  ghost predicate WritesSound(writes: seq<ConfigWrite>, confirmations: set<Confirmation>) {
    forall w :: w in writes ==> Authorised(w, confirmations)
  }

  ghost predicate Inv(s: State) {
    && DraftsSound(s.drafts, s.confirmations)
    && ReviewsSound(s.reviews, s.confirmations)
    && PendingSound(s.pending, s.config, s.confirmations)
    && WritesSound(s.writes, s.confirmations)
  }

  lemma {:induction false} SoundStays(d: Draft, confirmations: set<Confirmation>, c: Confirmation)
    requires Sound(d, confirmations)
    ensures Sound(d, confirmations + {c})
  {
    hide Verified, Changes, Safe;
    if d.status != Prepared {
      var k :| k in confirmations && k.hash == d.proposalHash && k.phrase == d.phrase && k.at <= d.expiresAt;
      assert k in confirmations + {c};
    }
  }

  lemma {:induction false} NewDraftIsSound(s: State, request: Request, clean: bool, now: nat)
    requires DraftFor(request.requestId) !in s.drafts && PrepareReply(s, request, clean, now).Success?
    ensures var d := PrepareReply(s, request, clean, now).value;
            Sound(d, s.confirmations) && d.draftId == DraftFor(request.requestId) && d.status == Prepared
  {
    ProposedChanges(s.config, request.operation, request.serviceId, request.service, clean);
    hide Changes, Proposed, Safe;
  }

  lemma {:induction false} ConfirmedDraftIsSound(d: Draft, confirmations: set<Confirmation>, typed: Phrase, now: nat,
                                                 later: nat)
    requires Sound(d, confirmations) && d.status == Prepared && ConfirmReply(d, typed, now, later).Success?
    ensures Sound(ConfirmReply(d, typed, now, later).value, confirmations + {Confirmation(d.proposalHash, typed, now)})
  {
    hide Changes, Safe;
    assert Confirmation(d.proposalHash, typed, now) in confirmations + {Confirmation(d.proposalHash, typed, now)};
  }

  lemma {:induction false} CommittedDraftIsSound(d: Draft, confirmations: set<Confirmation>, now: nat)
    requires Sound(d, confirmations) && d.status == Approved
    ensures Sound(d.(status := Committed, committedAt := Some(now)), confirmations)
  {
    hide Changes, Safe;
    var t := d.(status := Committed, committedAt := Some(now));
    assert Confirmed(t, confirmations);
  }

  lemma {:induction false} StoreSound(drafts: map<DraftId, Draft>, confirmations: set<Confirmation>, d: Draft)
    requires DraftsSound(drafts, confirmations) && Sound(d, confirmations)
    ensures DraftsSound(drafts[d.draftId := d], confirmations)
  {}

  // A change found valid against the base configuration is the recorded one.
  lemma {:induction false} PlanIsSound(s: State, id: DraftId, now: nat, clean: bool, stopped: bool)
    requires Inv(s) && CommitPlan(s, id, now, clean, stopped).Success?
    ensures var p := CommitPlan(s, id, now, clean, stopped).value;
            && PendingSound(p, s.config, s.confirmations)
            && id in s.drafts && s.pending.Idle?
            && (!p.Idle? ==> p.draft == s.drafts[id] && p.draft.draftId == id)
  {
    hide Changes, Safe, Proposed, Confirmed, WritesSound, ReviewsSound;
  }

  lemma {:induction false} MoreConfirmations(s: State, c: Confirmation)
    requires Inv(s)
    ensures Inv(s.(confirmations := s.confirmations + {c}))
  {
    forall d | Sound(d, s.confirmations) ensures Sound(d, s.confirmations + {c}) {
      SoundStays(d, s.confirmations, c);
    }
    hide Sound;
  }

  lemma {:induction false} ConfirmKeepsInv(s: State, step: Step)
    requires Inv(s) && step.Confirm? && Enabled(s, step)
    ensures Inv(Next(s, step))
  {
    var r := ConfirmReply(step.draft, step.typed, step.now, step.later);
    if r.Success? && step.draft.status == Prepared && step.writes {
      var c := Confirmation(step.draft.proposalHash, step.typed, step.now);
      ConfirmedDraftIsSound(step.draft, s.confirmations, step.typed, step.now, step.later);
      MoreConfirmations(s, c);
      StoreSound(s.drafts, s.confirmations + {c}, r.value);
      hide Sound, DraftsSound, ReviewsSound, PendingSound, WritesSound;
    }
  }

  lemma {:induction false} PrepareKeepsInv(s: State, request: Request, clean: bool, now: nat, writes: bool)
    requires Inv(s)
    ensures Inv(Next(s, Prepare(request, clean, now, writes)))
  {
    var r := PrepareReply(s, request, clean, now);
    hide Sound, PrepareReply, DraftsSound, ReviewsSound, PendingSound, WritesSound;
    if DraftFor(request.requestId) !in s.drafts && r.Success? {
      NewDraftIsSound(s, request, clean, now);
      StoreSound(s.drafts, s.confirmations, r.value);
    }
  }

  lemma {:induction false} WriteConfigKeepsInv(s: State, writes: bool)
    requires Inv(s) && s.pending.WritingConfig?
    ensures Inv(Next(s, WriteConfig(writes)))
  {
    hide Sound, DraftsSound, ReviewsSound;
  }

  lemma {:induction false} WriteDraftKeepsInv(s: State, now: nat, writes: bool)
    requires Inv(s) && s.pending.WritingDraft?
    ensures Inv(Next(s, WriteDraft(now, writes)))
  {
    var d := s.pending.draft;
    CommittedDraftIsSound(d, s.confirmations, now);
    StoreSound(s.drafts, s.confirmations, d.(status := Committed, committedAt := Some(now)));
    hide Sound, DraftsSound, ReviewsSound, WritesSound;
  }

  lemma {:induction false} KeepsInv(s: State, step: Step)
    requires Inv(s) && Enabled(s, step)
    ensures Inv(Next(s, step))
  {
    hide Sound, DraftsSound, WritesSound, CommitPlan, PrepareReply, ConfirmReply;
    match step {
      case Prepare(request, clean, now, writes) => PrepareKeepsInv(s, request, clean, now, writes);
      case Review(id) => ReviewKeepsInv(s, id);
      case Confirm(_, _, _, _, _) => ConfirmKeepsInv(s, step);
      case BeginCommit(id, now, clean, stopped) =>
        if CommitPlan(s, id, now, clean, stopped).Success? {
          PlanIsSound(s, id, now, clean, stopped);
        }
      case WriteConfig(writes) => WriteConfigKeepsInv(s, writes);
      case WriteDraft(now, writes) => WriteDraftKeepsInv(s, now, writes);
      case EditConfig(config) =>
    }
  }

  lemma {:induction false} ReviewKeepsInv(s: State, id: DraftId)
    requires Inv(s)
    ensures Inv(Next(s, Review(id)))
  {
    hide Sound, PendingSound, WritesSound;
  }

  // --- every interleaving ---

  function Run(s: State, steps: seq<Step>): State
    decreases |steps|
  {
    if steps == [] then s else Run(Next(s, steps[0]), steps[1..])
  }

  predicate AllEnabled(s: State, steps: seq<Step>)
    decreases |steps|
  {
    steps == [] || (Enabled(s, steps[0]) && AllEnabled(Next(s, steps[0]), steps[1..]))
  }

  lemma {:induction false} RunKeepsInv(s: State, steps: seq<Step>)
    requires Inv(s) && AllEnabled(s, steps)
    ensures Inv(Run(s, steps))
    decreases |steps|
  {
    if steps != [] {
      KeepsInv(s, steps[0]);
      RunKeepsInv(Next(s, steps[0]), steps[1..]);
    }
  }

  function Fresh(config: Config): State {
    State(config, map[], Idle, {}, {}, [])
  }

  // Every configuration write of every interleaving, failed writes and stale approvals included,
  // replaced the draft's base configuration by its after-configuration; the two differ in that one
  // service, as the operation says; and the draft was approved and unexpired, with its own hash-bound
  // phrase typed before it expired.
  lemma {:induction false} EveryWriteIsAuthorised(config: Config, steps: seq<Step>, i: nat)
    requires AllEnabled(Fresh(config), steps)
    requires i < |Run(Fresh(config), steps).writes|
    ensures var s := Run(Fresh(config), steps);
            var w := s.writes[i];
            && Fingerprint(w.before) == w.draft.baseRevision && Fingerprint(w.after) == w.draft.proposedRevision
            && w.after == w.draft.after
            && Changes(w.before, w.after, w.draft.operation, w.draft.serviceId)
            && w.draft.status == Approved && w.checkedAt <= w.draft.expiresAt
            && (exists c :: c in s.confirmations && c.hash == w.draft.proposalHash
                            && c.phrase == Approve(w.draft.serviceId, w.draft.proposalHash) &&
                                c.at <= w.draft.expiresAt)
  {
    RunKeepsInv(Fresh(config), steps);
    hide Run, AllEnabled, Changes, Safe;
    var s := Run(Fresh(config), steps);
    assert s.writes[i] in s.writes;
  }

  // Exactly when a commit goes on to write the configuration. Committed drafts, expired drafts, and
  // retries at the proposed revision are all outside it.
  lemma {:induction false} CommitWritesExactlyWhen(config: Config, steps: seq<Step>, id: DraftId, now: nat, clean: bool,
                                                   stopped: bool)
    requires AllEnabled(Fresh(config), steps)
    ensures var s := Run(Fresh(config), steps);
            var r := CommitPlan(s, id, now, clean, stopped);
            (r.Success? && r.value.WritingConfig?) <==>
              && s.pending.Idle?
              && id in s.drafts
              && var d := s.drafts[id];
              && d.status == Approved && now <= d.expiresAt
              && s.config == d.before && d.before != d.after
              && Safe(s.config) && clean && (d.operation != Register ==> stopped)
  {
    RunKeepsInv(Fresh(config), steps);
    hide Run, AllEnabled, Sound, Safe;
    var s := Run(Fresh(config), steps);
    if id in s.drafts {
      var d := s.drafts[id];
      assert Sound(d, s.confirmations);
      SoundDraftCommits(s, d, now, clean, stopped);
    }
  }

  lemma {:induction false} SoundDraftCommits(s: State, d: Draft, now: nat, clean: bool, stopped: bool)
    requires d.draftId in s.drafts && s.drafts[d.draftId] == d && Sound(d, s.confirmations)
    ensures var r := CommitPlan(s, d.draftId, now, clean, stopped);
            (r.Success? && r.value.WritingConfig?) <==>
              && s.pending.Idle? && d.status == Approved && now <= d.expiresAt
              && s.config == d.before && d.before != d.after
              && Safe(s.config) && clean && (d.operation != Register ==> stopped)
  {
    if s.config == d.before && Safe(s.config) {
      RevalidationAgrees(d, s.confirmations, clean);
    }
    hide Changes, Proposed, Safe, Confirmed;
  }

  // Validating a sound draft's own service against its base configuration yields its proposal again.
  lemma {:induction false} RevalidationAgrees(d: Draft, confirmations: set<Confirmation>, clean: bool)
    requires Sound(d, confirmations) && Safe(d.before)
    ensures d.operation != Unregister ==> d.serviceId in d.after.services
    ensures var service := if d.operation == Unregister then None else Some(d.after.services[d.serviceId]);
            Proposed(d.before, d.operation, d.serviceId, service, clean) == Success((d.after, clean))
  {
    hide Verified, Confirmed;
    if d.operation == Unregister {
      assert d.after.services == d.before.services - {d.serviceId};
    } else {
      assert d.after.services == d.before.services[d.serviceId := d.after.services[d.serviceId]];
    }
  }

  // A commit whose configuration write succeeds, undisturbed up to its draft write.
  function Committing(s: State, id: DraftId, now: nat, clean: bool, stopped: bool, later: nat, written: bool): State {
    var begun := Next(s, BeginCommit(id, now, clean, stopped));
    var configured := Next(begun, WriteConfig(true));
    Next(configured, WriteDraft(later, written))
  }

  ghost predicate WillWrite(s: State, id: DraftId, now: nat, clean: bool, stopped: bool) {
    var r := CommitPlan(s, id, now, clean, stopped);
    r.Success? && r.value.WritingConfig?
  }

  // It puts the draft's after-configuration in place and, if the draft write succeeds, closes the draft.
  lemma {:induction false} CommitCompletes(s: State, id: DraftId, now: nat, clean: bool, stopped: bool, later: nat,
                                           written: bool)
    requires Inv(s) && WillWrite(s, id, now, clean, stopped)
    ensures id in s.drafts
    ensures var t := Committing(s, id, now, clean, stopped, later, written);
            var d := s.drafts[id];
            && t.pending.Idle? && t.config == d.after
            && t.writes == s.writes + [ConfigWrite(d, d.before, d.after, now)]
            && t.drafts == (if written then s.drafts[id := d.(status := Committed, committedAt := Some(later))]
                else s.drafts)
  {
    hide Inv, Changes, Proposed, Confirmed, PrepareReply, ConfirmReply, CommitPlan, DraftsSound, Load;
    PlanIsSound(s, id, now, clean, stopped);
    PlanIsReady(s, id, now, clean, stopped);
    var d := s.drafts[id];
    var s1 := Next(s, BeginCommit(id, now, clean, stopped));
    assert Next(s1, WriteConfig(true)) ==
           s1.(config := d.after, pending := WritingDraft(d), writes := s.writes +
               [ConfigWrite(d, d.before, d.after, now)]);
  }

  // Asked again it has nothing to do, or only the draft to write: the configuration is left alone.
  lemma {:induction false} RetryFinishes(s: State, id: DraftId, now: nat, clean: bool, stopped: bool, later: nat,
                                         written: bool,
                                         retryAt: nat, retryClean: bool, retryStopped: bool)
    requires Inv(s) && WillWrite(s, id, now, clean, stopped)
    ensures id in s.drafts
    ensures CommitPlan(Committing(s, id, now, clean, stopped, later, written), id, retryAt, retryClean, retryStopped) ==
            if written then Success(Idle)
            else if retryAt > s.drafts[id].expiresAt then Failure(DraftExpired)
            else Success(WritingDraft(s.drafts[id]))
  {
    hide Inv, Changes, Proposed, Confirmed, PrepareReply, ConfirmReply, CommitPlan, DraftsSound, Load, Committing;
    CommitCompletes(s, id, now, clean, stopped, later, written);
    PlanIsSound(s, id, now, clean, stopped);
    PlanIsReady(s, id, now, clean, stopped);
    RetryPlan(Committing(s, id, now, clean, stopped, later, written), id, retryAt, retryClean, retryStopped);
  }

  lemma {:induction false} PlanIsReady(s: State, id: DraftId, now: nat, clean: bool, stopped: bool)
    requires WillWrite(s, id, now, clean, stopped)
    ensures Safe(s.config) && CommitPlan(s, id, now, clean, stopped).value.checkedAt == now
  {}

  // Asked again with the configuration already at the proposed revision.
  lemma {:induction false} RetryPlan(t: State, id: DraftId, now: nat, clean: bool, stopped: bool)
    requires t.pending.Idle? && id in t.drafts && Verified(t.drafts[id]) && t.drafts[id].status != Prepared
    requires t.config == t.drafts[id].after && Safe(t.config)
    ensures CommitPlan(t, id, now, clean, stopped) ==
            if t.drafts[id].status == Committed then Success(Idle)
            else if now > t.drafts[id].expiresAt then Failure(DraftExpired) else Success(WritingDraft(t.drafts[id]))
  {}

  // --- how long a committed draft stays committed ---

  // The one way back: a confirmation of a copy that was read while the draft was still prepared.
  lemma {:induction false} CommittedIsUndoneExactlyBy(s: State, step: Step, id: DraftId)
    requires Inv(s) && Enabled(s, step) && id in s.drafts && s.drafts[id].status == Committed
    ensures id in Next(s, step).drafts
    ensures Next(s, step).drafts[id].status != Committed <==>
              && step.Confirm? && step.draft.draftId == id && step.draft.status == Prepared
              && step.now <= step.draft.expiresAt && step.typed == step.draft.phrase && step.writes
  {
    hide Sound, Authorised, Confirmed, CommitPlan, PrepareReply;
  }

  // The confirmed copy is what the store holds: nothing happened to the draft while the human read it.
  predicate Atomic(s: State, step: Step) {
    step.Confirm? ==> step.draft.draftId in s.drafts && s.drafts[step.draft.draftId] == step.draft
  }

  predicate AllAtomic(s: State, steps: seq<Step>)
    decreases |steps|
  {
    steps == [] || (Atomic(s, steps[0]) && AllAtomic(Next(s, steps[0]), steps[1..]))
  }

  // A commit in progress works on the draft as it is stored.
  ghost predicate PendingIsStored(s: State) {
    !s.pending.Idle? ==> s.pending.draft.draftId in s.drafts && s.drafts[s.pending.draft.draftId] == s.pending.draft
  }

  lemma {:induction false} AtomicStep(s: State, step: Step)
    requires Inv(s) && Enabled(s, step) && Atomic(s, step) && PendingIsStored(s)
    ensures PendingIsStored(Next(s, step))
    ensures forall id :: id in s.drafts && s.drafts[id].status == Committed ==> StaysCommitted(s, Next(s, step), id)
  {
    var t := Next(s, step);
    hide Inv, CommitPlan, PrepareReply, ConfirmReply, Load, Run, AllEnabled, Next, Atomic, StaysCommitted;
    AtomicKeepsPending(s, step);
    forall id | id in s.drafts && s.drafts[id].status == Committed ensures StaysCommitted(s, t, id) {
      AtomicKeepsCommitted(s, step, id);
    }
  }

  lemma {:induction false} AtomicKeepsPending(s: State, step: Step)
    requires Inv(s) && Enabled(s, step) && Atomic(s, step) && PendingIsStored(s)
    ensures PendingIsStored(Next(s, step))
  {
    hide Inv, CommitPlan, PrepareReply, Load, Verified, PendingSound;
    if step.BeginCommit? && CommitPlan(s, step.id, step.now, step.clean, step.stopped).Success? {
      PlanIsSound(s, step.id, step.now, step.clean, step.stopped);
    }
    PendingIsApproved(s);
  }

  lemma {:induction false} AtomicKeepsCommitted(s: State, step: Step, id: DraftId)
    requires Inv(s) && Enabled(s, step) && Atomic(s, step) && PendingIsStored(s)
    requires id in s.drafts && s.drafts[id].status == Committed
    ensures StaysCommitted(s, Next(s, step), id)
  {
    hide Next, Inv, Enabled;
    CommittedIsUndoneExactlyBy(s, step, id);
    NewWrites(s, step);
    PendingIsApproved(s);
  }

  lemma {:induction false} PendingIsApproved(s: State)
    requires Inv(s)
    ensures !s.pending.Idle? ==> s.pending.draft.status == Approved
  {}

  lemma {:induction false} NewWrites(s: State, step: Step)
    ensures var t := Next(s, step);
            t.writes == s.writes
            || (s.pending.WritingConfig? && |t.writes| == |s.writes| + 1
                && t.writes == s.writes + [t.writes[|s.writes|]] && t.writes[|s.writes|].draft == s.pending.draft)
  {
    hide PrepareReply, ConfirmReply, CommitPlan, Load;
  }

  // Still committed, and not written for in the meantime.
  ghost predicate StaysCommitted(s: State, t: State, id: DraftId) {
    && id in t.drafts && t.drafts[id].status == Committed
    && s.writes <= t.writes
    && forall i :: |s.writes| <= i < |t.writes| ==> t.writes[i].draft.draftId != id
  }

  lemma {:induction false} AtomicRun(s: State, steps: seq<Step>, id: DraftId)
    requires Inv(s) && AllEnabled(s, steps) && AllAtomic(s, steps) && PendingIsStored(s)
    ensures PendingIsStored(Run(s, steps))
    ensures id in s.drafts && s.drafts[id].status == Committed ==> StaysCommitted(s, Run(s, steps), id)
    decreases |steps|
  {
    hide Next, Inv, Enabled, Atomic, PendingIsStored;
    if steps != [] {
      var t := Next(s, steps[0]);
      KeepsInv(s, steps[0]);
      AtomicStep(s, steps[0]);
      AtomicRun(t, steps[1..], id);
    }
  }

  // With approvals that are not overtaken, a draft seen committed stays committed, and no commit
  // writes the configuration on its behalf again.
  lemma {:induction false} CommittedIsFinal(config: Config, earlier: seq<Step>, later: seq<Step>, id: DraftId)
    requires AllEnabled(Fresh(config), earlier) && AllAtomic(Fresh(config), earlier)
    requires var s := Run(Fresh(config), earlier);
             && AllEnabled(s, later) && AllAtomic(s, later)
             && id in s.drafts && s.drafts[id].status == Committed
    ensures var s := Run(Fresh(config), earlier);
            StaysCommitted(s, Run(s, later), id)
  {
    RunKeepsInv(Fresh(config), earlier);
    AtomicRun(Fresh(config), earlier, id);
    hide Run, AllEnabled, AllAtomic, StaysCommitted;
    AtomicRun(Run(Fresh(config), earlier), later, id);
  }

  // Without that, it can happen: a second approval of a copy read before the first one reopens a
  // committed draft, and after the configuration is put back by hand the draft is written again.
  lemma {:induction false} OvertakenApprovalReopens() returns (earlier: seq<Step>, later: seq<Step>, id: DraftId)
    ensures var s := Run(Fresh(EMPTY), earlier);
            var t := Run(s, later);
            && AllEnabled(Fresh(EMPTY), earlier) && AllAtomic(Fresh(EMPTY), earlier) && AllEnabled(s, later)
            && id in s.drafts && s.drafts[id].status == Committed
            && |t.writes| == 2 && t.writes[0].draft.draftId == id && t.writes[1].draft.draftId == id
  {
    id := WEB.draftId;
    Approval();
    Commit();
    SecondCommit();
    var s0 := Fresh(EMPTY);
    RunConcat(s0, APPROVAL, COMMIT);
    earlier, later := APPROVAL + COMMIT, SECOND;
    hide Run, AllEnabled, AllAtomic;
    assert id in AFTER_FIRST.drafts;
  }

  const EMPTY := Config("", map[])
  const WITH_WEB := Config("", map["web" := Service("", false)])
  const REQUEST := Request("r", Register, "web", Fingerprint(EMPTY), Some(Service("", false)))
  const WEB := DraftOf(REQUEST, EMPTY, WITH_WEB, 0)
  const WEB_APPROVED := WEB.(status := Approved, approvedAt := Some(0))
  const WEB_COMMITTED := WEB_APPROVED.(status := Committed, committedAt := Some(0))
  const TYPED := Confirmation(WEB.proposalHash, WEB.phrase, 0)
  const WRITTEN := ConfigWrite(WEB_APPROVED, EMPTY, WITH_WEB, 0)
  const ONCE_APPROVED := State(EMPTY, map[WEB.draftId := WEB_APPROVED], Idle, {WEB}, {TYPED}, [])
  const AFTER_FIRST := State(WITH_WEB, map[WEB.draftId := WEB_COMMITTED], Idle, {WEB}, {TYPED}, [WRITTEN])
  const APPROVE_WEB := Confirm(WEB, WEB.phrase, 0, 0, true)
  const COMMIT_WEB := BeginCommit(WEB.draftId, 0, true, true)
  const APPROVAL := [Prepare(REQUEST, true, 0, true), Review(WEB.draftId), APPROVE_WEB]
  const COMMIT := [COMMIT_WEB, WriteConfig(true), WriteDraft(0, true)]
  const SECOND := [EditConfig(EMPTY), APPROVE_WEB, COMMIT_WEB, WriteConfig(true)]

  lemma {:induction false} Approval()
    ensures AllEnabled(Fresh(EMPTY), APPROVAL) && AllAtomic(Fresh(EMPTY), APPROVAL)
    ensures Run(Fresh(EMPTY), APPROVAL) == ONCE_APPROVED
  {
    ThreeSteps(Fresh(EMPTY), APPROVAL);
    hide Run, AllEnabled, AllAtomic, CommitPlan, Load, Proposed, PrepareReply, ConfirmReply, Verified;
    var s0 := Fresh(EMPTY);
    var s1 := Next(s0, APPROVAL[0]);
    PrepareWeb();
    assert s1 == s0.(drafts := map[WEB.draftId := WEB]);
    LoadWeb(s1.drafts);
    assert Next(s1, APPROVAL[1]) == s1.(reviews := {WEB});
    ApproveWeb();
  }

  lemma {:induction false} Commit()
    ensures AllEnabled(ONCE_APPROVED, COMMIT) && AllAtomic(ONCE_APPROVED, COMMIT)
    ensures Run(ONCE_APPROVED, COMMIT) == AFTER_FIRST
  {
    ThreeSteps(ONCE_APPROVED, COMMIT);
    hide Run, AllEnabled, AllAtomic, CommitPlan, Load, Proposed, PrepareReply, ConfirmReply, Verified;
    CommitOfWeb(ONCE_APPROVED);
    var s1 := ONCE_APPROVED.(pending := WritingConfig(WEB_APPROVED, WITH_WEB, 0));
    assert Next(ONCE_APPROVED, COMMIT[0]) == s1;
    var s2 := s1.(config := WITH_WEB, pending := WritingDraft(WEB_APPROVED), writes := [WRITTEN]);
    assert Next(s1, COMMIT[1]) == s2;
  }

  lemma {:induction false} PrepareWeb()
    ensures PrepareReply(Fresh(EMPTY), REQUEST, true, 0) == Success(WEB)
  {
    assert EMPTY.services["web" := Service("", false)] == WITH_WEB.services;
    assert Proposed(EMPTY, Register, "web", Some(Service("", false)), true) == Success((WITH_WEB, true));
  }

  lemma {:induction false} LoadWeb(drafts: map<DraftId, Draft>)
    requires drafts == map[WEB.draftId := WEB]
    ensures Load(drafts, WEB.draftId) == Success(WEB)
  {
    assert Verified(WEB);
  }

  lemma {:induction false} ApproveWeb()
    ensures ConfirmReply(WEB, WEB.phrase, 0, 0) == Success(WEB_APPROVED)
  {}

  lemma {:induction false} CommitOfWeb(s: State)
    requires s.config == EMPTY && s.pending.Idle? && s.drafts == map[WEB.draftId := WEB_APPROVED]
    ensures CommitPlan(s, WEB.draftId, 0, true, true) == Success(WritingConfig(WEB_APPROVED, WITH_WEB, 0))
  {
    assert WEB_APPROVED.after == WITH_WEB && WEB_APPROVED.proposedRevision == Fingerprint(WITH_WEB);
    assert Verified(WEB_APPROVED) && Load(s.drafts, WEB.draftId) == Success(WEB_APPROVED);
    assert "web" in WITH_WEB.services && "web" !in EMPTY.services;
    assert EMPTY.services["web" := Service("", false)] == WITH_WEB.services;
    assert Proposed(EMPTY, Register, "web", Some(Service("", false)), true) == Success((WITH_WEB, true));
  }

  lemma {:induction false} SecondCommit()
    ensures AllEnabled(AFTER_FIRST, SECOND)
    ensures Run(AFTER_FIRST, SECOND).writes == [WRITTEN, WRITTEN]
  {
    hide Run, AllEnabled, AllAtomic, CommitPlan, Load, Proposed, PrepareReply, ConfirmReply, Verified;
    OneStep(AFTER_FIRST, SECOND);
    var s1 := AFTER_FIRST.(config := EMPTY);
    assert Next(AFTER_FIRST, SECOND[0]) == s1;
    ThreeSteps(s1, SECOND[1..]);
    ApproveWeb();
    var s2 := s1.(drafts := map[WEB.draftId := WEB_APPROVED]);
    assert Next(s1, SECOND[1]) == s2;
    CommitOfWeb(s2);
    var s3 := s2.(pending := WritingConfig(WEB_APPROVED, WITH_WEB, 0));
    assert Next(s2, SECOND[2]) == s3;
  }

  lemma {:induction false} RunConcat(s: State, first: seq<Step>, second: seq<Step>)
    ensures Run(s, first + second) == Run(Run(s, first), second)
    ensures AllEnabled(s, first + second) <==> AllEnabled(s, first) && AllEnabled(Run(s, first), second)
    ensures AllAtomic(s, first + second) <==> AllAtomic(s, first) && AllAtomic(Run(s, first), second)
    decreases |first|
  {
    if first == [] {
      assert first + second == second;
    } else {
      assert (first + second)[1..] == first[1..] + second;
      RunConcat(Next(s, first[0]), first[1..], second);
    }
  }

  lemma {:induction false} ThreeSteps(s: State, steps: seq<Step>)
    requires |steps| == 3
    ensures var s1 := Next(s, steps[0]);
            var s2 := Next(s1, steps[1]);
            && Run(s, steps) == Next(s2, steps[2])
            && (AllEnabled(s, steps) <==> Enabled(s, steps[0]) && Enabled(s1, steps[1]) && Enabled(s2, steps[2]))
            && (AllAtomic(s, steps) <==> Atomic(s, steps[0]) && Atomic(s1, steps[1]) && Atomic(s2, steps[2]))
  {
    hide Next, Enabled, Atomic;
    var s1 := Next(s, steps[0]);
    OneStep(s, steps);
    OneStep(s1, steps[1..]);
    OneStep(Next(s1, steps[1]), steps[2..]);
  }

  lemma {:induction false} OneStep(s: State, steps: seq<Step>)
    requires steps != []
    ensures Run(s, steps) == Run(Next(s, steps[0]), steps[1..])
    ensures AllEnabled(s, steps) <==> Enabled(s, steps[0]) && AllEnabled(Next(s, steps[0]), steps[1..])
    ensures AllAtomic(s, steps) <==> Atomic(s, steps[0]) && AllAtomic(Next(s, steps[0]), steps[1..])
    ensures |steps| > 1 ==> steps[1..][1..] == steps[2..]
  {}

  // --- what prepare, approve and commit answer, in terms of the files ---

  // A repeated request is recognised exactly when it asks for the stored proposal again.
  lemma {:induction false} MatchesExactly(request: Request, d: Draft, confirmations: set<Confirmation>, clean: bool)
    requires Sound(d, confirmations) && request.requestId == d.requestId
    ensures Matches(request, d) <==>
              && request.baseRevision == d.baseRevision
              && var r := Proposed(d.before, request.operation, request.serviceId, request.service, clean);
              && r.Success?
              && HashOf(Proposal(request.requestId, request.operation, request.serviceId, request.baseRevision,
                                 Fingerprint(r.value.0), r.value.0)) == d.proposalHash
  {
    hide Confirmed;
    if Matches(request, d) {
      if d.operation == Unregister {
        assert d.after.services == d.before.services - {d.serviceId};
      } else {
        assert d.after.services == d.before.services[d.serviceId := request.service.value];
      }
    }
  }

  // A stored draft answers for its request id: with itself when the request asks for it again.
  lemma {:induction false} StoredDraftAnswers(s: State, request: Request, clean: bool, now: nat)
    requires Inv(s) && DraftFor(request.requestId) in s.drafts
    ensures var d := s.drafts[DraftFor(request.requestId)];
            var again := Proposed(d.before, request.operation, request.serviceId, request.service, clean);
            PrepareReply(s, request, clean, now) ==
            if !s.pending.Idle? then Failure(TransactionInProgress)
            else if && request.baseRevision == d.baseRevision && again.Success?
                    && HashOf(Proposal(request.requestId, request.operation, request.serviceId, request.baseRevision,
                                       Fingerprint(again.value.0), again.value.0)) == d.proposalHash
            then Success(d) else Failure(RequestIdConflict)
    ensures forall writes :: Next(s, Prepare(request, clean, now, writes)) == s
  {
    var d := s.drafts[DraftFor(request.requestId)];
    assert Sound(d, s.confirmations);
    hide Changes, Safe, Confirmed, Proposed, Matches;
    MatchesExactly(request, d, s.confirmations, clean);
  }

  // What a commit answers, in terms of the draft, the configuration and the verdicts alone: checking the
  // change once more never fails for another reason than the checks on files.
  lemma {:induction false} CommitDecides(s: State, id: DraftId, now: nat, clean: bool, stopped: bool)
    requires Inv(s)
    ensures CommitPlan(s, id, now, clean, stopped) ==
            if !s.pending.Idle? then Failure(TransactionInProgress)
            else if id !in s.drafts then Failure(DraftNotFound)
            else
              var d := s.drafts[id];
              if d.status == Committed then Success(Idle)
              else if d.status == Prepared then Failure(ApprovalRequired)
              else if now > d.expiresAt then Failure(DraftExpired)
              else if exists x :: x in s.config.services && s.config.services[x].sensitive
                then Failure(SensitiveEnvironment)
              else if s.config == d.after then Success(WritingDraft(d))
              else if s.config != d.before then Failure(RevisionConflict)
              else if d.operation != Register && !stopped then Failure(MustBeStopped)
              else if !clean then Failure(ValidationFailed)
              else Success(WritingConfig(d, d.after, now))
  {
    if id in s.drafts {
      var d := s.drafts[id];
      assert Sound(d, s.confirmations);
      if s.config == d.before && Safe(s.config) {
        RevalidationAgrees(d, s.confirmations, clean);
      }
    }
    hide Changes, Proposed, Confirmed;
  }

  // --- a proposal once stored is never replaced ---

  ghost predicate SameOffer(d: Draft, e: Draft) {
    d == e.(status := d.status, approvedAt := d.approvedAt, committedAt := d.committedAt)
  }

  // Every copy of a draft in anyone's hands offers what the stored one does.
  ghost predicate CopiesAgree(s: State) {
    && (forall d :: d in s.reviews ==> d.draftId in s.drafts && SameOffer(d, s.drafts[d.draftId]))
    && (!s.pending.Idle? ==>
          s.pending.draft.draftId in s.drafts && SameOffer(s.pending.draft, s.drafts[s.pending.draft.draftId]))
  }

  ghost predicate OffersStay(s: State, t: State) {
    forall id :: id in s.drafts ==> id in t.drafts && SameOffer(t.drafts[id], s.drafts[id])
  }

  lemma {:induction false} StoreOffer(s: State, t: State, d: Draft)
    requires CopiesAgree(s) && t.reviews == s.reviews && t.drafts == s.drafts[d.draftId := d]
    requires d.draftId in s.drafts ==> SameOffer(d, s.drafts[d.draftId])
    requires t.pending.Idle? || t.pending == s.pending
    ensures CopiesAgree(t) && OffersStay(s, t)
  {}

  lemma {:induction false} StepKeepsOffers(s: State, step: Step)
    requires Inv(s) && Enabled(s, step) && CopiesAgree(s)
    ensures CopiesAgree(Next(s, step)) && OffersStay(s, Next(s, step))
  {
    hide CopiesAgree, OffersStay, Inv, Next, PrepareReply, CommitPlan, ConfirmReply;
    match step {
      case Prepare(request, clean, now, writes) => PrepareKeepsOffers(s, request, clean, now, writes);
      case Review(id) => ReviewKeepsOffers(s, id);
      case Confirm(draft, typed, now, later, writes) => ConfirmKeepsOffers(s, step);
      case _ => CommitKeepsOffers(s, step);
    }
  }

  lemma {:induction false} PrepareKeepsOffers(s: State, request: Request, clean: bool, now: nat, writes: bool)
    requires Inv(s) && CopiesAgree(s)
    ensures var t := Next(s, Prepare(request, clean, now, writes)); CopiesAgree(t) && OffersStay(s, t)
  {
    var r := PrepareReply(s, request, clean, now);
    hide PrepareReply, Inv, Sound;
    if DraftFor(request.requestId) !in s.drafts && r.Success? && writes {
      NewDraftIsSound(s, request, clean, now);
      StoreOffer(s, Next(s, Prepare(request, clean, now, writes)), r.value);
    }
  }

  lemma {:induction false} ReviewKeepsOffers(s: State, id: DraftId)
    requires Inv(s) && CopiesAgree(s)
    ensures var t := Next(s, Review(id)); CopiesAgree(t) && OffersStay(s, t)
  {
    hide Sound, PendingSound, WritesSound, Verified;
  }

  lemma {:induction false} ConfirmKeepsOffers(s: State, step: Step)
    requires CopiesAgree(s) && step.Confirm? && Enabled(s, step)
    ensures CopiesAgree(Next(s, step)) && OffersStay(s, Next(s, step))
  {
    var r := ConfirmReply(step.draft, step.typed, step.now, step.later);
    if r.Success? && step.draft.status == Prepared && step.writes {
      hide OffersStay;
      StoreOffer(s, Next(s, step), r.value);
    }
  }

  lemma {:induction false} CommitKeepsOffers(s: State, step: Step)
    requires Inv(s) && CopiesAgree(s) && Enabled(s, step)
    requires step.BeginCommit? || step.WriteConfig? || step.WriteDraft? || step.EditConfig?
    ensures CopiesAgree(Next(s, step)) && OffersStay(s, Next(s, step))
  {
    hide CommitPlan, Inv;
    if step.BeginCommit? && CommitPlan(s, step.id, step.now, step.clean, step.stopped).Success? {
      PlanIsSound(s, step.id, step.now, step.clean, step.stopped);
    }
    if step.WriteDraft? && step.writes {
      hide OffersStay;
      StoreOffer(s, Next(s, step), s.pending.draft.(status := Committed, committedAt := Some(step.now)));
    }
  }

  lemma {:induction false} RunKeepsOffers(s: State, steps: seq<Step>)
    requires Inv(s) && CopiesAgree(s) && AllEnabled(s, steps)
    ensures CopiesAgree(Run(s, steps)) && OffersStay(s, Run(s, steps))
    decreases |steps|
  {
    hide Next, Inv, Enabled, CopiesAgree;
    if steps != [] {
      KeepsInv(s, steps[0]);
      StepKeepsOffers(s, steps[0]);
      RunKeepsOffers(Next(s, steps[0]), steps[1..]);
    }
  }

  // Over every interleaving: a request once prepared is answered again with its draft, whatever became
  // of it, and the draft still offers what was first answered.
  lemma {:induction false} PrepareRepeats(config: Config, earlier: seq<Step>, request: Request, clean: bool, now: nat,
                                          later: seq<Step>, cleanAgain: bool, nowAgain: nat)
    requires AllEnabled(Fresh(config), earlier)
    requires PrepareReply(Run(Fresh(config), earlier), request, clean, now).Success?
    requires AllEnabled(Next(Run(Fresh(config), earlier), Prepare(request, clean, now, true)), later)
    ensures var first := PrepareReply(Run(Fresh(config), earlier), request, clean, now).value;
            var t := Run(Next(Run(Fresh(config), earlier), Prepare(request, clean, now, true)), later);
            && DraftFor(request.requestId) in t.drafts
            && SameOffer(t.drafts[DraftFor(request.requestId)], first)
            && (t.pending.Idle? ==>
                  PrepareReply(t, request, cleanAgain, nowAgain) == Success(t.drafts[DraftFor(request.requestId)]))
  {
    RunKeepsInv(Fresh(config), earlier);
    RunKeepsOffers(Fresh(config), earlier);
    hide Run, AllEnabled, Next, Inv, CopiesAgree, SameOffer, PrepareReply;
    var s := Run(Fresh(config), earlier);
    PreparedIsStored(s, request, clean, now);
    StaysPrepared(Next(s, Prepare(request, clean, now, true)), request, PrepareReply(s, request, clean, now).value,
                  later, cleanAgain, nowAgain);
  }

  lemma {:induction false} PreparedIsStored(s: State, request: Request, clean: bool, now: nat)
    requires Inv(s) && CopiesAgree(s) && PrepareReply(s, request, clean, now).Success?
    ensures var t := Next(s, Prepare(request, clean, now, true));
            var id := DraftFor(request.requestId);
            && Inv(t) && CopiesAgree(t) && id in t.drafts
            && t.drafts[id] == PrepareReply(s, request, clean, now).value && Matches(request, t.drafts[id])
  {
    PreparedMatches(s, request, clean, now);
    hide Inv, CopiesAgree, PrepareReply, Matches, OffersStay;
    KeepsInv(s, Prepare(request, clean, now, true));
    StepKeepsOffers(s, Prepare(request, clean, now, true));
  }

  lemma {:induction false} StaysPrepared(s: State, request: Request, first: Draft, later: seq<Step>, clean: bool,
                                         now: nat)
    requires Inv(s) && CopiesAgree(s) && AllEnabled(s, later)
    requires DraftFor(request.requestId) in s.drafts && s.drafts[DraftFor(request.requestId)] == first
    requires Matches(request, first)
    ensures var t := Run(s, later);
            var id := DraftFor(request.requestId);
            && id in t.drafts && SameOffer(t.drafts[id], first)
            && (t.pending.Idle? ==> PrepareReply(t, request, clean, now) == Success(t.drafts[id]))
  {
    RunKeepsInv(s, later);
    RunKeepsOffers(s, later);
    hide Run, AllEnabled, Inv, CopiesAgree, SameOffer, PrepareReply, Matches;
    var t := Run(s, later);
    MatchesOffer(request, first, t.drafts[DraftFor(request.requestId)]);
    if t.pending.Idle? {
      StoredAnswer(t, request, clean, now);
    }
  }

  lemma {:induction false} PreparedMatches(s: State, request: Request, clean: bool, now: nat)
    requires Inv(s) && PrepareReply(s, request, clean, now).Success?
    ensures var d := PrepareReply(s, request, clean, now).value;
            && Matches(request, d)
            && Next(s, Prepare(request, clean, now, true)).drafts[DraftFor(request.requestId)] == d
  {
    hide Safe, Verified, DraftsSound;
  }

  lemma {:induction false} StoredAnswer(s: State, request: Request, clean: bool, now: nat)
    requires Inv(s) && s.pending.Idle? && DraftFor(request.requestId) in s.drafts
    requires Matches(request, s.drafts[DraftFor(request.requestId)])
    ensures PrepareReply(s, request, clean, now) == Success(s.drafts[DraftFor(request.requestId)])
  {
    hide Changes, Safe, Confirmed, Proposed, Matches;
    assert Sound(s.drafts[DraftFor(request.requestId)], s.confirmations);
  }

  lemma {:induction false} MatchesOffer(request: Request, d: Draft, e: Draft)
    requires Matches(request, d) && SameOffer(e, d)
    ensures Matches(request, e)
  {}
}
