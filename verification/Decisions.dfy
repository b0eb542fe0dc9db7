/** The resource row, the sync policy, and the decision and dispatch compiler
    (v5_sync_decisions.py, v5_resource_governance.py, v5_workspace.py, v5_resource_status.py). */
module Decisions {
  import opened Options
  import opened Text
  import opened Strategy

  /** Why a resource is blocked: the two texts the executor writes, or another. */
  datatype BlockReason = BotNotInChatReason | CalendarNeedsUserReason | OtherReason(text: string)

  /** The "governance" entry of a resource's config_json: the keys the block writes, the keys the
      owner's decision writes, and whatever else is there. */
  datatype Governance =
    | NoGovernance
    | Governance(
        status: Option<string>,
        reason: Option<BlockReason>,
        errorMessage: Option<string>,
        updatedAt: Option<string>,
        decision: Option<string>,
        decisionLabel: Option<string>,
        decisionNote: Option<string>,
        decisionAt: Option<string>,
        rest: map<string, string>)

  const EMPTY_GOVERNANCE := Governance(None, None, None, None, None, None, None, None, map[])

  /** A row of `resources`. A NULL text column is the empty string: every use tests truthiness. */
  datatype Resource = Resource(
    company: nat,
    platform: string,
    resourceType: string,
    resourceId: string,
    subId: string,
    enabled: bool,
    createdAt: int,
    lastSync: Option<int>,
    appConfig: Option<nat>,
    folderId: string,
    documentType: string,
    governance: Governance)

  /** A sync policy; an absent mode is the empty string, an absent list the empty list. */
  datatype Policy = Policy(
    largeDocumentMode: string,
    bitableMode: string,
    resourceTypes: seq<string>,
    statuses: seq<string>,
    limitResources: int,
    intervalSeconds: int)

  function Or(value: string, otherwise: string): string {
    if value != "" then value else otherwise
  }

  /** The policy sync_v5_resource builds from its own arguments: the modes and nothing else. */
  function ModesOnly(p: Policy): Policy {
    Policy(p.largeDocumentMode, p.bitableMode, [], [], 0, 0)
  }

  function AccessStatus(g: Governance): string {
    if g.Governance? && g.status.Some? then g.status.value else ""
  }

  /** ACCESS_BLOCKED_STATUSES. */
  predicate BlockedStatus(status: string) {
    status == "bot_not_in_chat" || status == "access_denied" || status == "requires_user_authorization"
  }

  predicate Blocked(r: Resource) {
    BlockedStatus(AccessStatus(r.governance))
  }

  /** _has_redacted_identifier, for one value. The program tests five markers; each ends in this one. */
  predicate Redacted(value: string) {
    Contains(value, "_REDACTED]")
  }

  /** The one marker stands for all five. */
  lemma AnyMarkerIsRedaction(value: string)
    ensures Redacted(value) <==>
            || Contains(value, "[PHONE_REDACTED]") || Contains(value, "[EMAIL_REDACTED]")
            || Contains(value, "[TOKEN_REDACTED]") || Contains(value, "[SECRET_REDACTED]")
            || Contains(value, "_REDACTED]")
  {
    var fronts := ["[PHONE", "[EMAIL", "[TOKEN", "[SECRET"];
    assert fronts[0] + "_REDACTED]" == "[PHONE_REDACTED]" && fronts[1] + "_REDACTED]" == "[EMAIL_REDACTED]";
    assert fronts[2] + "_REDACTED]" == "[TOKEN_REDACTED]" && fronts[3] + "_REDACTED]" == "[SECRET_REDACTED]";
    forall front <- fronts | Contains(value, front + "_REDACTED]") ensures Contains(value, "_REDACTED]") {
      ContainsSuffixOfPart(value, front, "_REDACTED]");
    }
  }

  datatype IdentifierIssue = NoIssue | MissingIdentifier | RequiresUserAuthorization

  function KindFor(r: Resource): Kind {
    NormalizeType(r.resourceType, r.resourceId)
  }

  /** _resource_identifier_issue. */
  function IssueOf(r: Resource): IdentifierIssue {
    var id, sub := Strip(r.resourceId), Strip(r.subId);
    match KindFor(r)
    case Chat => if id == "" then MissingIdentifier else NoIssue
    case Approval => if id == "" then MissingIdentifier else NoIssue
    case Mailbox => if id == "" || (sub == "" && r.folderId == "") then MissingIdentifier else NoIssue
    case Bitable => if id == "" || sub == "" then MissingIdentifier else NoIssue
    case Doc => if id == "" then MissingIdentifier else NoIssue
    case Wiki => if id == "" then MissingIdentifier else NoIssue
    case Calendar => if Lower(id) == "feishu:calendar" then RequiresUserAuthorization else NoIssue
    case _ => NoIssue
  }

  datatype DecisionStatus =
    | Disabled | Unsupported | NeedsReview | AccessBlocked | PolicyExcluded | SkippedByPolicy | Ready

  datatype Decision = Decision(kind: Kind, plan: Plan, status: DecisionStatus, typeAllowed: bool) {
    predicate Executable() { status == Ready }
    predicate AutoSyncAllowed() { Executable() && typeAllowed }
  }

  predicate TypeAllowed(r: Resource, allowed: seq<string>) {
    allowed == [] || KindName(KindFor(r)) in allowed || r.resourceType in allowed
  }

  function StatusOf(r: Resource, typeAllowed: bool, action: Action): DecisionStatus {
    if !r.enabled then Disabled
    else if r.platform != "" && r.platform != "feishu" then Unsupported
    else if Redacted(r.resourceId) || Redacted(r.subId) then NeedsReview
    else if IssueOf(r) == RequiresUserAuthorization then AccessBlocked
    else if IssueOf(r) == MissingIdentifier then NeedsReview
    else if Blocked(r) then AccessBlocked
    else if !typeAllowed then PolicyExcluded
    else match action
         case Skip => SkippedByPolicy
         case ManualReviewRequired => NeedsReview
         case MemoryExtractLater => NeedsReview
         case ExternalRealtimeReference => Unsupported
         case _ => Ready
  }

  /** sync_decision_for_resource. */
  function Decide(r: Resource, p: Policy): Decision {
    var plan := PlanFor(KindFor(r), DocumentModeOf(Or(p.largeDocumentMode, "index_only")),
                        BitableModeOf(Or(p.bitableMode, "master_data_index")));
    var allowed := TypeAllowed(r, p.resourceTypes);
    Decision(KindFor(r), plan, StatusOf(r, allowed, plan.action), allowed)
  }

  /** The arguments handed to the Feishu reader. */
  datatype SyncArgs =
    | Mail(mailbox: string, folder: string)
    | Messages(chat: string)
    | Approvals(code: string)
    | CalendarEvents | Meetings | Tasks | Contacts
    | Document(document: string, documentType: string)
    | BitableRecords(app: string, table: string)

  /** _sync_args_for_resource. */
  function ArgsFor(r: Resource): Option<SyncArgs> {
    match KindFor(r)
    case Mailbox =>
      var folder := Or(r.subId, r.folderId);
      if folder == "" then None else Some(Mail(r.resourceId, folder))
    case Chat => Some(Messages(r.resourceId))
    case Approval => Some(Approvals(r.resourceId))
    case Calendar => Some(CalendarEvents)
    case Meeting => Some(Meetings)
    case Task => Some(Tasks)
    case Directory => Some(Contacts)
    case Doc => Some(Document(r.resourceId, Or(r.documentType, "docx")))
    case Bitable => if r.subId != "" then Some(BitableRecords(r.resourceId, r.subId)) else None
    case _ => None
  }

  predicate Supported(r: Resource, p: Policy) {
    Decide(r, p).Executable() && (ArgsFor(r).Some? || Decide(r, p).plan.action == DocumentIndexOnly)
  }

  const STALE_AFTER: int := 24 * 3600 * 1_000_000

  datatype SyncStatus = Verdict(status: DecisionStatus) | NeverSynced | Stale | Healthy

  /** classify_resource_sync_status: no latest run is passed, so no run status can appear. */
  function Classify(r: Resource, p: Policy, now: int): SyncStatus {
    var d := Decide(r, p);
    if !r.enabled then Verdict(Disabled)
    else if d.status in {AccessBlocked, PolicyExcluded, NeedsReview, SkippedByPolicy} then Verdict(d.status)
    else if !Supported(r, p) then Verdict(Unsupported)
    else if r.lastSync.None? then NeverSynced
    else if now - r.lastSync.value > STALE_AFTER then Stale
    else Healthy
  }

  lemma NoIssueHasArgs(r: Resource)
    requires IssueOf(r) == NoIssue && LayerOf(KindFor(r)) != ManualReviewLayer
    ensures ArgsFor(r).Some? || KindFor(r) in {Wiki, Web, Memory}
  {
    assert Strip("") == "";
  }

  /** Every executable decision has somewhere to go: `supported` is `executable`. */
  lemma DispatchIsComplete(r: Resource, p: Policy)
    ensures Supported(r, p) <==> Decide(r, p).Executable()
  {
    if Decide(r, p).Executable() {
      NoIssueHasArgs(r);
    }
  }

  /** What the scheduler admits under a company's full policy, the executor admits under the modes
      alone, with the same action. */
  lemma ExecutorAgreesWithScheduler(r: Resource, p: Policy)
    ensures Decide(r, p).Executable() <==> Decide(r, ModesOnly(p)).Executable() && TypeAllowed(r, p.resourceTypes)
    ensures Decide(r, ModesOnly(p)).plan == Decide(r, p).plan
  {
  }
}
