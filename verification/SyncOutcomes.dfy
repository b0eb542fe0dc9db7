/** What a sync decides and leaves, in terms of the stored texts and columns alone. */
module SyncOutcomes {
  import opened Lists
  import opened Options
  import opened Text
  import opened Strategy
  import opened Decisions
  import opened SyncResults
  import opened Workspace
  import opened WorkspaceSafety

  // ---- the types, by the texts that are stored ----

  function TypeText(r: Resource): string {
    Lower(Strip(r.resourceType))
  }

  /** A capability is typed by its id. */
  predicate Capability(r: Resource, id: string) {
    TypeText(r) == "capability" && Lower(Strip(r.resourceId)) == id
  }

  predicate StoredChat(r: Resource) { TypeText(r) == "chat" }
  predicate StoredApproval(r: Resource) { TypeText(r) == "approval" || TypeText(r) == "approval_code" }
  predicate StoredCalendar(r: Resource) { TypeText(r) == "calendar" || Capability(r, "feishu:calendar") }
  predicate StoredMeeting(r: Resource) { TypeText(r) == "meeting" || Capability(r, "feishu:meetings") }
  predicate StoredTask(r: Resource) { TypeText(r) == "task" || Capability(r, "feishu:tasks") }
  predicate StoredMailbox(r: Resource) { TypeText(r) == "mailbox" || TypeText(r) == "mail_folder" }
  predicate StoredDirectory(r: Resource) { TypeText(r) == "directory" || Capability(r, "feishu:contacts") }
  predicate StoredDoc(r: Resource) { TypeText(r) == "doc" || TypeText(r) == "drive_file" }
  predicate StoredWiki(r: Resource) { TypeText(r) == "wiki" || TypeText(r) == "wiki_space" }

  predicate StoredBitable(r: Resource) {
    TypeText(r) == "bitable" || TypeText(r) == "bitable_app" || TypeText(r) == "bitable_table"
  }

  predicate StoredWeb(r: Resource) {
    || TypeText(r) == "web" || TypeText(r) == "external_web" || TypeText(r) == "web_page"
    || TypeText(r) == "website" || TypeText(r) == "url"
  }

  predicate StoredMemory(r: Resource) {
    TypeText(r) == "memory" || TypeText(r) == "memory_fact" || TypeText(r) == "derived_memory"
  }

  predicate StoredRealtime(r: Resource) {
    || StoredChat(r) || StoredApproval(r) || StoredCalendar(r) || StoredMeeting(r) || StoredTask(r)
    || StoredMailbox(r) || StoredDirectory(r)
  }

  lemma KnowledgeTypes(r: Resource)
    ensures KindFor(r) == Doc <==> StoredDoc(r)
    ensures KindFor(r) == Wiki <==> StoredWiki(r)
    ensures KindFor(r) == Bitable <==> StoredBitable(r)
    ensures KindFor(r) == Web <==> StoredWeb(r)
    ensures KindFor(r) == Memory <==> StoredMemory(r)
  {
    hide Strip, Lower;
  }

  lemma EventTypes(r: Resource)
    ensures KindFor(r) == Chat <==> StoredChat(r)
    ensures KindFor(r) == Approval <==> StoredApproval(r)
    ensures KindFor(r) == Mailbox <==> StoredMailbox(r)
  {
    hide Strip, Lower;
  }

  lemma CapabilityTypes(r: Resource)
    ensures KindFor(r) == Calendar <==> StoredCalendar(r)
    ensures KindFor(r) == Meeting <==> StoredMeeting(r)
    ensures KindFor(r) == Task <==> StoredTask(r)
    ensures KindFor(r) == Directory <==> StoredDirectory(r)
  {
    hide Strip, Lower;
  }

  /** The stored texts determine the type. */
  lemma TypesByText(r: Resource)
    ensures KindFor(r).Other? <==>
            && !StoredRealtime(r) && !StoredDoc(r) && !StoredWiki(r)
            && !StoredBitable(r) && !StoredWeb(r) && !StoredMemory(r)
  {
    hide StoredDoc, StoredWiki, StoredBitable, StoredWeb, StoredMemory, StoredChat, StoredApproval, StoredMailbox;
    hide StoredCalendar, StoredMeeting, StoredTask, StoredDirectory, KindFor;
    KnowledgeTypes(r);
    EventTypes(r);
    CapabilityTypes(r);
  }

  // ---- the plan ----

  /** Layer, action and extraction for every stored type and every pair of modes. */
  lemma PlanByText(r: Resource, p: Policy)
    ensures var plan, documents, bitables := Decide(r, p).plan, p.largeDocumentMode, p.bitableMode;
            && (StoredRealtime(r) ==> plan == Plan(RealtimeLayer, RealtimeEvent, true))
            && (StoredDoc(r) ==>
                  plan == if documents == "disabled" then Plan(KnowledgeColdLayer, Skip, false)
                          else if documents == "knowledge_vectorize" then
                            Plan(KnowledgeHotLayer, KnowledgeVectorize, true)
                          else Plan(KnowledgeColdLayer, DocumentIndexOnly, false))
            && (StoredWiki(r) ==>
                  plan == if documents == "disabled" then Plan(KnowledgeColdLayer, Skip, false)
                          else Plan(KnowledgeColdLayer, DocumentIndexOnly, false))
            && (StoredBitable(r) ==>
                  plan == if bitables == "disabled" then Plan(MasterDataLayer, Skip, false)
                          else
                            Plan(MasterDataLayer, MasterDataIndex, bitables != "" && bitables != "master_data_index"))
            && (StoredWeb(r) ==> plan == Plan(ExternalWebLayer, ExternalRealtimeReference, false))
            && (StoredMemory(r) ==> plan == Plan(LongTermMemoryLayer, MemoryExtractLater, false))
            && (!StoredRealtime(r) && !StoredDoc(r) && !StoredWiki(r) && !StoredBitable(r) && !StoredWeb(r) &&
                !StoredMemory(r) ==>
                  plan == Plan(ManualReviewLayer, ManualReviewRequired, false))
  {
    hide StoredDoc, StoredWiki, StoredBitable, StoredWeb, StoredMemory, StoredChat, StoredApproval, StoredMailbox;
    hide StoredCalendar, StoredMeeting, StoredTask, StoredDirectory, KindFor, StatusOf, TypeAllowed;
    KnowledgeTypes(r);
    EventTypes(r);
    CapabilityTypes(r);
    TypesByText(r);
  }

  // ---- the decision ----

  predicate OnFeishu(r: Resource) {
    r.platform == "" || r.platform == "feishu"
  }

  predicate IdentifierRedacted(r: Resource) {
    Contains(r.resourceId, "_REDACTED]") || Contains(r.subId, "_REDACTED]")
  }

  /** A calendar that is only the general capability. */
  predicate NeedsItsUser(r: Resource) {
    StoredCalendar(r) && Lower(Strip(r.resourceId)) == "feishu:calendar"
  }

  /** The identifiers its type needs are there. */
  predicate Identified(r: Resource) {
    && (StoredChat(r) || StoredApproval(r) || StoredMailbox(r) ==> Strip(r.resourceId) != "")
    && (StoredBitable(r) || StoredDoc(r) || StoredWiki(r) ==> Strip(r.resourceId) != "")
    && (StoredMailbox(r) ==> Strip(r.subId) != "" || r.folderId != "")
    && (StoredBitable(r) ==> Strip(r.subId) != "")
  }

  predicate AccessLost(r: Resource) {
    r.governance.Governance? && r.governance.status.Some? &&
    (|| r.governance.status.value == "bot_not_in_chat" || r.governance.status.value == "access_denied"
     || r.governance.status.value == "requires_user_authorization")
  }

  predicate Listed(r: Resource, p: Policy) {
    p.resourceTypes == [] || r.resourceType in p.resourceTypes || KindName(KindFor(r)) in p.resourceTypes
  }

  /** The modes switch its type off. */
  predicate SwitchedOff(r: Resource, p: Policy) {
    || ((StoredDoc(r) || StoredWiki(r)) && p.largeDocumentMode == "disabled")
    || (StoredBitable(r) && p.bitableMode == "disabled")
  }

  lemma IssueByText(r: Resource)
    ensures IssueOf(r) == RequiresUserAuthorization <==> NeedsItsUser(r)
    ensures IssueOf(r) == MissingIdentifier <==> !Identified(r)
  {
    hide StoredDoc, StoredWiki, StoredBitable, StoredWeb, StoredMemory, StoredChat, StoredApproval, StoredMailbox;
    hide StoredCalendar, StoredMeeting, StoredTask, StoredDirectory, KindFor, Strip, Lower;
    KnowledgeTypes(r);
    EventTypes(r);
    CapabilityTypes(r);
  }

  /** What speaks against a sync, the first reason counting; without any it is ready. */
  lemma StatusByText(r: Resource, p: Policy)
    ensures Decide(r, p).status ==
            if !r.enabled then Disabled
            else if !OnFeishu(r) then Unsupported
            else if IdentifierRedacted(r) then NeedsReview
            else if NeedsItsUser(r) then AccessBlocked
            else if !Identified(r) then NeedsReview
            else if AccessLost(r) then AccessBlocked
            else if !Listed(r, p) then PolicyExcluded
            else if SwitchedOff(r, p) then SkippedByPolicy
            else if StoredWeb(r) then Unsupported
            else if StoredRealtime(r) || StoredDoc(r) || StoredWiki(r) || StoredBitable(r) then Ready
            else NeedsReview
  {
    hide StoredDoc, StoredWiki, StoredBitable, StoredWeb, StoredMemory, StoredChat, StoredApproval, StoredMailbox;
    hide StoredCalendar, StoredMeeting, StoredTask, StoredDirectory, KindFor, Contains, KindName;
    hide IssueOf, NeedsItsUser, Identified, PlanFor;
    IssueByText(r);
    KnowledgeTypes(r);
    EventTypes(r);
    CapabilityTypes(r);
    PlanByText(r, p);
    TypesByText(r);
  }

  /** So a decision is executable, in whatever order it tests, for an enabled Feishu resource whose identifiers
      are complete and not redacted, that is not blocked, and whose type the policy lists and leaves on. */
  lemma ExecutableByText(r: Resource, p: Policy)
    ensures Decide(r, p).Executable() <==>
            && r.enabled && OnFeishu(r) && !IdentifierRedacted(r) && !NeedsItsUser(r) && Identified(r)
            && !AccessLost(r) && Listed(r, p) && !SwitchedOff(r, p)
            && (StoredRealtime(r) || StoredDoc(r) || StoredWiki(r) || StoredBitable(r))
  {
    hide OnFeishu, IdentifierRedacted, NeedsItsUser, Identified, AccessLost, Listed, SwitchedOff, StoredRealtime;
    hide StoredDoc, StoredWiki, StoredBitable, StoredWeb, Decide;
    StatusByText(r, p);
    OneType(r);
  }

  lemma OneType(r: Resource)
    ensures StoredWeb(r) ==> !StoredRealtime(r) && !StoredDoc(r) && !StoredWiki(r) && !StoredBitable(r)
  {
    hide StoredDoc, StoredWiki, StoredBitable, StoredWeb, StoredMemory, StoredChat, StoredApproval, StoredMailbox;
    hide StoredCalendar, StoredMeeting, StoredTask, StoredDirectory, KindFor;
    KnowledgeTypes(r);
    EventTypes(r);
    CapabilityTypes(r);
  }

  /** The names a policy may list a type by: the twelve normal ones, and the stored text of any other. */
  lemma NamesByText(r: Resource)
    ensures var name := KindName(KindFor(r));
            && (StoredChat(r) ==> name == "chat") && (StoredApproval(r) ==> name == "approval")
            && (StoredCalendar(r) ==> name == "calendar") && (StoredMeeting(r) ==> name == "meeting")
            && (StoredTask(r) ==> name == "task") && (StoredMailbox(r) ==> name == "mailbox")
            && (StoredDirectory(r) ==> name == "directory") && (StoredBitable(r) ==> name == "bitable")
            && (StoredDoc(r) ==> name == "doc") && (StoredWiki(r) ==> name == "wiki")
            && (StoredWeb(r) ==> name == "web") && (StoredMemory(r) ==> name == "memory")
            && (KindFor(r).Other? ==> name == TypeText(r))
  {
    hide StoredDoc, StoredWiki, StoredBitable, StoredWeb, StoredMemory, StoredChat, StoredApproval, StoredMailbox;
    hide StoredCalendar, StoredMeeting, StoredTask, StoredDirectory, Strip, Lower;
    KnowledgeTypes(r);
    EventTypes(r);
    CapabilityTypes(r);
  }

  // ---- which way a call goes ----

  /** The app configuration a call works with exists: the source's account, when an app identity with an
      account is preferred, and else the resource's own. */
  predicate HasCredentials(r: Resource, w: World) {
    if w.source.Some? && w.source.value.kind == AppIdentity && w.source.value.account.Some? then
      w.source.value.account.value in w.appConfigs
    else r.appConfig.Some? && r.appConfig.value in w.appConfigs
  }

  /** Documents are only registered, unless a doc is to be vectorized. */
  predicate OnlyIndexed(r: Resource, req: Request) {
    StoredWiki(r) || (StoredDoc(r) && req.largeDocumentMode != "knowledge_vectorize")
  }

  predicate ReadByUser(w: World) {
    w.source.Some? && w.source.value.kind == UserIdentity
  }

  lemma SameTypes(r: Resource, s: Resource)
    requires r.resourceType == s.resourceType && r.resourceId == s.resourceId
    ensures KindFor(r) == KindFor(s)
    ensures StoredDoc(r) == StoredDoc(s) && StoredWiki(r) == StoredWiki(s) && StoredBitable(r) == StoredBitable(s)
    ensures StoredRealtime(r) == StoredRealtime(s)
  {
  }

  /** The decision of a call: a retry of a blocked resource disregards what is stored under governance. */
  lemma DecisionByText(r: Resource, req: Request)
    ensures var unblocked := if req.retry && Blocked(r) then r.(governance := NoGovernance) else r;
            DecisionFor(r, req) == Decide(unblocked, Policy(req.largeDocumentMode, req.bitableMode, [], [], 0, 0))
    ensures DecisionFor(r, req).Executable() ==>
              (DecisionFor(r, req).plan.action == DocumentIndexOnly <==> OnlyIndexed(r, req))
  {
    hide StoredDoc, StoredWiki, StoredBitable, StoredWeb, StoredMemory, StoredRealtime, KindFor, StatusOf;
    var decided := DecisionResource(r, req.retry);
    var modes := Policy(req.largeDocumentMode, req.bitableMode, [], [], 0, 0);
    SameTypes(r, decided);
    KnowledgeTypes(r);
    ExecutableByText(decided, modes);
    PlanByText(decided, modes);
  }

  /** What is executable and not merely registered has arguments for the reader. */
  lemma HasReader(r: Resource, req: Request)
    requires DecisionFor(r, req).Executable()
    ensures ArgsFor(r).Some? || DecisionFor(r, req).plan.action == DocumentIndexOnly
  {
    var decided := DecisionResource(r, req.retry);
    var modes := Policy(req.largeDocumentMode, req.bitableMode, [], [], 0, 0);
    DispatchIsComplete(decided, modes);
    assert ArgsFor(decided) == ArgsFor(r);
    hide Decide, ArgsFor;
  }

  /** A call is executable and has the configuration it works with. */
  predicate Goes(r: Resource, req: Request, w: World) {
    DecisionFor(r, req).Executable() && HasCredentials(r, w)
  }

  lemma CredentialsByText(r: Resource, w: World)
    ensures HasCredentials(r, w) <==>
            AppConfigFor(r, w.source).Some? && AppConfigFor(r, w.source).value in w.appConfigs
  {
  }

  /** A call that does not go stops; one that goes registers documents without asking anybody. */
  lemma StopsOrIndexes(t: Tables, id: nat, req: Request, w: World)
    requires id in t.resources
    ensures var r, e := t.resources[id], ExitOf(t, id, req, w);
            && (e.Stopped? <==> !Goes(r, req, w))
            && (e.Indexed? <==> Goes(r, req, w) && OnlyIndexed(r, req))
  {
    var r := t.resources[id];
    DecisionByText(r, req);
    CredentialsByText(r, w);
    if DecisionFor(r, req).Executable() { HasReader(r, req); }
    hide ArgsFor, OnlyIndexed, DecisionFor, HasCredentials, AppConfigFor, UserReply;
  }

  /** Everything else is read: by the app, unless a user identity is preferred. */
  lemma ReadsAsApp(t: Tables, id: nat, req: Request, w: World)
    requires id in t.resources && Goes(t.resources[id], req, w) && !OnlyIndexed(t.resources[id], req)
    requires !ReadByUser(w)
    ensures ExitOf(t, id, req, w) == match w.reply
                                     case ReplyReturned(results, saved) => FetchReturned(results, saved)
                                     case ReplyRaised(message, saved) => FetchRaised(message, saved)
  {
    var r := t.resources[id];
    DecisionByText(r, req);
    CredentialsByText(r, w);
    HasReader(r, req);
    hide ArgsFor, OnlyIndexed, DecisionFor, HasCredentials, AppConfigFor, UserReply;
  }

  /** A user's token reads Bitable tables, and nothing else. */
  lemma ReadsAsUser(t: Tables, id: nat, req: Request, w: World)
    requires id in t.resources && Goes(t.resources[id], req, w) && !OnlyIndexed(t.resources[id], req)
    requires ReadByUser(w)
    ensures var r, e := t.resources[id], ExitOf(t, id, req, w);
            if StoredBitable(r) && r.subId != "" then
              e == match w.reply
                   case ReplyReturned(results, saved) => UserRead(results, saved)
                   case ReplyRaised(_, _) => UserRaised
            else e.UserRead? && !Available(e.results) && e.saved == map[]
  {
    var r := t.resources[id];
    DecisionByText(r, req);
    CredentialsByText(r, w);
    UserReplyByText(r, w.reply);
    hide StoredBitable, ArgsFor, OnlyIndexed, DecisionFor, HasCredentials, AppConfigFor, UserReply;
  }

  lemma UserReplyByText(r: Resource, reply: Reply)
    ensures if StoredBitable(r) && r.subId != "" then UserReply(r, reply) == reply
            else UserReply(r, reply).ReplyReturned? && !Available(UserReply(r, reply).results) &&
                 UserReply(r, reply).saved == map[]
  {
    KnowledgeTypes(r);
    hide StoredBitable, KindFor;
    var unsupported := ResultItem(false, [], None, Some(0), None, "unsupported resource type", []);
    assert unsupported in [unsupported] && !Available([unsupported]);
  }

  // ---- what each way leaves ----

  /** A resource that is only registered: the run succeeds with one item, the resource is stamped and its
      governance cleared, one event is bound to it, and the reply plays no part. */
  lemma IndexedLeaves(t: Tables, id: nat, req: Request, w: World)
    requires id in t.resources && w.commits
    requires OnlyIndexed(t.resources[id], req)
    requires Goes(t.resources[id], req, w)
    ensures var r := t.resources[id];
            AfterSync(t, id, req, w) == t.(
              resources := t.resources[id := r.(governance := NoGovernance, lastSync := Some(w.now))],
              runs := t.runs +
                      [RunRow(id, r.company, DocumentIndexOnly, Success, w.now, Some(w.now), 1, 1, 0, NoError)],
              events := t.events[w.indexEvent := EventRow(r.company, Some(id))])
  {
    hide OnlyIndexed, HasCredentials, DecisionFor, ExitOf;
    StopsOrIndexes(t, id, req, w);
    DecisionByText(t.resources[id], req);
  }

  /** No reply matters to a resource that is only registered, however the call ends. */
  lemma IndexedIgnoresReply(t: Tables, id: nat, req: Request, w: World, reply: Reply)
    requires id in t.resources && OnlyIndexed(t.resources[id], req)
    ensures AfterSync(t, id, req, w.(reply := reply)) == AfterSync(t, id, req, w)
  {
    DecisionByText(t.resources[id], req);
    hide OnlyIndexed, DecisionFor, UserReply, ArgsFor, AppConfigFor, ResourceAfter, ClosedRun, EventsAfter, OpenRun;
  }

  /** A doc that is to be vectorized is fetched with the preferred app's account, and what the fetch saved
      is there afterwards. */
  lemma VectorizedDocIsFetched(t: Tables, id: nat, req: Request, w: World, account: nat)
    requires id in t.resources && StoredDoc(t.resources[id]) && req.largeDocumentMode == "knowledge_vectorize"
    requires DecisionFor(t.resources[id], req).Executable() && w.commits
    requires w.source == Some(Source(AppIdentity, Some(account))) && account in w.appConfigs
    ensures DecisionFor(t.resources[id], req).plan == Plan(KnowledgeHotLayer, KnowledgeVectorize, true)
    ensures ExitOf(t, id, req, w) == match w.reply
                                     case ReplyReturned(results, saved) => FetchReturned(results, saved)
                                     case ReplyRaised(message, saved) => FetchRaised(message, saved)
    ensures w.reply.saved.Keys <= AfterSync(t, id, req, w).events.Keys
  {
    var r := t.resources[id];
    KnowledgeTypes(r);
    var decided := DecisionResource(r, req.retry);
    SameTypes(r, decided);
    PlanByText(decided, Policy(req.largeDocumentMode, req.bitableMode, [], [], 0, 0));
    DecisionByText(r, req);
    hide StoredDoc, StoredWiki, KindFor, ExitOf, DecisionFor;
    ReadsAsApp(t, id, req, w);
  }

  /** A call that stops changes no resource and no event: its run is skipped when the decision forbids the
      call, and fails when only the configuration is missing. */
  lemma StoppedLeaves(t: Tables, id: nat, req: Request, w: World)
    requires id in t.resources && w.commits && !Goes(t.resources[id], req, w)
    ensures var u, executable := AfterSync(t, id, req, w), DecisionFor(t.resources[id], req).Executable();
            && u == t.(runs := u.runs)
            && |u.runs| == |t.runs| + 1 && t.runs <= u.runs
            && var run := u.runs[|t.runs|];
               && run.resource == id && run.status == (if executable then Failed else RunSkipped)
               && run.seen == run.indexed == 0 && run.skipped == (if executable then 0 else 1)
               && run.finishedAt == Some(w.now) && run.error.StopText?
  {
    var r := t.resources[id];
    StopsOrIndexes(t, id, req, w);
    CredentialsByText(r, w);
    assert t.resources[id := r] == t.resources;
    if DecisionFor(r, req).Executable() { HasReader(r, req); }
    hide DecisionFor, HasCredentials, AppConfigFor, ArgsFor, OnlyIndexed;
  }

  /** A fetch that raises leaves the resource as it was, a failed run with the beginning of its message, and
      the events it had saved. */
  lemma FailedFetchLeaves(t: Tables, id: nat, req: Request, w: World)
    requires id in t.resources && w.commits && ExitOf(t, id, req, w).FetchRaised?
    ensures var r, e, u := t.resources[id], ExitOf(t, id, req, w), AfterSync(t, id, req, w);
            u == t.(
              runs := t.runs + [RunRow(id, r.company, DecisionFor(r, req).plan.action, Failed, w.now, Some(w.now),
                                       0, 0, 0, Message(if |e.message| <= 1000 then e.message else e.message[..1000]))],
              events := t.events + e.saved)
  {
    assert t.resources[id := t.resources[id]] == t.resources;
    hide ExitOf, DecisionFor;
  }

  /** The ids a reply stands for: every text that some object of it lists, unless it is empty. */
  lemma ListedIds(results: Results, id: string)
    ensures id in EventIds(results) <==>
            id != "" && exists item <- results :: item.ResultItem? && exists ref <- item.eventIds :: ref.text == id
  {
    RefsAre(results);
    TextsAre(AllRefs(results));
    DistinctFacts(NonEmptyTexts(AllRefs(results)));
  }

  lemma {:induction false} RefsAre(results: Results)
    ensures forall ref :: ref in AllRefs(results) <==>
              exists item <- results :: item.ResultItem? && ref in item.eventIds
  {
    if results != [] {
      RefsAre(results[1..]);
      assert results == [results[0]] + results[1..];
    }
  }

  /** The run of a fetch that came back. */
  lemma FetchedRun(t: Tables, id: nat, req: Request, w: World)
    requires id in t.resources && w.commits && ExitOf(t, id, req, w).FetchReturned?
    ensures var r, results, u := t.resources[id], ExitOf(t, id, req, w).results, AfterSync(t, id, req, w);
            && |u.runs| == |t.runs| + 1 && t.runs <= u.runs
            && var run := u.runs[|t.runs|];
               && run.resource == id && run.company == r.company && run.action == DecisionFor(r, req).plan.action
               && run.startedAt == w.now && run.finishedAt == Some(w.now)
               && run.status == (if forall item <- results :: item.ResultItem? ==> item.available then Success
                                 else Partial)
               && run.indexed == |EventIds(results)| && run.seen == ItemsSeen(results, run.indexed)
               && run.skipped == run.seen - run.indexed
               && (run.error.NoError? <==> ErrorMessage(results).None?)
               && (ErrorMessage(results).Some? ==> run.error == Message(ErrorMessage(results).value))
  {
    hide DecisionFor, EventIds, ErrorMessage, UnclampedSeen;
  }

  /** The count a value without ids declares: items_seen, or else saved_count, or else total. */
  lemma SeenOfOne(item: ResultItem, minimum: int)
    requires item.ResultItem? && item.eventIds == []
    ensures var declared := if item.itemsSeen.Some? then item.itemsSeen.value
                            else if item.savedCount.Some? then item.savedCount.value
                            else if item.total.Some? then item.total.value else 0;
            ItemsSeen([item], minimum) == Max(declared, minimum)
  {
    assert [item][..0] == [] && [item][1..] == [] && AllRefs([item]) == [];
    assert DeclaredCounts([item]) == DeclaredCounts([]) + DeclaredCount(item);
  }

  /** The events of a fetch that came back: all it saved, and those it lists are bound to the resource if
      they are its company's. */
  lemma FetchedEvents(t: Tables, id: nat, req: Request, w: World, e: string)
    requires id in t.resources && w.commits && ExitOf(t, id, req, w).FetchReturned?
    ensures var r, results, saved := t.resources[id], ExitOf(t, id, req, w).results, ExitOf(t, id, req, w).saved;
            var events := AfterSync(t, id, req, w).events;
            && (e in events <==> e in t.events || e in saved)
            && (e in events ==>
                  var before := if e in saved then saved[e] else t.events[e];
                  && events[e].company == before.company
                  && events[e].boundTo == if e in EventIds(results) && before.company == r.company then Some(id)
                                          else before.boundTo)
  {
    hide DecisionFor, EventIds, ErrorMessage, ResourceAfter, ClosedRun;
  }

  /** The governance a reply leaves on a resource. */
  function GovernedBy(r: Resource, results: Results, nowText: string): Governance {
    var error, stored := ErrorMessage(results), if r.governance.Governance? then r.governance else EMPTY_GOVERNANCE;
    if error.None? then
      if forall item <- results :: item.ResultItem? ==> item.available then NoGovernance else r.governance
    else if StoredChat(r) && (Contains(error.value, "230002") ||
                              Contains(error.value, "Bot/User can NOT be out of the chat")) then
      stored.(status := Some("bot_not_in_chat"), reason := Some(BotNotInChatReason),
              errorMessage := error, updatedAt := Some(nowText))
    else if StoredCalendar(r) &&
            Contains(error.value, "99992402") && Contains(error.value, "field validation failed") then
      stored.(status := Some("requires_user_authorization"), reason := Some(CalendarNeedsUserReason),
              errorMessage := error, updatedAt := Some(nowText))
    else r.governance
  }

  lemma GovernanceByText(r: Resource, results: Results, saved: map<string, EventRow>, nowText: string)
    ensures GovernanceAfter(r, FetchReturned(results, saved), nowText) == GovernedBy(r, results, nowText)
  {
    EventTypes(r);
    CapabilityTypes(r);
    hide StoredChat, StoredCalendar, KindFor, ErrorMessage, Contains;
  }

  /** The resource after a fetch that came back: stamped in any case. A chat the bot is not in and a calendar
      the app may not read are blocked, with the error; a reply without errors whose objects are all
      available clears the governance; every other reply leaves it. */
  lemma FetchedResource(t: Tables, id: nat, req: Request, w: World)
    requires id in t.resources && w.commits && ExitOf(t, id, req, w).FetchReturned?
    ensures var r, results := t.resources[id], ExitOf(t, id, req, w).results;
            AfterSync(t, id, req, w).resources[id] ==
            r.(lastSync := Some(w.now), governance := GovernedBy(r, results, w.nowText))
  {
    var r, e := t.resources[id], ExitOf(t, id, req, w);
    GovernanceByText(r, e.results, e.saved, w.nowText);
    hide ExitOf, GovernedBy, GovernanceAfter, ClosedRun, EventsAfter;
  }

  /** What the error of a committed fetch blocks: a chat the bot is not in, a calendar that needs its user,
      and nothing else. The block keeps what the owner decided. */
  lemma BlockedByError(t: Tables, id: nat, req: Request, w: World)
    requires id in t.resources && w.commits && ExitOf(t, id, req, w).FetchReturned?
    requires ErrorMessage(ExitOf(t, id, req, w).results).Some?
    ensures var error := ErrorMessage(ExitOf(t, id, req, w).results).value;
            var before, after := t.resources[id], AfterSync(t, id, req, w).resources[id].governance;
            var chat := StoredChat(before) &&
                        (Contains(error, "230002") || Contains(error, "Bot/User can NOT be out of the chat"));
            var calendar := StoredCalendar(before) &&
                            Contains(error, "99992402") && Contains(error, "field validation failed");
            && (chat ==> after.Governance? && after.status == Some("bot_not_in_chat"))
            && (calendar ==> after.Governance? && after.status == Some("requires_user_authorization"))
            && (chat || calendar ==>
                  && after.errorMessage == Some(error) && after.updatedAt == Some(w.nowText)
                  && OwnerDecision(after) == OwnerDecision(before.governance))
            && (!chat && !calendar ==> after == before.governance)
  {
    FetchedResource(t, id, req, w);
    hide ExitOf, AfterSync, ErrorMessage, Contains;
  }

  // ---- the error of a reply ----

  lemma {:induction false} ErrorsAre(results: Results)
    ensures forall text :: text in AllErrors(results) <==>
              text != "" && exists item <- results :: item.ResultItem? && (text == item.error || text in item.errors)
  {
    if results != [] {
      ErrorsAre(results[1..]);
      var first := results[0];
      assert results == [first] + results[1..];
      if first.ResultItem? { NonEmptyIs([first.error] + first.errors); }
    }
  }

  lemma {:induction false} NonEmptyIs(texts: seq<string>)
    ensures forall text :: text in NonEmpty(texts) <==> text != "" && text in texts
  {
    if texts != [] {
      NonEmptyIs(texts[..|texts| - 1]);
      assert texts == texts[..|texts| - 1] + [texts[|texts| - 1]];
    }
  }

  lemma {:induction false} JoinContains(texts: seq<string>, text: string, part: string)
    requires text in texts && Contains(text, part)
    ensures Contains(Join(texts), part)
  {
    if |texts| > 1 {
      var rest := Join(texts[1..]);
      assert texts == [texts[0]] + texts[1..];
      assert Join(texts) == (texts[0] + "; ") + rest;
      if text == texts[0] {
        ContainsBefore(text, "; ", part);
        ContainsBefore(text + "; ", rest, part);
      } else {
        JoinContains(texts[1..], text, part);
        ContainsAfter(texts[0] + "; ", rest, part);
      }
    }
  }

  /** A reply has an error exactly when some object of it has a text that is not empty. */
  lemma NoErrorIff(results: Results)
    ensures ErrorMessage(results).None? <==>
            forall item <- results :: item.ResultItem? ==>
              item.error == "" && forall text <- item.errors :: text == ""
  {
    ErrorsAre(results);
    var errors := AllErrors(results);
    if errors != [] {
      assert errors[0] in errors;
    } else {
      forall item | item in results && item.ResultItem?
        ensures item.error == "" && forall text <- item.errors :: text == ""
      {
        assert item.error !in errors && forall text <- item.errors :: text !in errors;
      }
    }
    hide AllErrors, Join, Distinct;
  }

  /** The error holds what each of those texts holds, as long as all of them fit into a thousand characters. */
  lemma ErrorHolds(results: Results, item: ResultItem, text: string, part: string)
    requires item in results && item.ResultItem? && (text == item.error || text in item.errors)
    requires Contains(text, part) && part != "" && |Join(Distinct(AllErrors(results)))| <= 1000
    ensures ErrorMessage(results).Some? && Contains(ErrorMessage(results).value, part)
  {
    hide Contains, Join, AllErrors, Distinct;
    assert text != "" by { EmptyContainsNothing(part); }
    ErrorsAre(results);
    DistinctFacts(AllErrors(results));
    JoinContains(Distinct(AllErrors(results)), text, part);
  }

  /** So a chat is blocked whenever any object of the reply reports that the bot is not in it. */
  lemma BotLeftChat(t: Tables, id: nat, req: Request, w: World, item: ResultItem, text: string)
    requires id in t.resources && w.commits && ExitOf(t, id, req, w).FetchReturned? && StoredChat(t.resources[id])
    requires item in ExitOf(t, id, req, w).results && item.ResultItem? && (text == item.error || text in item.errors)
    requires Contains(text, "230002") && |Join(Distinct(AllErrors(ExitOf(t, id, req, w).results)))| <= 1000
    ensures id in AfterSync(t, id, req, w).resources
    ensures AccessStatus(AfterSync(t, id, req, w).resources[id].governance) == "bot_not_in_chat"
  {
    hide Contains, Join, ErrorMessage, AllErrors, ExitOf, AfterSync, StoredChat;
    CallsAreIsolated(t, SyncOp(id, req, w), id);
    ErrorHolds(ExitOf(t, id, req, w).results, item, text, "230002");
    BlockedByError(t, id, req, w);
  }

  lemma EmptyContainsNothing(part: string)
    requires part != ""
    ensures !Contains("", part)
  {
  }

  /** A closing commit that is lost takes everything with it, except after a fetch that came back: the reader
      had committed the open run and the events it saved. */
  lemma LostCommitLeaves(t: Tables, id: nat, req: Request, w: World)
    requires id in t.resources && !w.commits
    ensures var r, e, u := t.resources[id], ExitOf(t, id, req, w), AfterSync(t, id, req, w);
            if e.FetchReturned? then
              u == t.(
                runs := t.runs + [RunRow(id, r.company, DecisionFor(r, req).plan.action, Running, w.now, None, 0, 0, 0,
                                         NoError)],
                events := t.events + e.saved)
            else u == t
  {
    hide ExitOf, DecisionFor;
  }

  /** What a call answers: nothing is found, or it raises, because the way did or because the closing commit
      is lost, or it says whether everything was available, how many events there are, and whether
      governance was cleared. */
  lemma AnswerByText(t: Tables, id: nat, req: Request, w: World)
    requires id in t.resources
    ensures var r, e := t.resources[id], ExitOf(t, id, req, w);
            var o := OutcomeOf(e, r.governance != NoGovernance, w.commits);
            && (o.Raised? <==> !w.commits || e.FetchRaised? || e.UserRaised?)
            && !o.NotFound?
            && (o.Returned? ==> (o.blockCleared <==> r.governance.Governance? &&
                                                     AfterSync(t, id, req, w).resources[id].governance == NoGovernance))
            && (o.Returned? && (e.FetchReturned? || e.UserRead?) ==>
                  && o.saved == |EventIds(e.results)|
                  && (o.available <==> forall item <- e.results :: item.ResultItem? ==> item.available))
            && (o.Returned? && e.Indexed? ==> o.available && o.saved == 1)
            && (o.Returned? && e.Stopped? ==> !o.available && o.saved == 0)
  {
    hide ErrorMessage, EventIds, ClosedRun, EventsAfter, NewBlock, OpenRun;
    hide ArgsFor, DecisionFor, AppConfigFor, UserReply;
  }

  /** A read with a user's token stamps and clears together, exactly when the reply has no error and all its
      objects are available; otherwise the resource stays as it was. */
  lemma UserReadLeaves(t: Tables, id: nat, req: Request, w: World)
    requires id in t.resources && w.commits && ExitOf(t, id, req, w).UserRead?
    ensures var r, results := t.resources[id], ExitOf(t, id, req, w).results;
            AfterSync(t, id, req, w).resources[id] ==
            if ErrorMessage(results).None? && forall item <- results :: item.ResultItem? ==> item.available then
              r.(governance := NoGovernance, lastSync := Some(w.now))
            else r
  {
    hide ErrorMessage, EventIds, ClosedRun, EventsAfter, NewBlock, OpenRun, ExitOf;
  }

  /** What the reader is asked for. */
  lemma ArgsByText(r: Resource)
    ensures StoredChat(r) ==> ArgsFor(r) == Some(Messages(r.resourceId))
    ensures StoredApproval(r) ==> ArgsFor(r) == Some(Approvals(r.resourceId))
    ensures StoredCalendar(r) ==> ArgsFor(r) == Some(CalendarEvents)
    ensures StoredMeeting(r) ==> ArgsFor(r) == Some(Meetings)
    ensures StoredTask(r) ==> ArgsFor(r) == Some(Tasks)
    ensures StoredDirectory(r) ==> ArgsFor(r) == Some(Contacts)
    ensures StoredDoc(r) ==>
              ArgsFor(r) == Some(Document(r.resourceId, if r.documentType != "" then r.documentType else "docx"))
    ensures StoredBitable(r) && r.subId != "" ==> ArgsFor(r) == Some(BitableRecords(r.resourceId, r.subId))
    ensures StoredMailbox(r) && r.subId != "" ==> ArgsFor(r) == Some(Mail(r.resourceId, r.subId))
    ensures StoredMailbox(r) && r.subId == "" && r.folderId != "" ==> ArgsFor(r) == Some(Mail(r.resourceId, r.folderId))
  {
    KnowledgeTypes(r);
    EventTypes(r);
    CapabilityTypes(r);
    hide KindFor, StoredDoc, StoredBitable, StoredChat, StoredApproval, StoredMailbox;
    hide StoredCalendar, StoredMeeting, StoredTask, StoredDirectory;
  }

  /** What an owner's decision leaves: its four keys, or none of them after a reset, and every other key as it
      was; an entry that nothing is left of is dropped, and an unknown decision is refused. */
  lemma DecidedLeaves(t: Tables, id: nat, decision: string, note: string, nowText: string)
    requires id in t.resources
    ensures var r, u := t.resources[id], AfterDecide(t, id, decision, note, nowText, true);
            var g := if r.governance.Governance? then r.governance else EMPTY_GOVERNANCE;
            var text := if decision == "business_group" then "业务群" else if decision == "do_not_connect" then "不接入"
                        else if decision == "ignore" then "忽略" else "负责人已确认";
            var reset := g.(decision := None, decisionLabel := None, decisionNote := None, decisionAt := None);
            if decision == "" || decision == "reset" then
              u == t.(resources := t.resources[id := r.(governance := if reset == EMPTY_GOVERNANCE then NoGovernance
                                                                      else reset)])
            else if decision == "business_group" || decision == "do_not_connect" || decision == "ignore" ||
                    decision == "owner_confirmed" then
              u == t.(resources := t.resources[id := r.(governance := g.(
                        decision := Some(decision), decisionLabel := Some(text), decisionNote := Some(note),
                        decisionAt := Some(nowText)))])
            else u == t
  {
  }
}
