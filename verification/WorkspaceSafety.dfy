/** What every run of the executor keeps: run records, access blocks, owner decisions. */
module WorkspaceSafety {
  import opened Options
  import opened Text
  import opened Strategy
  import opened Decisions
  import opened SyncResults
  import opened Workspace

  /** A request against the workspace. A retry is a sync with `retry` set. */
  datatype Op =
    | SyncOp(id: nat, req: Request, w: World)
    | ClearOp(id: nat, commits: bool)
    | DecideOp(id: nat, decision: string, note: string, nowText: string, commits: bool)

  function Apply(t: Tables, op: Op): Tables {
    match op
    case SyncOp(id, req, w) => AfterSync(t, id, req, w)
    case ClearOp(id, commits) => AfterClear(t, id, commits)
    case DecideOp(id, decision, note, nowText, commits) => AfterDecide(t, id, decision, note, nowText, commits)
  }

  function Replay(t: Tables, ops: seq<Op>): Tables {
    if ops == [] then t else Apply(Replay(t, ops[..|ops| - 1]), ops[|ops| - 1])
  }

  // ---- run records ----

  predicate HasRunning(t: Tables) {
    exists i | 0 <= i < |t.runs| :: t.runs[i].status == Running
  }

  /** The fetch came back, so the reader had already committed the open run, and the closing
      commit was lost. */
  predicate LosesClosingCommit(t: Tables, op: Op) {
    op.SyncOp? && ExitOf(t, op.id, op.req, op.w).FetchReturned? && !op.w.commits
  }

  predicate Accounted(run: RunRow) {
    && run.seen >= 0 && run.indexed >= 0 && run.skipped >= 0
    && (run.status in {Success, Partial, Failed} ==> run.seen == run.indexed + run.skipped)
    && (run.status == RunSkipped ==> run.seen == run.indexed == 0 && run.skipped == 1)
    && (run.status == Running <==> run.finishedAt.None?)
  }

  lemma ReadRunIsAccounted(run: RunRow, results: Results, now: int)
    ensures Accounted(ReadRun(run, results, now)) && ReadRun(run, results, now).status != Running
  {
    var indexed := |EventIds(results)|;
    var seen := ItemsSeen(results, indexed);
    assert seen >= indexed;
  }

  lemma ClosedRunIsAccounted(run: RunRow, e: Exit, now: int)
    requires !e.Missing? && !e.UserRaised?
    ensures Accounted(ClosedRun(run, e, now)) && ClosedRun(run, e, now).status != Running
  {
    match e {
      case UserRead(results, _) => ReadRunIsAccounted(run, results, now);
      case FetchReturned(results, _) => ReadRunIsAccounted(run, results, now);
      case _ =>
    }
  }

  /** One step only ever adds run rows at the end; it adds a running one exactly when it loses the
      closing commit of a fetch that came back. */
  lemma StepRuns(t: Tables, op: Op)
    ensures t.runs <= Apply(t, op).runs
    ensures HasRunning(Apply(t, op)) <==> HasRunning(t) || LosesClosingCommit(t, op)
    ensures (forall run <- t.runs :: Accounted(run)) ==> (forall run <- Apply(t, op).runs :: Accounted(run))
  {
    var t' := Apply(t, op);
    if t'.runs != t.runs {
      var e := ExitOf(t, op.id, op.req, op.w);
      var open := OpenRun(op.id, t.resources[op.id], op.req, op.w.now);
      if op.w.commits {
        ClosedRunIsAccounted(open, e, op.w.now);
        assert t'.runs == t.runs + [ClosedRun(open, e, op.w.now)];
      } else {
        assert t'.runs == t.runs + [open];
        assert t'.runs[|t.runs|].status == Running;
      }
      forall i | 0 <= i < |t.runs| ensures t'.runs[i] == t.runs[i] {}
    }
  }

  /** Step by step, whether the step lost its closing commit. */
  function Losses(t: Tables, ops: seq<Op>): seq<bool> {
    if ops == [] then []
    else
      var front := ops[..|ops| - 1];
      Losses(t, front) + [LosesClosingCommit(Replay(t, front), ops[|ops| - 1])]
  }

  /** Over any run, rows are never rewritten or removed, and every row adds up. */
  lemma {:induction false} RunRowsAddUp(t: Tables, ops: seq<Op>)
    requires forall run <- t.runs :: Accounted(run)
    ensures t.runs <= Replay(t, ops).runs
    ensures forall run <- Replay(t, ops).runs :: Accounted(run)
  {
    if ops != [] {
      var front := ops[..|ops| - 1];
      RunRowsAddUp(t, front);
      StepRuns(Replay(t, front), ops[|ops| - 1]);
    }
  }

  /** Over any run, a committed row is left "running" if and only if some fetch came back and then
      lost its closing commit. */
  lemma {:induction false} LeftRunningIff(t: Tables, ops: seq<Op>)
    requires !HasRunning(t)
    ensures HasRunning(Replay(t, ops)) <==> true in Losses(t, ops)
  {
    if ops != [] {
      var front := ops[..|ops| - 1];
      LeftRunningIff(t, front);
      StepRuns(Replay(t, front), ops[|ops| - 1]);
    }
  }

  // ---- one resource's failure and the others ----

  /** A call changes no other resource, takes away no run and no event, and a call that raises
      changes no resource at all. */
  lemma {:induction false} CallsAreIsolated(t: Tables, op: Op, other: nat)
    ensures Apply(t, op).resources.Keys == t.resources.Keys
    ensures other in t.resources && other != op.id ==> Apply(t, op).resources[other] == t.resources[other]
    ensures t.runs <= Apply(t, op).runs && t.events.Keys <= Apply(t, op).events.Keys
    ensures Apply(t, op).autoRuns == t.autoRuns
    ensures op.SyncOp? && OutcomeOf(ExitOf(t, op.id, op.req, op.w), true, op.w.commits).Raised? ==>
              Apply(t, op).resources == t.resources
  {
    hide ExitOf, OpenRun, ClosedRun, HasRunning, LosesClosingCommit, WithDecision;
    StepRuns(t, op);
    if op.SyncOp? && op.id in t.resources {
      var e := ExitOf(t, op.id, op.req, op.w);
      if e.FetchRaised? {
        assert ResourceAfter(t.resources[op.id], e, op.w) == t.resources[op.id];
        assert t.resources[op.id := t.resources[op.id]] == t.resources;
      }
    }
  }

  // ---- access blocks ----

  predicate BlockedIn(t: Tables, id: nat) {
    id in t.resources && Blocked(t.resources[id])
  }

  /** What may lift a block: an explicit clear, or a retry that ended available without an error. */
  predicate Releases(t: Tables, op: Op, id: nat) {
    && op.id == id
    && match op
       case ClearOp(_, commits) => commits
       case SyncOp(_, req, w) => req.retry && w.commits && Succeeds(ExitOf(t, id, req, w))
       case DecideOp(_, _, _, _, _) => false
  }

  /** A plain sync of a blocked resource records a skipped run and changes nothing else. */
  lemma PlainSyncOfBlockedOnlyRecordsASkip(t: Tables, id: nat, req: Request, w: World)
    requires BlockedIn(t, id) && !req.retry
    ensures ExitOf(t, id, req, w).Stopped? && ExitOf(t, id, req, w).why.NotExecutable?
    ensures AfterSync(t, id, req, w) ==
            if w.commits
            then t.(runs := t.runs + [StopRun(OpenRun(id, t.resources[id], req, w.now),
                                              ExitOf(t, id, req, w).why, w.now)])
            else t
  {
    assert t.resources[id := t.resources[id]] == t.resources;
  }

  /** No retry of any kind admits a resource that would not be admitted unblocked; the decision of a
      retry is the decision on the same resource without its governance. */
  lemma RetryDecidesOnTheUnblockedResource(r: Resource, req: Request)
    requires req.retry && Blocked(r)
    ensures DecisionFor(r, req) == DecisionFor(r.(governance := NoGovernance), req.(retry := false))
  {
  }

  /** set_resource_access_decision leaves the block status as it is. */
  lemma DecisionKeepsStatus(g: Governance, decision: string, note: string, nowText: string)
    ensures WithDecision(g, decision, note, nowText).Some? ==>
              AccessStatus(WithDecision(g, decision, note, nowText).value) == AccessStatus(g)
  {
  }

  /** Recording a decision and resetting it removes exactly the decision: the rest is back as it was. */
  lemma ResetUndoesDecision(g: Governance, decision: string, note: string, now: string, later: string)
    requires DecisionLabel(decision).Some?
    requires g.Governance? ==> g.decision == g.decisionLabel == g.decisionNote == g.decisionAt == None
    ensures var decided := WithDecision(g, decision, note, now);
            && decided.Some?
            && WithDecision(decided.value, "reset", note, later) ==
               Some(if g == EMPTY_GOVERNANCE then NoGovernance else g)
  {
  }

  /** The reply reports what a resource of this type is blocked for. */
  predicate Forbids(kind: Kind, results: Results) {
    ErrorMessage(results).Some? &&
    var error := ErrorMessage(results).value;
    || (kind == Chat && (Contains(error, "230002") || Contains(error, "Bot/User can NOT be out of the chat")))
    || (kind == Calendar && Contains(error, "99992402") && Contains(error, "field validation failed"))
  }

  /** However a call goes, what it leaves is blocked if it was and the call did not succeed, or if
      the call fetched the error its type is blocked for; and then it has not cleared. */
  lemma BlockAfterExit(r: Resource, e: Exit, w: World)
    ensures var imposed := e.FetchReturned? && Forbids(KindFor(r), e.results);
            && (imposed ==> !Succeeds(e))
            && (Blocked(ResourceAfter(r, e, w)) <==> imposed || (Blocked(r) && !Succeeds(e)))
  {
  }

  /** A call on a blocked resource lifts the block only when it succeeds; a plain sync never does. */
  lemma {:induction false} SyncOfBlocked(t: Tables, id: nat, req: Request, w: World)
    requires BlockedIn(t, id)
    ensures BlockedIn(AfterSync(t, id, req, w), id) <==> !(w.commits && Succeeds(ExitOf(t, id, req, w)))
    ensures !req.retry ==> !Succeeds(ExitOf(t, id, req, w)) && AfterSync(t, id, req, w).resources == t.resources
  {
    BlockAfterExit(t.resources[id], ExitOf(t, id, req, w), w);
    if !req.retry {
      PlainSyncOfBlockedOnlyRecordsASkip(t, id, req, w);
    }
  }

  lemma StepKeepsBlock(t: Tables, op: Op, id: nat)
    requires BlockedIn(t, id)
    ensures BlockedIn(Apply(t, op), id) <==> !Releases(t, op, id)
    ensures !Releases(t, op, id) && !(op.SyncOp? && op.id == id && op.req.retry) ==>
              && Apply(t, op).resources[id].lastSync == t.resources[id].lastSync
              && AccessStatus(Apply(t, op).resources[id].governance) == AccessStatus(t.resources[id].governance)
  {
    CallsAreIsolated(t, op, id);
    if op.id == id {
      match op
      case DecideOp(_, decision, note, nowText, _) =>
        DecisionKeepsStatus(t.resources[id].governance, decision, note, nowText);
      case SyncOp(_, req, w) => SyncOfBlocked(t, id, req, w);
      case ClearOp(_, _) =>
    }
  }

  /** No step of the run releases the resource. */
  predicate NeverReleases(t: Tables, ops: seq<Op>, id: nat) {
    ops == [] ||
    var front := ops[..|ops| - 1];
    NeverReleases(t, front, id) && !Releases(Replay(t, front), ops[|ops| - 1], id)
  }

  /** No step of the run retries the resource. */
  predicate NeverRetries(ops: seq<Op>, id: nat) {
    forall op <- ops :: !(op.SyncOp? && op.id == id && op.req.retry)
  }

  /** Over any run that never releases it, a blocked resource stays blocked; without a retry its block
      status and its last sync stay what they were. */
  lemma {:induction false} BlockedUntilReleased(t: Tables, ops: seq<Op>, id: nat)
    requires BlockedIn(t, id) && NeverReleases(t, ops, id)
    ensures BlockedIn(Replay(t, ops), id)
    ensures NeverRetries(ops, id) ==>
              && Replay(t, ops).resources[id].lastSync == t.resources[id].lastSync
              && AccessStatus(Replay(t, ops).resources[id].governance) == AccessStatus(t.resources[id].governance)
  {
    if ops != [] {
      var front := ops[..|ops| - 1];
      BlockedUntilReleased(t, front, id);
      StepKeepsBlock(Replay(t, front), ops[|ops| - 1], id);
      assert NeverRetries(ops, id) ==> NeverRetries(front, id);
    }
  }

  /** When a block appears: a committed fetch of that resource came back with the error its type is
      blocked for. Then the same call did not clear. */
  lemma {:induction false} BlockAppearsOnlyFromAFetch(t: Tables, op: Op, id: nat)
    requires id in t.resources && !Blocked(t.resources[id])
    ensures BlockedIn(Apply(t, op), id) <==>
            && op.SyncOp? && op.id == id && op.w.commits
            && ExitOf(t, id, op.req, op.w).FetchReturned?
            && Forbids(KindFor(t.resources[id]), ExitOf(t, id, op.req, op.w).results)
    ensures BlockedIn(Apply(t, op), id) ==> !Succeeds(ExitOf(t, id, op.req, op.w))
  {
    CallsAreIsolated(t, op, id);
    if op.SyncOp? && op.id == id {
      BlockAfterExit(t.resources[id], ExitOf(t, id, op.req, op.w), op.w);
    }
    if op.DecideOp? && op.id == id {
      DecisionKeepsStatus(t.resources[id].governance, op.decision, op.note, op.nowText);
    }
  }

  // ---- owner decisions ----

  function OwnerDecision(g: Governance): string {
    if g.Governance? && g.decision.Some? then g.decision.value else ""
  }

  lemma OwnerDecisionAfterExit(r: Resource, e: Exit, w: World)
    ensures OwnerDecision(ResourceAfter(r, e, w).governance) == if Succeeds(e) then "" else OwnerDecision(r.governance)
  {
  }

  /** A sync keeps the owner's access decision exactly when there is none to lose, or the call does not
      both succeed and commit: clearing "the access block" drops the whole governance entry, of a
      resource that was never blocked as well. */
  lemma SyncKeepsOwnerDecisionIff(t: Tables, id: nat, req: Request, w: World)
    requires id in t.resources
    ensures OwnerDecision(AfterSync(t, id, req, w).resources[id].governance) ==
            OwnerDecision(t.resources[id].governance)
            <==> OwnerDecision(t.resources[id].governance) == "" || !w.commits || !Succeeds(ExitOf(t, id, req, w))
  {
    OwnerDecisionAfterExit(t.resources[id], ExitOf(t, id, req, w), w);
  }

  lemma EmptyReplySucceeds()
    ensures Succeeds(FetchReturned([], map[]))
  {
  }

  /** An executable chat is fetched with its own app configuration. */
  lemma ChatIsFetched(chat: Resource, w: World)
    requires KindFor(chat) == Chat && ArgsFor(chat).Some? && DecisionFor(chat, Request("", "", false)).Executable()
    requires DecisionFor(chat, Request("", "", false)).plan.action == RealtimeEvent
    requires w.source.None? && chat.appConfig.Some? && chat.appConfig.value in w.appConfigs && w.reply.ReplyReturned?
    ensures ExitFor(chat, Request("", "", false), w) == FetchReturned(w.reply.results, w.reply.saved)
  {
    hide DecisionFor, KindFor, ArgsFor;
  }

  /** The decision "ignore" on a chat that was never blocked is lost by its next good sync. */
  lemma OwnerDecisionIsLost()
    ensures var chat := Resource(0, "feishu", "chat", "oc_1", "", true, 0, None, Some(7), "", "",
                                 EMPTY_GOVERNANCE.(decision := Some("ignore")));
            var t := Tables(map[1 := chat], [], map[], []);
            var w := World(5, "", None, {7}, ReplyReturned([], map[]), "", true);
            && !Blocked(chat)
            && OwnerDecision(AfterSync(t, 1, Request("", "", false), w).resources[1].governance) == ""
  {
    var chat := Resource(0, "feishu", "chat", "oc_1", "", true, 0, None, Some(7), "", "",
                         EMPTY_GOVERNANCE.(decision := Some("ignore")));
    var t := Tables(map[1 := chat], [], map[], []);
    var w := World(5, "", None, {7}, ReplyReturned([], map[]), "", true);
    OrdinaryId();
    ChatIsReady(chat);
    assert DecisionFor(chat, Request("", "", false)) == Decide(chat, Policy("", "", [], [], 0, 0));
    hide KindFor, ArgsFor, Decide, DecisionFor, ExitFor;
    ChatIsFetched(chat, w);
    EmptyReplySucceeds();
    OwnerDecisionAfterExit(chat, FetchReturned([], map[]), w);
  }

  lemma OrdinaryId()
    ensures Trimmed("oc_1") && |"oc_1"| == 4
  {
  }

  lemma PlainChatId(id: string)
    requires Trimmed(id) && 0 < |id| <= 4
    ensures Strip(id) == id && !Redacted(id) && !Redacted("")
  {
    TrimmedIsFixed(id);
    forall part: string | |part| > 4 ensures !Contains(id, part) && !Contains("", part) {
      TooShortToContain(id, part);
      TooShortToContain("", part);
    }
  }

  /** A plain Feishu chat is executable under any modes. */
  lemma ChatIsReady(r: Resource)
    requires r.enabled && r.platform == "feishu" && r.resourceType == "chat" && r.subId == ""
    requires Trimmed(r.resourceId) && 0 < |r.resourceId| <= 4 && !Blocked(r)
    ensures KindFor(r) == Chat && ArgsFor(r) == Some(Messages(r.resourceId))
    ensures forall p: Policy | p.resourceTypes == [] :: Decide(r, p).status == Ready
    ensures forall p: Policy :: Decide(r, p).plan.action == RealtimeEvent
  {
    PlainChatId(r.resourceId);
    TrimmedIsFixed("chat");
    assert Lower("chat") == "chat";
  }
}
