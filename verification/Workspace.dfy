/** The transactional sync executor (v5_workspace.py, resource_sync_runs.py): one database session
    over durable tables. `AfterSync` says what a call leaves durable; the class performs the call. */
module Workspace {
  import opened Options
  import opened Text
  import opened Strategy
  import opened Decisions
  import opened SyncResults

  datatype RunStatus = Running | RunSkipped | Failed | Partial | Success

  /** Why a call stops before it touches the resource. */
  datatype Stop = NotExecutable(status: DecisionStatus) | NoAppConfig | AppConfigGone | Undispatched

  /** error_message: a stop's fixed text stands for its reason. */
  datatype RunError = NoError | StopText(why: Stop) | Message(text: string)

  /** A row of resource_sync_runs. */
  datatype RunRow = RunRow(
    resource: nat,
    company: nat,
    action: Action,
    status: RunStatus,
    startedAt: int,
    finishedAt: Option<int>,
    seen: int,
    indexed: int,
    skipped: int,
    error: RunError)

  datatype EventRow = EventRow(company: nat, boundTo: Option<nat>)

  datatype AutoStatus = AutoRunning | AutoSuccess | AutoPartial

  /** A row of sync_runs with provider v5_resource and type auto; its cursor holds the policy. */
  datatype AutoRun = AutoRun(company: nat, startedAt: int, intervalSeconds: int, status: AutoStatus, errors: nat)

  datatype Tables = Tables(
    resources: map<nat, Resource>,
    runs: seq<RunRow>,
    events: map<string, EventRow>,
    autoRuns: seq<AutoRun>)

  datatype Request = Request(largeDocumentMode: string, bitableMode: string, retry: bool)

  datatype SourceKind = AppIdentity | UserIdentity | OtherIdentity

  /** The preferred resource source; `account` is its account id when that parses as a UUID. */
  datatype Source = Source(kind: SourceKind, account: Option<nat>)

  /** What the Feishu side does: it saves events through the session and returns, or raises midway. */
  datatype Reply =
    | ReplyRaised(message: string, saved: map<string, EventRow>)
    | ReplyReturned(results: Results, saved: map<string, EventRow>)

  /** Everything a call meets outside its arguments. `commits` says whether the closing commit is
      reached and succeeds. */
  datatype World = World(
    now: int,
    nowText: string,
    source: Option<Source>,
    appConfigs: set<nat>,
    reply: Reply,
    indexEvent: string,
    commits: bool)

  datatype Outcome = NotFound | Raised | Returned(available: bool, saved: nat, blockCleared: bool)

  /** The ways through sync_v5_resource, each with what it brings back. */
  datatype Exit =
    | Missing
    | Stopped(why: Stop)
    | Indexed
    | UserRaised
    | UserRead(results: Results, saved: map<string, EventRow>)
    | FetchRaised(message: string, saved: map<string, EventRow>)
    | FetchReturned(results: Results, saved: map<string, EventRow>)

  // ---- the resource's governance ----

  /** _decision_resource: a retry decides on a copy without the block. */
  function DecisionResource(r: Resource, retry: bool): Resource {
    if retry && Blocked(r) then r.(governance := NoGovernance) else r
  }

  function OrEmpty(g: Governance): (r: Governance)
    ensures r.Governance?
  {
    if g.Governance? then g else EMPTY_GOVERNANCE
  }

  function WithBlock(g: Governance, status: string, reason: BlockReason, error: string, nowText: string): Governance {
    var base := OrEmpty(g);
    base.(status := Some(status), reason := Some(reason), errorMessage := Some(error), updatedAt := Some(nowText))
  }

  /** RESOURCE_ACCESS_DECISIONS. */
  function DecisionLabel(decision: string): Option<string> {
    match decision
    case "business_group" => Some("业务群")
    case "do_not_connect" => Some("不接入")
    case "ignore" => Some("忽略")
    case "owner_confirmed" => Some("负责人已确认")
    case _ => None
  }

  function WithoutDecision(g: Governance): Governance {
    var base := OrEmpty(g);
    var kept := base.(decision := None, decisionLabel := None, decisionNote := None, decisionAt := None);
    if kept == EMPTY_GOVERNANCE then NoGovernance else kept
  }

  /** set_resource_access_decision; None for the ValueError. */
  function WithDecision(g: Governance, decision: string, note: string, nowText: string): Option<Governance> {
    if decision == "" || decision == "reset" then Some(WithoutDecision(g))
    else if DecisionLabel(decision).None? then None
    else
      var base := OrEmpty(g);
      Some(base.(decision := Some(decision), decisionLabel := DecisionLabel(decision),
                 decisionNote := Some(note), decisionAt := Some(nowText)))
  }

  /** What set_resource_access_decision accepts: a reset, or one of the four decisions. */
  predicate KnownDecision(decision: string) {
    decision in {"", "reset", "business_group", "do_not_connect", "ignore", "owner_confirmed"}
  }

  predicate IsBotNotInChat(error: Option<string>) {
    error.Some? && (Contains(error.value, "230002") || Contains(error.value, "Bot/User can NOT be out of the chat"))
  }

  predicate IsCalendarAuthorization(error: Option<string>) {
    error.Some? && Contains(error.value, "99992402") && Contains(error.value, "field validation failed")
  }

  // ---- which way a call goes ----

  function DecisionFor(r: Resource, req: Request): Decision {
    Decide(DecisionResource(r, req.retry), Policy(req.largeDocumentMode, req.bitableMode, [], [], 0, 0))
  }

  /** _app_config_id_for_sync. */
  function AppConfigFor(r: Resource, source: Option<Source>): Option<nat> {
    if source.Some? && source.value.kind == AppIdentity && source.value.account.Some? then source.value.account
    else r.appConfig
  }

  /** _sync_user_authorized_resource: only Bitable tables are read with a user's token. */
  function UserReply(r: Resource, reply: Reply): Reply {
    if KindFor(r) == Bitable && r.subId != "" then reply
    else ReplyReturned([ResultItem(false, [], None, Some(0), None, "unsupported resource type", [])], map[])
  }

  /** The way the call goes, for a resource that exists. */
  function ExitFor(r: Resource, req: Request, w: World): Exit {
    var d := DecisionFor(r, req);
    var config := AppConfigFor(r, w.source);
    if !d.Executable() then Stopped(NotExecutable(d.status))
    else if config.None? then Stopped(NoAppConfig)
    else if config.value !in w.appConfigs then Stopped(AppConfigGone)
    else if d.plan.action == DocumentIndexOnly then Indexed
    else if w.source.Some? && w.source.value.kind == UserIdentity then
      match UserReply(r, w.reply)
      case ReplyRaised(_, _) => UserRaised
      case ReplyReturned(results, saved) => UserRead(results, saved)
    else if ArgsFor(r).None? then Stopped(Undispatched)
    else
      match w.reply
      case ReplyRaised(message, saved) => FetchRaised(message, saved)
      case ReplyReturned(results, saved) => FetchReturned(results, saved)
  }

  function ExitOf(t: Tables, id: nat, req: Request, w: World): Exit {
    if id in t.resources then ExitFor(t.resources[id], req, w) else Missing
  }

  predicate Clean(results: Results) {
    Available(results) && ErrorMessage(results).None?
  }

  /** The call got through to the resource and came back available, without an error. */
  predicate Succeeds(e: Exit) {
    e.Indexed? || ((e.UserRead? || e.FetchReturned?) && Clean(e.results))
  }

  /** The call stamps last_sync_at. A fetch that returns stamps it whatever it returned. */
  predicate Stamps(e: Exit) {
    Succeeds(e) || e.FetchReturned?
  }

  /** The block a fetch's error imposes, if any. */
  function NewBlock(kind: Kind, results: Results): Option<(string, BlockReason)> {
    var error := ErrorMessage(results);
    if IsBotNotInChat(error) && kind == Chat then Some(("bot_not_in_chat", BotNotInChatReason))
    else if IsCalendarAuthorization(error) && kind == Calendar then
      Some(("requires_user_authorization", CalendarNeedsUserReason))
    else None
  }

  function GovernanceAfter(r: Resource, e: Exit, nowText: string): Governance {
    if Succeeds(e) then NoGovernance
    else if e.FetchReturned? && NewBlock(KindFor(r), e.results).Some? then
      var block := NewBlock(KindFor(r), e.results).value;
      WithBlock(r.governance, block.0, block.1, ErrorMessage(e.results).value, nowText)
    else r.governance
  }

  function ResourceAfter(r: Resource, e: Exit, w: World): Resource {
    r.(governance := GovernanceAfter(r, e, w.nowText), lastSync := if Stamps(e) then Some(w.now) else r.lastSync)
  }

  // ---- what a call leaves behind ----

  function OpenRun(id: nat, r: Resource, req: Request, now: int): RunRow {
    RunRow(id, r.company, DecisionFor(r, req).plan.action, Running, now, None, 0, 0, 0, NoError)
  }

  /** finish_resource_sync_run. */
  function Finish(
    run: RunRow, now: int, status: RunStatus, seen: int, indexed: int, skipped: int, error: RunError): RunRow
  {
    run.(status := status, finishedAt := Some(now), seen := Max(seen, 0), indexed := Max(indexed, 0),
         skipped := Max(skipped, 0), error := error)
  }

  function StopRun(run: RunRow, why: Stop, now: int): RunRow {
    if why.NotExecutable? || why.Undispatched? then Finish(run, now, RunSkipped, 0, 0, 1, StopText(why))
    else Finish(run, now, Failed, 0, 0, 0, StopText(why))
  }

  function ReadRun(run: RunRow, results: Results, now: int): RunRow {
    var ids := EventIds(results);
    var seen := ItemsSeen(results, |ids|);
    var error := ErrorMessage(results);
    Finish(run, now, if Available(results) then Success else Partial, seen, |ids|, Max(seen - |ids|, 0),
           if error.Some? then Message(error.value) else NoError)
  }

  function ClosedRun(run: RunRow, e: Exit, now: int): RunRow {
    match e
    case Missing => run
    case UserRaised => run
    case Stopped(why) => StopRun(run, why, now)
    case Indexed => Finish(run, now, Success, 1, 1, 0, NoError)
    case FetchRaised(message, _) => Finish(run, now, Failed, 0, 0, 0, Message(Truncate(message, 1000)))
    case UserRead(results, _) => ReadRun(run, results, now)
    case FetchReturned(results, _) => ReadRun(run, results, now)
  }

  /** _bind_work_events_to_resource. */
  function Bind(events: map<string, EventRow>, ids: seq<string>, company: nat, id: nat): map<string, EventRow> {
    map e | e in events ::
      if e in ids && events[e].company == company then events[e].(boundTo := Some(id)) else events[e]
  }

  function EventsAfter(events: map<string, EventRow>, id: nat, company: nat, e: Exit, w: World): map<string, EventRow> {
    match e
    case Indexed => events[w.indexEvent := EventRow(company, Some(id))]
    case FetchRaised(_, saved) => events + saved
    case UserRead(results, saved) => Bind(events + saved, EventIds(results), company, id)
    case FetchReturned(results, saved) => Bind(events + saved, EventIds(results), company, id)
    case _ => events
  }

  /** The durable tables once a call on an existing resource has gone way `e`. The Feishu reader
      commits the shared session itself before it returns (feishu/sync.py), so a fetch whose closing
      commit is lost still leaves its run row, as it was opened, and the events it saved. */
  function AfterExit(t: Tables, id: nat, e: Exit, run: RunRow, w: World): Tables
    requires id in t.resources
  {
    var r := t.resources[id];
    if e.Missing? || e.UserRaised? then t
    else if w.commits then
      t.(resources := t.resources[id := ResourceAfter(r, e, w)],
         runs := t.runs + [ClosedRun(run, e, w.now)],
         events := EventsAfter(t.events, id, r.company, e, w))
    else if e.FetchReturned? then t.(runs := t.runs + [run], events := t.events + e.saved)
    else t
  }

  function AfterSync(t: Tables, id: nat, req: Request, w: World): Tables {
    if id !in t.resources then t
    else AfterExit(t, id, ExitOf(t, id, req, w), OpenRun(id, t.resources[id], req, w.now), w)
  }

  function OutcomeOf(e: Exit, governed: bool, commits: bool): Outcome {
    if e.Missing? then NotFound
    else if e.UserRaised? || e.FetchRaised? || !commits then Raised
    else if e.Indexed? then Returned(true, 1, governed)
    else if e.UserRead? || e.FetchReturned? then
      Returned(Available(e.results), |EventIds(e.results)|, Clean(e.results) && governed)
    else Returned(false, 0, false)
  }

  function AfterClear(t: Tables, id: nat, commits: bool): Tables {
    if id in t.resources && commits then
      t.(resources := t.resources[id := t.resources[id].(governance := NoGovernance)])
    else t
  }

  function AfterDecide(t: Tables, id: nat, decision: string, note: string, nowText: string, commits: bool): Tables {
    if id in t.resources && commits then
      var g := WithDecision(t.resources[id].governance, decision, note, nowText);
      if g.None? then t else t.(resources := t.resources[id := t.resources[id].(governance := g.value)])
    else t
  }

  /** A database session. `session` is what its queries see; `committed` is what survives it. */
  class Session {
    var committed: Tables
    var session: Tables

    constructor (t: Tables)
      ensures committed == session == t
    {
      committed, session := t, t;
    }

    method Commit(reached: bool) returns (ok: bool)
      modifies this`committed
      ensures ok == reached
      ensures committed == if reached then session else old(committed)
    {
      if reached { committed := session; }
      ok := reached;
    }

    method Rollback()
      modifies this`session
      ensures session == committed
    {
      session := committed;
    }

    /** start_resource_sync_run. */
    method StartRun(id: nat, company: nat, action: Action, now: int) returns (run: nat)
      modifies this`session
      ensures run == |old(session).runs|
      ensures session == old(session).(runs := old(session).runs +
                           [RunRow(id, company, action, Running, now, None, 0, 0, 0, NoError)])
    {
      run := |session.runs|;
      session := session.(runs := session.runs +
                            [RunRow(id, company, action, Running, now, None, 0, 0, 0, NoError)]);
    }

    /** finish_resource_sync_run. */
    method FinishRun(run: nat, now: int, status: RunStatus, seen: int, indexed: int, skipped: int, error: RunError)
      requires run < |session.runs|
      modifies this`session
      ensures session == old(session).(runs := old(session).runs[
                           run := Finish(old(session).runs[run], now, status, seen, indexed, skipped, error)])
    {
      var row := session.runs[run];
      row := row.(status := status, finishedAt := Some(now));
      row := row.(seen := Max(seen, 0), indexed := Max(indexed, 0), skipped := Max(skipped, 0), error := error);
      session := session.(runs := session.runs[run := row]);
    }

    /** _mark_resource_access_blocked. */
    method MarkBlocked(id: nat, status: string, reason: BlockReason, error: string, nowText: string)
      requires id in session.resources
      modifies this`session
      ensures session == old(session).(resources := old(session).resources[
                           id := old(session).resources[id].(governance :=
                                   WithBlock(old(session).resources[id].governance, status, reason, error, nowText))])
    {
      var r := session.resources[id];
      r := r.(governance := WithBlock(r.governance, status, reason, error, nowText));
      session := session.(resources := session.resources[id := r]);
    }

    /** _clear_resource_access_block: the whole governance entry goes, owner decisions included. */
    method ClearBlock(id: nat) returns (removed: bool)
      requires id in session.resources
      modifies this`session
      ensures removed == (old(session).resources[id].governance != NoGovernance)
      ensures session == old(session).(resources := old(session).resources[
                           id := old(session).resources[id].(governance := NoGovernance)])
    {
      var r := session.resources[id];
      removed := r.governance != NoGovernance;
      session := session.(resources := session.resources[id := r.(governance := NoGovernance)]);
    }

    method Stamp(id: nat, now: int)
      requires id in session.resources
      modifies this`session
      ensures session == old(session).(resources := old(session).resources[
                           id := old(session).resources[id].(lastSync := Some(now))])
    {
      session := session.(resources := session.resources[id := session.resources[id].(lastSync := Some(now))]);
    }

    /** The closing commit of a path that returns. */
    method Close(w: World, result: Outcome) returns (outcome: Outcome)
      modifies this`committed
      ensures committed == if w.commits then session else old(committed)
      ensures outcome == if w.commits then result else Raised
    {
      var ok := Commit(w.commits);
      outcome := if ok then result else Raised;
    }

    /** The run is open, as the last row, and nothing else has changed. */
    ghost predicate Opened(before: Tables, id: nat, row: RunRow, run: nat)
      reads this
    {
      && committed == before
      && id in before.resources
      && run == |before.runs|
      && session == before.(runs := before.runs + [row])
    }

    method StopHere(ghost before: Tables, id: nat, ghost row: RunRow, run: nat, why: Stop, w: World)
      returns (outcome: Outcome)
      requires Opened(before, id, row, run)
      modifies this
      ensures committed == AfterExit(before, id, Stopped(why), row, w)
      ensures outcome == OutcomeOf(Stopped(why), before.resources[id].governance != NoGovernance, w.commits)
      ensures !outcome.Raised? ==> session == committed
    {
      if why.NotExecutable? || why.Undispatched? {
        FinishRun(run, w.now, RunSkipped, 0, 0, 1, StopText(why));
      } else {
        FinishRun(run, w.now, Failed, 0, 0, 0, StopText(why));
      }
      assert before.resources[id := before.resources[id]] == before.resources;
      assert session.runs == before.runs + [StopRun(row, why, w.now)];
      outcome := Close(w, Returned(false, 0, false));
    }

    method IndexOnly(ghost before: Tables, id: nat, ghost row: RunRow, run: nat, w: World) returns (outcome: Outcome)
      requires Opened(before, id, row, run)
      modifies this
      ensures committed == AfterExit(before, id, Indexed, row, w)
      ensures outcome == OutcomeOf(Indexed, before.resources[id].governance != NoGovernance, w.commits)
      ensures !outcome.Raised? ==> session == committed
    {
      var r := session.resources[id];
      session := session.(events := session.events[w.indexEvent := EventRow(r.company, Some(id))]);
      Stamp(id, w.now);
      var cleared := ClearBlock(id);
      FinishRun(run, w.now, Success, 1, 1, 0, NoError);
      assert session.resources == before.resources[id := ResourceAfter(r, Indexed, w)];
      assert session.runs == before.runs + [ClosedRun(row, Indexed, w.now)];
      outcome := Close(w, Returned(true, 1, cleared));
    }

    /** Closes the run of a reply that came back, with the counts read off the reply. */
    method FinishRead(run: nat, results: Results, ids: seq<string>, now: int)
      requires run < |session.runs| && ids == EventIds(results)
      modifies this`session
      ensures session == old(session).(runs := old(session).runs[run := ReadRun(old(session).runs[run], results, now)])
    {
      var seen := CountItemsSeen(results, |ids|);
      var error := ErrorMessage(results);
      FinishRun(run, now, if Available(results) then Success else Partial, seen, |ids|, Max(seen - |ids|, 0),
                if error.Some? then Message(error.value) else NoError);
    }

    /** Closes the run, then the transaction. */
    method CloseRead(ghost row: RunRow, run: nat, results: Results, ids: seq<string>, cleared: bool, w: World)
      returns (outcome: Outcome)
      requires run + 1 == |session.runs| && session.runs[run] == row && ids == EventIds(results)
      modifies this
      ensures session == old(session).(runs := old(session).runs[..run] + [ReadRun(row, results, w.now)])
      ensures committed == if w.commits then session else old(committed)
      ensures outcome == if w.commits then Returned(Available(results), |EventIds(results)|, cleared) else Raised
    {
      FinishRead(run, results, ids, w.now);
      assert session.runs == old(session).runs[..run] + [ReadRun(row, results, w.now)];
      outcome := Close(w, Returned(Available(results), |ids|, cleared));
    }

    /** What a reply read with the user's own token does to the resource. */
    method TouchAfterUserRead(id: nat, results: Results, w: World) returns (cleared: bool)
      requires id in session.resources
      modifies this`session
      ensures session == old(session).(resources := old(session).resources[
                           id := ResourceAfter(old(session).resources[id], UserRead(results, map[]), w)])
      ensures cleared == (Clean(results) && old(session).resources[id].governance != NoGovernance)
    {
      ghost var before := session;
      assert before.resources[id := before.resources[id]] == before.resources;
      cleared := false;
      if Available(results) && ErrorMessage(results).None? {
        cleared := ClearBlock(id);
        Stamp(id, w.now);
      }
    }

    method ReadAsUser(ghost before: Tables, id: nat, ghost row: RunRow, run: nat, w: World,
                      results: Results, saved: map<string, EventRow>)
      returns (outcome: Outcome)
      requires Opened(before, id, row, run)
      modifies this
      ensures committed == AfterExit(before, id, UserRead(results, saved), row, w)
      ensures outcome == OutcomeOf(UserRead(results, saved), before.resources[id].governance != NoGovernance, w.commits)
      ensures !outcome.Raised? ==> session == committed
    {
      var company := session.resources[id].company;
      var ids := CollectEventIds(results);
      session := session.(events := Bind(session.events + saved, ids, company, id));
      var cleared := TouchAfterUserRead(id, results, w);
      outcome := CloseRead(row, run, results, ids, cleared, w);
    }

    method FailFetch(ghost before: Tables, id: nat, ghost row: RunRow, run: nat, w: World,
                     message: string, saved: map<string, EventRow>)
      requires Opened(before, id, row, run)
      modifies this
      ensures committed == AfterExit(before, id, FetchRaised(message, saved), row, w)
    {
      session := session.(events := session.events + saved);
      FinishRun(run, w.now, Failed, 0, 0, 0, Message(Truncate(message, 1000)));
      assert before.resources[id := before.resources[id]] == before.resources;
      assert session.runs == before.runs + [ClosedRun(row, FetchRaised(message, saved), w.now)];
      var _ := Commit(w.commits);
    }

    method Fetch(ghost before: Tables, id: nat, ghost row: RunRow, run: nat, w: World,
                 results: Results, saved: map<string, EventRow>)
      returns (outcome: Outcome)
      requires Opened(before, id, row, run)
      modifies this
      ensures committed == AfterExit(before, id, FetchReturned(results, saved), row, w)
      ensures outcome ==
              OutcomeOf(FetchReturned(results, saved), before.resources[id].governance != NoGovernance, w.commits)
      ensures !outcome.Raised? ==> session == committed
    {
      var company := session.resources[id].company;
      session := session.(events := session.events + saved);
      var _ := Commit(true);
      var ids := CollectEventIds(results);
      var cleared := TouchAfterFetch(id, results, w);
      session := session.(events := Bind(session.events, ids, company, id));
      outcome := CloseRead(row, run, results, ids, cleared, w);
    }

    /** What a fetch that came back does to the resource, whatever it brought. */
    method TouchAfterFetch(id: nat, results: Results, w: World) returns (cleared: bool)
      requires id in session.resources
      modifies this`session
      ensures session == old(session).(resources := old(session).resources[
                           id := ResourceAfter(old(session).resources[id], FetchReturned(results, map[]), w)])
      ensures cleared == (Clean(results) && old(session).resources[id].governance != NoGovernance)
    {
      var kind := KindFor(session.resources[id]);
      cleared := Govern(id, kind, results, Available(results), ErrorMessage(results), w.nowText);
      Stamp(id, w.now);
    }

    /** The three conditional updates of the governance entry after a fetch; at most one applies. */
    method Govern(id: nat, kind: Kind, results: Results, available: bool, error: Option<string>, nowText: string)
      returns (cleared: bool)
      requires id in session.resources && kind == KindFor(session.resources[id])
      requires available == Available(results) && error == ErrorMessage(results)
      modifies this`session
      ensures session == old(session).(resources := old(session).resources[
                           id := old(session).resources[id].(
                                 governance := GovernanceAfter(
                                   old(session).resources[id], FetchReturned(results, map[]), nowText))])
      ensures cleared == (Clean(results) && old(session).resources[id].governance != NoGovernance)
    {
      ghost var before := session;
      assert before.resources[id := before.resources[id]] == before.resources;
      cleared := false;
      if IsBotNotInChat(error) && kind == Chat {
        MarkBlocked(id, "bot_not_in_chat", BotNotInChatReason, error.value, nowText);
      }
      if IsCalendarAuthorization(error) && kind == Calendar {
        MarkBlocked(id, "requires_user_authorization", CalendarNeedsUserReason, error.value, nowText);
      }
      if available && error.None? {
        cleared := ClearBlock(id);
      }
    }

    /** sync_v5_resource. */
    method Sync(id: nat, req: Request, w: World) returns (outcome: Outcome)
      requires session == committed
      modifies this
      ensures committed == AfterSync(old(committed), id, req, w)
      ensures outcome == OutcomeOf(ExitOf(old(committed), id, req, w),
                                   id in old(committed).resources &&
                                   old(committed).resources[id].governance != NoGovernance, w.commits)
      ensures !outcome.Raised? ==> session == committed
    {
      ghost var before := committed;
      if id !in session.resources { return NotFound; }
      var r := session.resources[id];
      var decision := DecisionFor(r, req);
      var run := StartRun(id, r.company, decision.plan.action, w.now);
      ghost var row := OpenRun(id, r, req, w.now);
      var config := AppConfigFor(r, w.source);
      if !decision.Executable() {
        outcome := StopHere(before, id, row, run, NotExecutable(decision.status), w);
      } else if config.None? {
        outcome := StopHere(before, id, row, run, NoAppConfig, w);
      } else if config.value !in w.appConfigs {
        outcome := StopHere(before, id, row, run, AppConfigGone, w);
      } else if decision.plan.action == DocumentIndexOnly {
        outcome := IndexOnly(before, id, row, run, w);
      } else if w.source.Some? && w.source.value.kind == UserIdentity {
        match UserReply(r, w.reply) {
          case ReplyRaised(_, saved) =>
            session := session.(events := session.events + saved);
            outcome := Raised;
          case ReplyReturned(results, saved) =>
            outcome := ReadAsUser(before, id, row, run, w, results, saved);
        }
      } else if ArgsFor(r).None? {
        outcome := StopHere(before, id, row, run, Undispatched, w);
      } else {
        match w.reply {
          case ReplyRaised(message, saved) =>
            FailFetch(before, id, row, run, w, message, saved);
            outcome := Raised;
          case ReplyReturned(results, saved) =>
            outcome := Fetch(before, id, row, run, w, results, saved);
        }
      }
    }

    /** clear_v5_resource_access_block. */
    method Clear(id: nat, commits: bool) returns (outcome: Outcome)
      requires session == committed
      modifies this
      ensures committed == AfterClear(old(committed), id, commits)
      ensures outcome == if id !in old(committed).resources then NotFound
                         else if !commits then Raised
                         else Returned(true, 0, old(committed).resources[id].governance != NoGovernance)
      ensures !outcome.Raised? ==> session == committed
    {
      if id !in session.resources { return NotFound; }
      var removed := ClearBlock(id);
      var ok := Commit(commits);
      outcome := if ok then Returned(true, 0, removed) else Raised;
    }

    /** update_v5_resource_access_decision. */
    method DecideAccess(id: nat, decision: string, note: string, nowText: string, commits: bool)
      returns (outcome: Outcome)
      requires session == committed
      modifies this
      ensures committed == AfterDecide(old(committed), id, decision, note, nowText, commits)
      ensures outcome == if id !in old(committed).resources then NotFound
                         else if !KnownDecision(decision) || !commits then Raised
                         else Returned(true, 0, false)
      ensures !outcome.Raised? ==> session == committed
    {
      if id !in session.resources { return NotFound; }
      var r := session.resources[id];
      var g := WithDecision(r.governance, decision, note, nowText);
      if g.None? { return Raised; }
      session := session.(resources := session.resources[id := r.(governance := g.value)]);
      var ok := Commit(commits);
      outcome := if ok then Returned(true, 0, false) else Raised;
    }
  }
}
