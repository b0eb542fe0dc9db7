/** The periodic tick (celery_app.py), the company run it starts (v5_auto_sync.py, sync_runs.py) and
    the spacing of those runs. */
module Ticks {
  import opened Lists
  import opened Options
  import opened Decisions
  import opened SyncResults
  import opened Workspace
  import opened WorkspaceSafety
  import opened Scheduler
  import opened Fairness

  const MICROSECONDS: int := 1_000_000

  /** One company's turn in a tick: the policy in force, the clock at the due check, the start and the
      selection, the rows the query returned, and what each pick met. */
  datatype Turn = Turn(
    company: nat,
    policy: Policy,
    checkedAt: int,
    startedAt: int,
    startCommits: bool,
    rows: seq<nat>,
    selectedAt: int,
    worlds: nat -> World,
    finishCommits: bool)

  /** started_at of the company's latest automatic run. */
  function LatestStart(runs: seq<AutoRun>, company: nat): Option<int> {
    if runs == [] then None
    else
      var last := runs[|runs| - 1];
      var earlier := LatestStart(runs[..|runs| - 1], company);
      if last.company != company then earlier
      else if earlier.Some? && earlier.value > last.startedAt then earlier
      else Some(last.startedAt)
  }

  /** company_auto_sync_due. */
  predicate Due(t: Tables, company: nat, intervalSeconds: int, now: int) {
    var latest := LatestStart(t.autoRuns, company);
    latest.Some? ==> now - latest.value >= intervalSeconds * MICROSECONDS
  }

  function QueryOf(turn: Turn): Query {
    Query(turn.company, turn.policy, "", turn.policy.statuses, 0)
  }

  function StartedRun(turn: Turn): AutoRun {
    AutoRun(turn.company, turn.startedAt, turn.policy.intervalSeconds, AutoRunning, 0)
  }

  function AfterStart(t: Tables, turn: Turn): Tables {
    t.(autoRuns := t.autoRuns + [StartedRun(turn)])
  }

  function WorldsOf(turn: Turn, n: nat): seq<World> {
    seq(n, i requires 0 <= i < n => turn.worlds(i))
  }

  function TurnPicks(t: Tables, turn: Turn): seq<nat> {
    Selected(turn.rows, AfterStart(t, turn), QueryOf(turn), turn.selectedAt)
  }

  /** The tables once the picks of a turn have been called. */
  function AfterCalls(t: Tables, turn: Turn): Tables {
    var picks := TurnPicks(t, turn);
    AfterPicks(AfterStart(t, turn), picks, turn.policy, WorldsOf(turn, |picks|))
  }

  predicate CallFails(o: Outcome) {
    o.Raised? || o.NotFound?
  }

  function CallOutcome(t: Tables, id: nat, p: Policy, w: World): Outcome {
    OutcomeOf(ExitOf(t, id, RequestUnder(p), w),
              id in t.resources && t.resources[id].governance != NoGovernance, w.commits)
  }

  /** How many of the picks end up among the errors. */
  function Failures(t: Tables, picks: seq<nat>, p: Policy, worlds: seq<World>): nat
    requires |worlds| == |picks|
  {
    if picks == [] then 0
    else
      var n := |picks| - 1;
      var before := AfterPicks(t, picks[..n], p, worlds[..n]);
      Failures(t, picks[..n], p, worlds[..n]) +
      (if CallFails(CallOutcome(before, picks[n], p, worlds[n])) then 1 else 0)
  }

  function TurnFailures(t: Tables, turn: Turn): nat {
    var picks := TurnPicks(t, turn);
    Failures(AfterStart(t, turn), picks, turn.policy, WorldsOf(turn, |picks|))
  }

  function CloseAutoRun(runs: seq<AutoRun>, at: nat, errors: nat): seq<AutoRun>
    requires at < |runs|
  {
    runs[at := runs[at].(status := if errors == 0 then AutoSuccess else AutoPartial, errors := errors)]
  }

  lemma {:induction false} PicksKeepAutoRuns(t: Tables, picks: seq<nat>, p: Policy, worlds: seq<World>)
    requires |worlds| == |picks|
    ensures AfterPicks(t, picks, p, worlds).autoRuns == t.autoRuns
  {
    if picks != [] {
      var n := |picks| - 1;
      PicksKeepAutoRuns(t, picks[..n], p, worlds[..n]);
      CallsAreIsolated(AfterPicks(t, picks[..n], p, worlds[..n]), SyncOp(picks[n], RequestUnder(p), worlds[n]), 0);
    }
  }

  /** sync_company_auto_resources: its durable effect. */
  function AfterTurn(t: Tables, turn: Turn): Tables {
    if !turn.startCommits then t
    else
      var called := AfterCalls(t, turn);
      if turn.finishCommits && |t.autoRuns| < |called.autoRuns| then
        called.(autoRuns := CloseAutoRun(called.autoRuns, |t.autoRuns|, TurnFailures(t, turn)))
      else called
  }

  lemma TurnKeepsAutoRuns(t: Tables, turn: Turn)
    ensures AfterCalls(t, turn).autoRuns == t.autoRuns + [StartedRun(turn)]
  {
    var picks := TurnPicks(t, turn);
    PicksKeepAutoRuns(AfterStart(t, turn), picks, turn.policy, WorldsOf(turn, |picks|));
  }

  /** sync_company_auto_resources. A pick that raises is rolled back and counted; the others go on. */
  method SyncCompany(db: Session, turn: Turn) returns (raised: bool, results: seq<Outcome>, errors: nat)
    requires db.session == db.committed
    requires Known(turn.rows, db.committed)
    modifies db
    ensures db.committed == AfterTurn(old(db.committed), turn)
    ensures turn.startCommits ==>
              && |results| + errors == |TurnPicks(old(db.committed), turn)|
              && errors == TurnFailures(old(db.committed), turn)
    ensures raised <==> !turn.startCommits || !turn.finishCommits
    ensures !raised ==> db.session == db.committed
  {
    ghost var before := db.committed;
    results, errors := [], 0;
    var run := |db.session.autoRuns|;
    db.session := AfterStart(db.session, turn);
    var ok := db.Commit(turn.startCommits);
    if !ok { return true, [], 0; }
    var picks := Select(turn.rows, db.session, QueryOf(turn), turn.selectedAt);
    results, errors := CallPicks(db, turn, picks);
    TurnKeepsAutoRuns(before, turn);
    db.session := db.session.(autoRuns := CloseAutoRun(db.session.autoRuns, run, errors));
    ok := db.Commit(turn.finishCommits);
    raised := !ok;
  }

  /** The loop over the selected resources. */
  method CallPicks(db: Session, turn: Turn, picks: seq<nat>) returns (results: seq<Outcome>, errors: nat)
    requires db.session == db.committed
    modifies db
    ensures db.session == db.committed ==
            AfterPicks(old(db.committed), picks, turn.policy, WorldsOf(turn, |picks|))
    ensures |results| + errors == |picks|
    ensures errors == Failures(old(db.committed), picks, turn.policy, WorldsOf(turn, |picks|))
  {
    results, errors := [], 0;
    ghost var before := db.committed;
    for k := 0 to |picks|
      invariant db.session == db.committed
      invariant db.committed == AfterPicks(before, picks[..k], turn.policy, WorldsOf(turn, k))
      invariant |results| + errors == k
      invariant errors == Failures(before, picks[..k], turn.policy, WorldsOf(turn, k))
    {
      PicksNext(before, turn, picks, k);
      var outcome := db.Sync(picks[k], RequestUnder(turn.policy), turn.worlds(k));
      if CallFails(outcome) {
        db.Rollback();
        errors := errors + 1;
      } else {
        results := results + [outcome];
      }
    }
    assert picks[..|picks|] == picks;
  }

  lemma PicksNext(t: Tables, turn: Turn, picks: seq<nat>, k: nat)
    requires k < |picks|
    ensures var before := AfterPicks(t, picks[..k], turn.policy, WorldsOf(turn, k));
            && AfterPicks(t, picks[..k + 1], turn.policy, WorldsOf(turn, k + 1)) ==
               AfterSync(before, picks[k], RequestUnder(turn.policy), turn.worlds(k))
            && Failures(t, picks[..k + 1], turn.policy, WorldsOf(turn, k + 1)) ==
               Failures(t, picks[..k], turn.policy, WorldsOf(turn, k)) +
               (if CallFails(CallOutcome(before, picks[k], turn.policy, turn.worlds(k))) then 1 else 0)
  {
    assert picks[..k + 1][..k] == picks[..k];
    assert WorldsOf(turn, k + 1)[..k] == WorldsOf(turn, k);
  }

  // ---- ticks ----

  /** A turn is taken when the company is due; a turn that raises ends the tick. */
  function Advance(t: Tables, aborted: bool, turn: Turn): (Tables, bool) {
    if aborted || !Due(t, turn.company, turn.policy.intervalSeconds, turn.checkedAt) then (t, aborted)
    else (AfterTurn(t, turn), !turn.startCommits || !turn.finishCommits)
  }

  function AfterTick(t: Tables, turns: seq<Turn>): (Tables, bool) {
    if turns == [] then (t, false)
    else
      var (t', aborted) := AfterTick(t, turns[..|turns| - 1]);
      Advance(t', aborted, turns[|turns| - 1])
  }

  /** auto_v5_resource_sync_task. */
  method Tick(db: Session, turns: seq<Turn>) returns (aborted: bool)
    requires db.session == db.committed
    requires forall turn <- turns :: Known(turn.rows, db.committed)
    modifies db
    ensures (db.committed, aborted) == AfterTick(old(db.committed), turns)
  {
    ghost var before := db.committed;
    aborted := false;
    for k := 0 to |turns|
      invariant (db.committed, aborted) == AfterTick(before, turns[..k])
      invariant !aborted ==> db.session == db.committed
      invariant db.committed.resources.Keys == before.resources.Keys
    {
      assert turns[..k + 1][..k] == turns[..k];
      if !aborted {
        var turn := turns[k];
        assert turn in turns;
        if Due(db.session, turn.company, turn.policy.intervalSeconds, turn.checkedAt) {
          TurnKeepsResources(db.committed, turn);
          var raised, _, _ := SyncCompany(db, turn);
          aborted := raised;
        }
      }
    }
    assert turns[..|turns|] == turns;
  }

  lemma {:induction false} PicksKeepResources(t: Tables, picks: seq<nat>, p: Policy, worlds: seq<World>)
    requires |worlds| == |picks|
    ensures AfterPicks(t, picks, p, worlds).resources.Keys == t.resources.Keys
  {
    if picks != [] {
      var n := |picks| - 1;
      PicksKeepResources(t, picks[..n], p, worlds[..n]);
      CallsAreIsolated(AfterPicks(t, picks[..n], p, worlds[..n]), SyncOp(picks[n], RequestUnder(p), worlds[n]), 0);
    }
  }

  lemma TurnKeepsResources(t: Tables, turn: Turn)
    ensures AfterTurn(t, turn).resources.Keys == t.resources.Keys
  {
    var picks := TurnPicks(t, turn);
    PicksKeepResources(AfterStart(t, turn), picks, turn.policy, WorldsOf(turn, |picks|));
  }

  // ---- spacing ----

  /** Any two automatic runs of one company start at least as far apart as the interval in force at the
      later one. */
  predicate Spaced(runs: seq<AutoRun>) {
    forall i, j | 0 <= i < j < |runs| && runs[i].company == runs[j].company ::
      runs[j].startedAt - runs[i].startedAt >= runs[j].intervalSeconds * MICROSECONDS
  }

  lemma {:induction false} LatestStartBounds(runs: seq<AutoRun>, company: nat)
    ensures forall run <- runs | run.company == company ::
              LatestStart(runs, company).Some? && run.startedAt <= LatestStart(runs, company).value
  {
    if runs != [] {
      LatestStartBounds(runs[..|runs| - 1], company);
      assert runs == runs[..|runs| - 1] + [runs[|runs| - 1]];
    }
  }

  lemma TurnKeepsSpacing(t: Tables, turn: Turn)
    requires Spaced(t.autoRuns) && turn.checkedAt <= turn.startedAt
    requires Due(t, turn.company, turn.policy.intervalSeconds, turn.checkedAt)
    ensures Spaced(AfterTurn(t, turn).autoRuns)
  {
    TurnKeepsAutoRuns(t, turn);
    LatestStartBounds(t.autoRuns, turn.company);
    var runs := t.autoRuns + [StartedRun(turn)];
    forall i | 0 <= i < |t.autoRuns| && runs[i].company == turn.company
      ensures turn.startedAt - runs[i].startedAt >= turn.policy.intervalSeconds * MICROSECONDS
    {
      assert t.autoRuns[i] in t.autoRuns;
    }
    assert Spaced(runs);
  }

  /** Within a turn the clock does not run backwards from the due check to the start. */
  ghost predicate CheckedBeforeStart(turns: seq<Turn>) {
    forall turn <- turns :: turn.checkedAt <= turn.startedAt
  }

  lemma {:induction false} TickKeepsSpacing(t: Tables, turns: seq<Turn>)
    requires Spaced(t.autoRuns) && CheckedBeforeStart(turns)
    ensures Spaced(AfterTick(t, turns).0.autoRuns)
  {
    if turns != [] {
      var n := |turns| - 1;
      TickKeepsSpacing(t, turns[..n]);
      var (t', aborted) := AfterTick(t, turns[..n]);
      assert turns[n] in turns;
      if !aborted && Due(t', turns[n].company, turns[n].policy.intervalSeconds, turns[n].checkedAt) {
        TurnKeepsSpacing(t', turns[n]);
      }
    }
  }

  function AfterTicks(t: Tables, ticks: seq<seq<Turn>>): Tables {
    if ticks == [] then t else AfterTick(AfterTicks(t, ticks[..|ticks| - 1]), ticks[|ticks| - 1]).0
  }

  /** Over any run of ticks, however many calls raise, roll back or lose a commit, and even if the
      clock is set back between turns. */
  lemma {:induction false} RunsStaySpaced(t: Tables, ticks: seq<seq<Turn>>)
    requires Spaced(t.autoRuns) && forall tick <- ticks :: CheckedBeforeStart(tick)
    ensures Spaced(AfterTicks(t, ticks).autoRuns)
  {
    if ticks != [] {
      var n := |ticks| - 1;
      RunsStaySpaced(t, ticks[..n]);
      assert ticks[n] in ticks;
      TickKeepsSpacing(AfterTicks(t, ticks[..n]), ticks[n]);
    }
  }

  /** A turn picks a resource only if it was never stamped or its stamp is more than a day old. */
  lemma PicksAreADayOld(t: Tables, turn: Turn, id: nat)
    requires turn.policy.statuses == ["never_synced", "stale"]
    requires IsQueryResult(turn.rows, AfterStart(t, turn), turn.company)
    requires id in TurnPicks(t, turn)
    ensures id in t.resources
    ensures t.resources[id].lastSync.Some? ==> turn.selectedAt - t.resources[id].lastSync.value > STALE_AFTER
  {
    PickFacts(AfterStart(t, turn), QueryOf(turn), Round(turn.rows, turn.selectedAt, []));
    assert id in Waiting(AfterStart(t, turn), QueryOf(turn), turn.selectedAt);
  }

  // ---- who runs ----

  /** Every automatic run of the company started an interval ago, or longer; there may be none. */
  predicate IntervalOver(runs: seq<AutoRun>, turn: Turn) {
    forall run <- runs :: run.company == turn.company ==>
      turn.checkedAt - run.startedAt >= turn.policy.intervalSeconds * 1_000_000
  }

  lemma {:induction false} LatestStartIsARun(runs: seq<AutoRun>, company: nat)
    ensures LatestStart(runs, company).Some? ==>
              exists run <- runs :: run.company == company && LatestStart(runs, company) == Some(run.startedAt)
  {
    if runs != [] {
      LatestStartIsARun(runs[..|runs| - 1], company);
      assert runs == runs[..|runs| - 1] + [runs[|runs| - 1]];
    }
  }

  lemma DueIffIntervalOver(t: Tables, turn: Turn)
    ensures Due(t, turn.company, turn.policy.intervalSeconds, turn.checkedAt) <==> IntervalOver(t.autoRuns, turn)
  {
    LatestStartBounds(t.autoRuns, turn.company);
    LatestStartIsARun(t.autoRuns, turn.company);
  }

  /** A turn reached by a tick runs if and only if the company's interval is over. It then appends one
      automatic run, of its company, start and interval, which it closes as a success or, when some call
      raised, as partial; a start that is not committed leaves nothing and ends the tick, and so does an end
      that is not, which leaves the run open. A turn that does not run, or that is not reached, changes
      nothing. */
  lemma TurnRunsIff(t: Tables, turns: seq<Turn>, turn: Turn)
    ensures var (before, aborted) := AfterTick(t, turns);
            var (after, ended) := AfterTick(t, turns + [turn]);
            if aborted || !IntervalOver(before.autoRuns, turn) then after == before && ended == aborted
            else if !turn.startCommits then after == before && ended
            else
              && |after.autoRuns| == |before.autoRuns| + 1 && before.autoRuns <= after.autoRuns
              && (ended <==> !turn.finishCommits)
              && var run := after.autoRuns[|before.autoRuns|];
                 && run.company == turn.company && run.startedAt == turn.startedAt
                 && run.intervalSeconds == turn.policy.intervalSeconds
                 && (if !turn.finishCommits then run.status == AutoRunning && run.errors == 0
                     else run.errors == TurnFailures(before, turn) &&
                          run.status == if run.errors == 0 then AutoSuccess else AutoPartial)
  {
    var (before, aborted) := AfterTick(t, turns);
    assert (turns + [turn])[..|turns|] == turns;
    DueIffIntervalOver(before, turn);
    TurnKeepsAutoRuns(before, turn);
    hide Due, IntervalOver, AfterCalls, TurnFailures;
  }

  /** A call raises: there is no such resource, its commit is lost, or its reader raised. */
  predicate Raises(t: Tables, id: nat, p: Policy, w: World) {
    || id !in t.resources || !w.commits
    || ExitOf(t, id, RequestUnder(p), w).UserRaised? || ExitOf(t, id, RequestUnder(p), w).FetchRaised?
  }

  lemma RaisesIff(t: Tables, id: nat, p: Policy, w: World)
    ensures CallFails(CallOutcome(t, id, p, w)) <==> Raises(t, id, p, w)
  {
    hide DecisionFor, AppConfigFor, UserReply, ArgsFor;
  }

  /** The i-th pick's call raises. */
  predicate RaisesAt(t: Tables, picks: seq<nat>, p: Policy, worlds: seq<World>, i: nat)
    requires i < |picks| == |worlds|
  {
    Raises(AfterPicks(t, picks[..i], p, worlds[..i]), picks[i], p, worlds[i])
  }

  /** A run without errors is one none of whose calls raised. */
  lemma {:induction false} NoFailureIff(t: Tables, picks: seq<nat>, p: Policy, worlds: seq<World>)
    requires |worlds| == |picks|
    ensures Failures(t, picks, p, worlds) == 0 <==> forall i | 0 <= i < |picks| :: !RaisesAt(t, picks, p, worlds, i)
  {
    hide AfterSync, AfterPicks, CallFails, CallOutcome, Raises;
    if picks != [] {
      var n := |picks| - 1;
      NoFailureIff(t, picks[..n], p, worlds[..n]);
      forall i | 0 <= i < n ensures RaisesAt(t, picks, p, worlds, i) == RaisesAt(t, picks[..n], p, worlds[..n], i) {
        assert picks[..n][..i] == picks[..i] && worlds[..n][..i] == worlds[..i];
      }
      var before := AfterPicks(t, picks[..n], p, worlds[..n]);
      RaisesIff(before, picks[n], p, worlds[n]);
      assert RaisesAt(t, picks, p, worlds, n) <==> CallFails(CallOutcome(before, picks[n], p, worlds[n]));
    }
  }

  // ---- progress over ticks ----

  /** A turn reaches its selection: the tick goes on, the company is due, and the start is committed. */
  predicate Takes(t: Tables, aborted: bool, turn: Turn) {
    !aborted && Due(t, turn.company, turn.policy.intervalSeconds, turn.checkedAt) && turn.startCommits
  }

  function PicksFor(t: Tables, aborted: bool, turn: Turn, company: nat): seq<nat> {
    if turn.company == company && Takes(t, aborted, turn) then TurnPicks(t, turn) else []
  }

  function TurnsFor(t: Tables, aborted: bool, turn: Turn, company: nat): nat {
    if turn.company == company && Takes(t, aborted, turn) then 1 else 0
  }

  /** The picks of one company's turns in a tick, in order. */
  function CompanyPicks(t: Tables, turns: seq<Turn>, company: nat): seq<nat> {
    if turns == [] then []
    else
      var front := turns[..|turns| - 1];
      var (t', aborted) := AfterTick(t, front);
      CompanyPicks(t, front, company) + PicksFor(t', aborted, turns[|turns| - 1], company)
  }

  /** How many turns of the company reach their selection. */
  function CompanyTurns(t: Tables, turns: seq<Turn>, company: nat): nat {
    if turns == [] then 0
    else
      var front := turns[..|turns| - 1];
      var (t', aborted) := AfterTick(t, front);
      CompanyTurns(t, front, company) + TurnsFor(t', aborted, turns[|turns| - 1], company)
  }

  function RoundOf(t: Tables, turn: Turn): Round {
    Round(turn.rows, turn.selectedAt, WorldsOf(turn, |TurnPicks(t, turn)|))
  }

  /** A turn selects from what the query returns. A turn of the company in question follows its policy,
      does not run before the start, and stamps every pick. Nothing is asked of the others. */
  ghost predicate GoodTurn(t: Tables, turn: Turn, q: Query, start: int) {
    && IsQueryResult(turn.rows, t, turn.company)
    && (turn.company == q.company ==>
          && QueryOf(turn) == q
          && Possible(AfterStart(t, turn), q, RoundOf(t, turn), start)
          && Known(TurnPicks(t, turn), AfterStart(t, turn))
          && AllStamp(AfterStart(t, turn), q, RoundOf(t, turn)))
  }

  ghost predicate GoodTick(t: Tables, turns: seq<Turn>, q: Query, start: int) {
    turns == [] ||
    var front, turn := turns[..|turns| - 1], turns[|turns| - 1];
    var (t', aborted) := AfterTick(t, front);
    GoodTick(t, front, q, start) && (Takes(t', aborted, turn) ==> GoodTurn(t', turn, q, start))
  }

  lemma WaitingReadsResourcesOnly(t: Tables, u: Tables, q: Query, at: int)
    requires t.resources == u.resources
    ensures Waiting(t, q, at) == Waiting(u, q, at)
  {
  }

  /** What a turn does to the resources is what a round does. */
  lemma TurnIsRound(t: Tables, turn: Turn)
    requires turn.startCommits
    ensures TurnPicks(t, turn) == PicksOf(AfterStart(t, turn), QueryOf(turn), RoundOf(t, turn))
    ensures AfterTurn(t, turn).resources == AfterRound(AfterStart(t, turn), QueryOf(turn), RoundOf(t, turn)).resources
  {
  }

  /** Rows that are not picked stay, and picked ones stay their company's. */
  lemma {:induction false} PicksKeepCompanies(t: Tables, picks: seq<nat>, p: Policy, worlds: seq<World>, id: nat)
    requires |worlds| == |picks| && id in t.resources && Known(picks, t)
    ensures id in AfterPicks(t, picks, p, worlds).resources
    ensures AfterPicks(t, picks, p, worlds).resources[id].company == t.resources[id].company
    ensures id !in picks ==> AfterPicks(t, picks, p, worlds).resources[id] == t.resources[id]
  {
    if picks != [] {
      var n := |picks| - 1;
      assert picks == picks[..n] + [picks[n]] && picks[n] in picks;
      PicksKeepCompanies(t, picks[..n], p, worlds[..n], id);
      PicksKeepCompanies(t, picks[..n], p, worlds[..n], picks[n]);
      RowAfterCall(AfterPicks(t, picks[..n], p, worlds[..n]), picks[n], p, worlds[n]);
    }
  }

  /** Another company's turn leaves those waiting as they are. */
  lemma OtherTurnsKeepWaiting(t: Tables, turn: Turn, q: Query, start: int)
    requires turn.company != q.company && GoodTurn(t, turn, q, start)
    ensures Waiting(AfterTurn(t, turn), q, start) == Waiting(t, q, start)
  {
    if turn.startCommits {
      var u, picks := AfterStart(t, turn), TurnPicks(t, turn);
      OnlyFacts(turn.rows, AdmittedIn(u, QueryOf(turn), turn.selectedAt));
      forall id | id in picks ensures id in t.resources && t.resources[id].company == turn.company {
        assert id in Only(turn.rows, AdmittedIn(u, QueryOf(turn), turn.selectedAt));
      }
      TurnKeepsResources(t, turn);
      forall id | id in t.resources
        ensures id in Waiting(AfterTurn(t, turn), q, start) <==> id in Waiting(t, q, start)
      {
        PicksKeepCompanies(u, picks, turn.policy, WorldsOf(turn, |picks|), id);
      }
    }
  }

  /** A turn of the company is one more round for those waiting since the start. */
  lemma TurnKeepsServed(t: Tables, turn: Turn, q: Query, start: int, before: set<nat>, picks: seq<nat>, n: nat)
    requires OnlyDueStatuses(q) && GoodTurn(t, turn, q, start) && turn.company == q.company && turn.startCommits
    requires Served(before, Waiting(t, q, start), picks, n, Cap(q))
    ensures Served(before, Waiting(AfterTurn(t, turn), q, start), picks + TurnPicks(t, turn), n + 1, Cap(q))
  {
    var u := AfterStart(t, turn);
    TurnIsRound(t, turn);
    WaitingReadsResourcesOnly(t, u, q, start);
    RoundKeepsServed(u, q, RoundOf(t, turn), start, before, picks, n);
    WaitingReadsResourcesOnly(AfterTurn(t, turn), AfterRound(u, q, RoundOf(t, turn)), q, start);
  }

  lemma UntakenTurnChangesNothing(t: Tables, aborted: bool, turn: Turn)
    requires !Takes(t, aborted, turn)
    ensures Advance(t, aborted, turn).0 == t
  {
  }

  /** One turn of a tick, whoever's it is and whether it is taken or not. */
  lemma AdvanceKeepsServed(
    t: Tables, aborted: bool, turn: Turn, q: Query, start: int, before: set<nat>, picks: seq<nat>, n: nat)
    requires OnlyDueStatuses(q) && (Takes(t, aborted, turn) ==> GoodTurn(t, turn, q, start))
    requires Served(before, Waiting(t, q, start), picks, n, Cap(q))
    ensures Served(before, Waiting(Advance(t, aborted, turn).0, q, start),
                   picks + PicksFor(t, aborted, turn, q.company), n + TurnsFor(t, aborted, turn, q.company), Cap(q))
  {
    hide Waiting, Served, GoodTurn, AfterTurn, TurnPicks;
    if Takes(t, aborted, turn) {
      if turn.company == q.company {
        TurnKeepsServed(t, turn, q, start, before, picks, n);
      } else {
        OtherTurnsKeepWaiting(t, turn, q, start);
        assert picks + [] == picks;
      }
    } else {
      UntakenTurnChangesNothing(t, aborted, turn);
      assert picks + [] == picks;
    }
  }

  lemma {:induction false} TickKeepsServed(
    t: Tables, turns: seq<Turn>, q: Query, start: int, before: set<nat>, picks: seq<nat>, n: nat)
    requires OnlyDueStatuses(q) && GoodTick(t, turns, q, start)
    requires Served(before, Waiting(t, q, start), picks, n, Cap(q))
    ensures Served(before, Waiting(AfterTick(t, turns).0, q, start), picks + CompanyPicks(t, turns, q.company),
                   n + CompanyTurns(t, turns, q.company), Cap(q))
  {
    hide Waiting, Served, PicksFor, TurnsFor, Advance;
    if turns == [] {
      assert picks + [] == picks;
    } else {
      var front, turn := turns[..|turns| - 1], turns[|turns| - 1];
      TickKeepsServed(t, front, q, start, before, picks, n);
      var (t', aborted) := AfterTick(t, front);
      var sofar, more := CompanyPicks(t, front, q.company), PicksFor(t', aborted, turn, q.company);
      AdvanceKeepsServed(t', aborted, turn, q, start, before, picks + sofar, n + CompanyTurns(t, front, q.company));
      assert picks + (sofar + more) == picks + sofar + more;
    }
  }

  // ---- over all ticks ----

  function AllCompanyPicks(t: Tables, ticks: seq<seq<Turn>>, company: nat): seq<nat> {
    if ticks == [] then []
    else
      var front := ticks[..|ticks| - 1];
      AllCompanyPicks(t, front, company) + CompanyPicks(AfterTicks(t, front), ticks[|ticks| - 1], company)
  }

  function AllCompanyTurns(t: Tables, ticks: seq<seq<Turn>>, company: nat): nat {
    if ticks == [] then 0
    else
      var front := ticks[..|ticks| - 1];
      AllCompanyTurns(t, front, company) + CompanyTurns(AfterTicks(t, front), ticks[|ticks| - 1], company)
  }

  ghost predicate GoodTicks(t: Tables, ticks: seq<seq<Turn>>, q: Query, start: int) {
    ticks == [] ||
    var front := ticks[..|ticks| - 1];
    GoodTicks(t, front, q, start) && GoodTick(AfterTicks(t, front), ticks[|ticks| - 1], q, start)
  }

  lemma {:induction false} TicksServe(t: Tables, ticks: seq<seq<Turn>>, q: Query, start: int)
    requires OnlyDueStatuses(q) && GoodTicks(t, ticks, q, start)
    ensures Served(Waiting(t, q, start), Waiting(AfterTicks(t, ticks), q, start),
                   AllCompanyPicks(t, ticks, q.company), AllCompanyTurns(t, ticks, q.company), Cap(q))
  {
    hide Waiting, Served;
    if ticks == [] {
      NothingServed(Waiting(t, q, start), Cap(q));
    } else {
      var front, last := ticks[..|ticks| - 1], ticks[|ticks| - 1];
      TicksServe(t, front, q, start);
      TickKeepsServed(AfterTicks(t, front), last, q, start, Waiting(t, q, start),
                      AllCompanyPicks(t, front, q.company), AllCompanyTurns(t, front, q.company));
    }
  }

  /** Progress over ticks: whatever the other companies, the interval gate and aborted ticks do, once the
      company's turns times its limit reach the number that was waiting, nobody of them is left; and no
      resource is picked twice before every other one that was waiting is picked once. */
  lemma TicksServeEveryone(t: Tables, ticks: seq<seq<Turn>>, q: Query, start: int)
    requires OnlyDueStatuses(q) && GoodTicks(t, ticks, q, start)
    ensures var left, picks, turns := Waiting(AfterTicks(t, ticks), q, start),
                                      AllCompanyPicks(t, ticks, q.company), AllCompanyTurns(t, ticks, q.company);
            && left == Waiting(t, q, start) - ToSet(picks)
            && (turns * Cap(q) >= |Waiting(t, q, start)| ==> left == {})
            && (left != {} ==> |left| == |Waiting(t, q, start)| - turns * Cap(q))
            && (NoRepeats(picks) || forall id <- Waiting(t, q, start) :: id in picks)
  {
    TicksServe(t, ticks, q, start);
    EnoughRounds(Waiting(t, q, start), Waiting(AfterTicks(t, ticks), q, start),
                 AllCompanyPicks(t, ticks, q.company), AllCompanyTurns(t, ticks, q.company), Cap(q));
  }

  // ---- later on the same day ----

  /** The calls of the company's turns in a tick are at most a day before `at`. */
  predicate TickWithinADay(t: Tables, turns: seq<Turn>, company: nat, at: int) {
    turns == [] ||
    var front, turn := turns[..|turns| - 1], turns[|turns| - 1];
    var (t', aborted) := AfterTick(t, front);
    && TickWithinADay(t, front, company, at)
    && (turn.company == company && Takes(t', aborted, turn) ==> WithinADay(RoundOf(t', turn).worlds, at))
  }

  predicate TicksWithinADay(t: Tables, ticks: seq<seq<Turn>>, company: nat, at: int) {
    ticks == [] ||
    var front := ticks[..|ticks| - 1];
    TicksWithinADay(t, front, company, at) && TickWithinADay(AfterTicks(t, front), ticks[|ticks| - 1], company, at)
  }

  lemma TurnTakesPicks(t: Tables, turn: Turn, q: Query, start: int, at: int)
    requires OnlyDueStatuses(q) && GoodTurn(t, turn, q, start) && turn.company == q.company && turn.startCommits
    requires WithinADay(RoundOf(t, turn).worlds, at)
    ensures Waiting(AfterTurn(t, turn), q, at) == Waiting(t, q, at) - ToSet(TurnPicks(t, turn))
  {
    var u := AfterStart(t, turn);
    TurnIsRound(t, turn);
    WaitingReadsResourcesOnly(t, u, q, at);
    RoundTakesPicks(u, q, RoundOf(t, turn), start, at);
    WaitingReadsResourcesOnly(AfterTurn(t, turn), AfterRound(u, q, RoundOf(t, turn)), q, at);
  }

  lemma AdvanceTakesPicks(t: Tables, aborted: bool, turn: Turn, q: Query, start: int, at: int)
    requires OnlyDueStatuses(q) && (Takes(t, aborted, turn) ==> GoodTurn(t, turn, q, start))
    requires turn.company == q.company && Takes(t, aborted, turn) ==> WithinADay(RoundOf(t, turn).worlds, at)
    ensures Waiting(Advance(t, aborted, turn).0, q, at) ==
            Waiting(t, q, at) - ToSet(PicksFor(t, aborted, turn, q.company))
  {
    hide Waiting, AfterTurn, TurnPicks, RoundOf;
    assert Waiting(t, q, at) - ToSet([]) == Waiting(t, q, at);
    if Takes(t, aborted, turn) {
      if turn.company == q.company {
        TurnTakesPicks(t, turn, q, start, at);
      } else {
        OtherTurnsKeepWaiting(t, turn, q, at);
      }
    } else {
      UntakenTurnChangesNothing(t, aborted, turn);
    }
  }

  lemma {:induction false} TickTakesPicks(t: Tables, turns: seq<Turn>, q: Query, start: int, at: int)
    requires OnlyDueStatuses(q) && GoodTick(t, turns, q, start) && TickWithinADay(t, turns, q.company, at)
    ensures Waiting(AfterTick(t, turns).0, q, at) == Waiting(t, q, at) - ToSet(CompanyPicks(t, turns, q.company))
  {
    hide Waiting, PicksFor, Advance, GoodTurn, Takes, RoundOf, WithinADay;
    if turns == [] {
      assert Waiting(t, q, at) - ToSet([]) == Waiting(t, q, at);
    } else {
      var front, turn := turns[..|turns| - 1], turns[|turns| - 1];
      TickTakesPicks(t, front, q, start, at);
      var (t', aborted) := AfterTick(t, front);
      AdvanceTakesPicks(t', aborted, turn, q, start, at);
      var sofar, more := CompanyPicks(t, front, q.company), PicksFor(t', aborted, turn, q.company);
      assert ToSet(sofar + more) == ToSet(sofar) + ToSet(more);
    }
  }

  /** Over any ticks, the company's stamped picks are gone for the rest of the day, and nobody else is. */
  lemma {:induction false} TicksTakePicks(t: Tables, ticks: seq<seq<Turn>>, q: Query, start: int, at: int)
    requires OnlyDueStatuses(q) && GoodTicks(t, ticks, q, start) && TicksWithinADay(t, ticks, q.company, at)
    ensures Waiting(AfterTicks(t, ticks), q, at) == Waiting(t, q, at) - ToSet(AllCompanyPicks(t, ticks, q.company))
  {
    hide Waiting, AfterTick, CompanyPicks, GoodTick, TickWithinADay;
    if ticks == [] {
      assert Waiting(t, q, at) - ToSet([]) == Waiting(t, q, at);
    } else {
      var front, last := ticks[..|ticks| - 1], ticks[|ticks| - 1];
      TicksTakePicks(t, front, q, start, at);
      TickTakesPicks(AfterTicks(t, front), last, q, start, at);
      var sofar, more := AllCompanyPicks(t, front, q.company), CompanyPicks(AfterTicks(t, front), last, q.company);
      assert ToSet(sofar + more) == ToSet(sofar) + ToSet(more);
    }
  }

  /** Once the company's turns have made up for those waiting at the start, whoever waits later on that day
      became due in the meantime. */
  lemma OnlyLatecomersWait(t: Tables, ticks: seq<seq<Turn>>, q: Query, start: int, at: int)
    requires OnlyDueStatuses(q) && GoodTicks(t, ticks, q, start) && TicksWithinADay(t, ticks, q.company, at)
    requires AllCompanyTurns(t, ticks, q.company) * Cap(q) >= |Waiting(t, q, start)|
    ensures Waiting(AfterTicks(t, ticks), q, at) <= Waiting(t, q, at) - Waiting(t, q, start)
  {
    hide Waiting, GoodTicks, TicksWithinADay, AllCompanyPicks, AllCompanyTurns, AfterTicks;
    TicksServeEveryone(t, ticks, q, start);
    TicksTakePicks(t, ticks, q, start, at);
    NobodyIsLeft(Waiting(t, q, start), ToSet(AllCompanyPicks(t, ticks, q.company)));
  }
}
