/** The least-recently-synced scheduler (v5_auto_sync.py) and what its rounds achieve. */
module Scheduler {
  import opened Lists
  import opened Options
  import opened Strategy
  import opened Decisions
  import opened SyncResults
  import opened Workspace
  import opened WorkspaceSafety

  /** The arguments of select_company_auto_sync_resources; 0 and "" stand for None. */
  datatype Query = Query(company: nat, policy: Policy, resourceType: string, statuses: seq<string>, limit: int)

  /** order_by last_sync_at asc nullsfirst, created_at asc. */
  predicate NotAfter(a: Resource, b: Resource) {
    if a.lastSync == b.lastSync then a.createdAt <= b.createdAt
    else a.lastSync.None? || (b.lastSync.Some? && a.lastSync.value < b.lastSync.value)
  }

  /** The rows the database may return: the company's enabled resources, each once, in that order.
      Ties are the database's choice. */
  ghost predicate IsQueryResult(rows: seq<nat>, t: Tables, company: nat) {
    && NoRepeats(rows)
    && (forall id :: id in rows <==> id in t.resources && t.resources[id].company == company && t.resources[id].enabled)
    && forall i, j | 0 <= i < j < |rows| :: NotAfter(t.resources[rows[i]], t.resources[rows[j]])
  }

  function StatusName(s: SyncStatus): string {
    match s
    case NeverSynced => "never_synced"
    case Stale => "stale"
    case Healthy => "healthy"
    case Verdict(Disabled) => "disabled"
    case Verdict(AccessBlocked) => "access_blocked"
    case Verdict(PolicyExcluded) => "policy_excluded"
    case Verdict(NeedsReview) => "manual_review_required"
    case Verdict(SkippedByPolicy) => "skipped"
    case Verdict(_) => "unsupported"
  }

  /** The filters of the selection loop, in its order. */
  predicate Admits(q: Query, r: Resource, now: int) {
    && (q.resourceType == "" || KindName(KindFor(r)) == q.resourceType || r.resourceType == q.resourceType)
    && Decide(r, q.policy).AutoSyncAllowed()
    && TypeAllowed(r, q.policy.resourceTypes)
    && (q.statuses == [] || StatusName(Classify(r, q.policy, now)) in q.statuses)
  }

  /** limit_resources or policy.get("limit_resources") or 10. */
  function Limit(q: Query): int {
    if q.limit != 0 then q.limit else if q.policy.limitResources != 0 then q.policy.limitResources else 10
  }

  /** The loop breaks after an append, so a limit below one still lets one resource through. */
  function Cap(q: Query): nat {
    if Limit(q) < 1 then 1 else Limit(q)
  }

  predicate Known(rows: seq<nat>, t: Tables) {
    forall id <- rows :: id in t.resources
  }

  /** The elements of `rows` that are in `ok`, in order. */
  function Only(rows: seq<nat>, ok: set<nat>): seq<nat> {
    if rows == [] then []
    else
      var last := rows[|rows| - 1];
      Only(rows[..|rows| - 1], ok) + (if last in ok then [last] else [])
  }

  function Take(s: seq<nat>, n: nat): seq<nat> {
    if |s| <= n then s else s[..n]
  }

  function AdmittedIn(t: Tables, q: Query, now: int): set<nat> {
    set id | id in t.resources && Admits(q, t.resources[id], now)
  }

  function Selected(rows: seq<nat>, t: Tables, q: Query, now: int): seq<nat> {
    Take(Only(rows, AdmittedIn(t, q, now)), Cap(q))
  }

  lemma {:induction false} OnlyPrefix(rows: seq<nat>, ok: set<nat>, n: nat)
    requires n <= |rows|
    ensures Only(rows[..n], ok) <= Only(rows, ok)
  {
    if n < |rows| {
      var front := rows[..|rows| - 1];
      OnlyPrefix(front, ok, n);
      assert front[..n] == rows[..n];
    } else {
      assert rows[..n] == rows;
    }
  }

  lemma OnlyNext(rows: seq<nat>, ok: set<nat>, k: nat)
    requires k < |rows|
    ensures Only(rows[..k + 1], ok) == Only(rows[..k], ok) + (if rows[k] in ok then [rows[k]] else [])
    ensures Only(rows[..k + 1], ok) <= Only(rows, ok)
  {
    assert rows[..k + 1][..k] == rows[..k];
    OnlyPrefix(rows, ok, k + 1);
  }

  /** `ok` holds the admissible rows. Read only at the rows the loop tests. */
  ghost predicate Agrees(ok: set<nat>, rows: seq<nat>, t: Tables, q: Query, now: int)
    requires Known(rows, t)
  {
    forall id {:trigger Admits(q, t.resources[id], now)} | id in rows :: id in ok <==> Admits(q, t.resources[id], now)
  }

  /** The four tests of the loop on one row. */
  method Passes(rows: seq<nat>, t: Tables, q: Query, now: int, k: nat, ghost ok: set<nat>) returns (admitted: bool)
    requires Known(rows, t) && Agrees(ok, rows, t, q, now) && k < |rows|
    ensures admitted <==> rows[k] in ok
  {
    assert rows[k] in rows;
    admitted := Admits(q, t.resources[rows[k]], now);
  }

  /** The loop of select_company_auto_sync_resources. */
  method SelectFrom(rows: seq<nat>, t: Tables, q: Query, now: int, cap: nat, ghost ok: set<nat>)
    returns (picked: seq<nat>)
    requires Known(rows, t) && Agrees(ok, rows, t, q, now) && cap > 0
    ensures picked == Take(Only(rows, ok), cap)
  {
    picked := [];
    for k := 0 to |rows|
      invariant picked == Only(rows[..k], ok) && |picked| < cap
    {
      OnlyNext(rows, ok, k);
      var admitted := Passes(rows, t, q, now, k, ok);
      if admitted {
        picked := picked + [rows[k]];
        if |picked| >= cap {
          return;
        }
      }
    }
    assert rows[..|rows|] == rows;
  }

  /** select_company_auto_sync_resources. */
  method Select(rows: seq<nat>, t: Tables, q: Query, now: int) returns (picked: seq<nat>)
    requires Known(rows, t)
    ensures picked == Selected(rows, t, q, now)
  {
    picked := SelectFrom(rows, t, q, now, Cap(q), AdmittedIn(t, q, now));
  }

  // ---- what is selected ----

  /** The selection keeps to the limit if and only if the limit is at least one; below it, one resource is
      selected all the same, when any is admitted. */
  lemma LimitHoldsIff(rows: seq<nat>, t: Tables, q: Query, now: int)
    ensures |Selected(rows, t, q, now)| <= Limit(q) <==> Limit(q) >= 1
    ensures Limit(q) < 1 ==>
              (|Selected(rows, t, q, now)| == 1 <==> exists id <- rows :: id in AdmittedIn(t, q, now))
  {
    var ok := AdmittedIn(t, q, now);
    OnlyMembers(rows, ok);
    if id :| id in rows && id in ok { assert id in Only(rows, ok); }
    if Only(rows, ok) != [] { assert Only(rows, ok)[0] in Only(rows, ok); }
  }

  lemma {:induction false} OnlyMembers(rows: seq<nat>, ok: set<nat>)
    ensures forall id :: id in Only(rows, ok) <==> id in rows && id in ok
  {
    if rows != [] {
      var n := |rows| - 1;
      assert rows == rows[..n] + [rows[n]];
      OnlyMembers(rows[..n], ok);
    }
  }

  /** The three statuses of what can be executed. */
  lemma StatusByColumns(r: Resource, p: Policy, now: int)
    ensures var status, executable := StatusName(Classify(r, p, now)), Decide(r, p).Executable();
            && (status == "never_synced" <==> executable && r.lastSync.None?)
            && (status == "stale" <==> executable && r.lastSync.Some? && now - r.lastSync.value > 86_400_000_000)
            && (status == "healthy" <==> executable && r.lastSync.Some? && now - r.lastSync.value <= 86_400_000_000)
  {
    DispatchIsComplete(r, p);
    hide ArgsFor, Supported, KindFor;
  }

  /** What a selection asks of a resource of the company. */
  ghost predicate Wanted(q: Query, r: Resource, now: int) {
    && r.company == q.company && r.enabled && Decide(r, q.policy).Executable()
    && (q.resourceType == "" || q.resourceType == r.resourceType || q.resourceType == KindName(KindFor(r)))
    && (q.statuses == [] || StatusName(Classify(r, q.policy, now)) in q.statuses)
  }

  /** Never synced comes first, then by the last sync, and among equals the older resource. */
  ghost predicate InTurn(a: Resource, b: Resource) {
    && (a.lastSync.Some? ==> b.lastSync.Some? && a.lastSync.value <= b.lastSync.value)
    && (a.lastSync == b.lastSync ==> a.createdAt <= b.createdAt)
  }

  lemma InTurnIff(a: Resource, b: Resource)
    ensures NotAfter(a, b) <==> InTurn(a, b)
  {
  }

  lemma AdmitsIffWanted(q: Query, r: Resource, now: int)
    requires r.company == q.company && r.enabled
    ensures Admits(q, r, now) <==> Wanted(q, r, now)
  {
    hide KindFor, KindName, Classify, StatusName, PlanFor, IssueOf, Redacted, Blocked;
  }

  lemma WantedRows(q: Query, t: Tables, rows: seq<nat>, now: int)
    requires IsQueryResult(rows, t, q.company)
    ensures forall id ::
              id in Only(rows, AdmittedIn(t, q, now)) <==> id in t.resources && Wanted(q, t.resources[id], now)
  {
    OnlyFacts(rows, AdmittedIn(t, q, now));
    forall id | id in rows ensures id in AdmittedIn(t, q, now) <==> Wanted(q, t.resources[id], now) {
      AdmitsIffWanted(q, t.resources[id], now);
    }
    hide Admits, Decide, Classify;
  }

  lemma RowsInTurn(t: Tables, q: Query, rows: seq<nat>, now: int)
    requires IsQueryResult(rows, t, q.company)
    ensures var all := Only(rows, AdmittedIn(t, q, now));
            && NoRepeats(all) && Known(all, t)
            && forall i, j | 0 <= i < j < |all| :: InTurn(t.resources[all[i]], t.resources[all[j]])
  {
    var ok := AdmittedIn(t, q, now);
    var all := Only(rows, ok);
    OnlyFacts(rows, ok);
    OnlyInOrder(rows, ok, t);
    forall i, j | 0 <= i < j < |all| ensures InTurn(t.resources[all[i]], t.resources[all[j]]) {
      InTurnIff(t.resources[all[i]], t.resources[all[j]]);
    }
    hide AdmittedIn, NotAfter, InTurn, Only;
  }

  /** The selection: of the wanted resources the first in turn, each once and in that order, all of them if
      the limit allows, and otherwise exactly as many as it says, or one when it is below one. */
  lemma SelectionByColumns(t: Tables, q: Query, rows: seq<nat>, now: int)
    requires IsQueryResult(rows, t, q.company)
    ensures var picks := Selected(rows, t, q, now);
            var limit := if q.limit != 0 then q.limit
                         else if q.policy.limitResources != 0 then q.policy.limitResources else 10;
            && NoRepeats(picks)
            && (forall id <- picks :: id in t.resources && Wanted(q, t.resources[id], now))
            && (forall i, j | 0 <= i < j < |picks| :: InTurn(t.resources[picks[i]], t.resources[picks[j]]))
            && |picks| <= Max(limit, 1)
            && forall id | id in t.resources && Wanted(q, t.resources[id], now) && id !in picks ::
                 |picks| == Max(limit, 1) && forall pick <- picks :: InTurn(t.resources[pick], t.resources[id])
  {
    WantedRows(q, t, rows, now);
    RowsInTurn(t, q, rows, now);
    hide Wanted, InTurn, AdmittedIn, Only, IsQueryResult;
    FirstInTurn(t, Only(rows, AdmittedIn(t, q, now)), Cap(q));
  }

  /** What the first of rows in turn are to the others. */
  lemma FirstInTurn(t: Tables, all: seq<nat>, n: nat)
    requires NoRepeats(all) && Known(all, t)
    requires forall i, j | 0 <= i < j < |all| :: InTurn(t.resources[all[i]], t.resources[all[j]])
    ensures var picks := Take(all, n);
            && NoRepeats(picks) && |picks| <= n && Known(picks, t) && (forall id <- picks :: id in all)
            && (forall i, j | 0 <= i < j < |picks| :: InTurn(t.resources[picks[i]], t.resources[picks[j]]))
            && forall id | id in all && id !in picks ::
                 |picks| == n && forall pick <- picks :: InTurn(t.resources[pick], t.resources[id])
  {
    hide InTurn;
    var picks := Take(all, n);
    forall id, pick | id in all && id !in picks && pick in picks ensures InTurn(t.resources[pick], t.resources[id]) {
      var j :| 0 <= j < |all| && all[j] == id;
      var i :| 0 <= i < |picks| && picks[i] == pick;
      assert j >= |picks|;
      assert all[i] == pick;
    }
  }

  /** Filtering keeps membership and uniqueness. */
  lemma {:induction false} OnlyFacts(rows: seq<nat>, ok: set<nat>)
    requires NoRepeats(rows)
    ensures forall id :: id in Only(rows, ok) <==> id in rows && id in ok
    ensures NoRepeats(Only(rows, ok))
  {
    if rows != [] {
      var n := |rows| - 1;
      assert rows == rows[..n] + [rows[n]];
      OnlyFacts(rows[..n], ok);
      assert forall i :: 0 <= i < n ==> rows[..n][i] != rows[n];
      assert rows[n] !in rows[..n];
    }
  }

  /** Filtering keeps whatever order the rows are in. */
  lemma {:induction false} OnlyInOrder(rows: seq<nat>, ok: set<nat>, t: Tables)
    requires NoRepeats(rows) && Known(rows, t)
    requires forall i, j | 0 <= i < j < |rows| :: NotAfter(t.resources[rows[i]], t.resources[rows[j]])
    ensures Known(Only(rows, ok), t)
    ensures forall i, j | 0 <= i < j < |Only(rows, ok)| ::
              NotAfter(t.resources[Only(rows, ok)[i]], t.resources[Only(rows, ok)[j]])
  {
    OnlyFacts(rows, ok);
    if rows != [] {
      var n := |rows| - 1;
      var front, last := rows[..n], rows[n];
      assert forall id <- front :: id in rows;
      OnlyInOrder(front, ok, t);
      OnlyFacts(front, ok);
      forall id | id in front ensures NotAfter(t.resources[id], t.resources[last]) {
        var i :| 0 <= i < n && front[i] == id;
        assert rows[i] == id;
      }
      assert forall i | 0 <= i < |Only(front, ok)| :: Only(front, ok)[i] in front;
    }
  }

  /** A plain sync under the policy's modes, as the scheduler requests it. */
  function RequestUnder(p: Policy): Request {
    Request(p.largeDocumentMode, p.bitableMode, false)
  }

  /** What the scheduler selects, the executor executes: an auto-synced resource never ends in a
      skipped run, whatever the world does. */
  lemma SelectedIsExecuted(q: Query, r: Resource, now: int, w: World)
    requires Admits(q, r, now)
    ensures var e := ExitFor(r, RequestUnder(q.policy), w);
            && (e.Stopped? ==> e.why.NoAppConfig? || e.why.AppConfigGone?)
            && (forall run, at | !e.UserRaised? :: ClosedRun(run, e, at).status in {Success, Partial, Failed})
  {
    ExecutorAgreesWithScheduler(r, q.policy);
    var modes := Policy(q.policy.largeDocumentMode, q.policy.bitableMode, [], [], 0, 0);
    assert modes == ModesOnly(q.policy) && DecisionFor(r, RequestUnder(q.policy)) == Decide(r, modes);
    DispatchIsComplete(r, modes);
  }

  /** A blocked resource is never selected. */
  lemma BlockedIsNeverSelected(q: Query, r: Resource, now: int)
    requires Blocked(r)
    ensures !Admits(q, r, now)
  {
  }

  // ---- rounds ----

  /** The durable tables after the picks of one round; a call that raises is rolled back. */
  function AfterPicks(t: Tables, picks: seq<nat>, p: Policy, worlds: seq<World>): Tables
    requires |worlds| == |picks|
  {
    if picks == [] then t
    else
      var n := |picks| - 1;
      AfterSync(AfterPicks(t, picks[..n], p, worlds[..n]), picks[n], RequestUnder(p), worlds[n])
  }

  /** The call on a resource in this state stamps it durably. */
  predicate StampsDurably(r: Resource, p: Policy, w: World) {
    w.commits && Stamps(ExitFor(r, RequestUnder(p), w))
  }

  /** What a plain scheduled call leaves of the row it finds. */
  function RowAfter(r: Resource, p: Policy, w: World): Resource {
    if StampsDurably(r, p, w) then ResourceAfter(r, ExitFor(r, RequestUnder(p), w), w) else r
  }

  lemma RowAfterCall(t: Tables, id: nat, p: Policy, w: World)
    requires id in t.resources
    ensures AfterSync(t, id, RequestUnder(p), w).resources == t.resources[id := RowAfter(t.resources[id], p, w)]
  {
    var r := t.resources[id];
    var e := ExitFor(r, RequestUnder(p), w);
    assert !Stamps(e) ==> ResourceAfter(r, e, w) == r;
    assert t.resources[id := r] == t.resources;
  }

  /** The table with row `news[i]` put at `picks[i]`, in order. */
  function PutAll(rows: map<nat, Resource>, picks: seq<nat>, news: seq<Resource>): map<nat, Resource>
    requires |picks| == |news|
  {
    if picks == [] then rows
    else PutAll(rows, picks[..|picks| - 1], news[..|picks| - 1])[picks[|picks| - 1] := news[|picks| - 1]]
  }

  lemma {:induction false} PutAllFacts(rows: map<nat, Resource>, picks: seq<nat>, news: seq<Resource>)
    requires |picks| == |news| && NoRepeats(picks)
    ensures forall id :: id in PutAll(rows, picks, news) <==> id in rows || id in picks
    ensures forall id | id in rows && id !in picks :: PutAll(rows, picks, news)[id] == rows[id]
    ensures forall i | 0 <= i < |picks| :: PutAll(rows, picks, news)[picks[i]] == news[i]
  {
    if picks != [] {
      var n := |picks| - 1;
      assert picks == picks[..n] + [picks[n]] && picks[n] !in picks[..n];
      PutAllFacts(rows, picks[..n], news[..n]);
    }
  }

  lemma NextRow(t: Tables, before: Tables, id: nat, p: Policy, w: World)
    requires id in t.resources && id in before.resources && before.resources[id] == t.resources[id]
    ensures AfterSync(before, id, RequestUnder(p), w).resources ==
            before.resources[id := RowAfter(t.resources[id], p, w)]
  {
    RowAfterCall(before, id, p, w);
  }

  /** The picks are different rows, so each call meets its resource as the round found it. */
  lemma {:induction false} RowsAfterPicks(
    t: Tables, picks: seq<nat>, p: Policy, worlds: seq<World>, news: seq<Resource>)
    requires |worlds| == |picks| == |news| && NoRepeats(picks) && Known(picks, t)
    requires forall i | 0 <= i < |picks| :: news[i] == RowAfter(t.resources[picks[i]], p, worlds[i])
    ensures AfterPicks(t, picks, p, worlds).resources == PutAll(t.resources, picks, news)
  {
    hide RowAfter, AfterSync;
    if picks != [] {
      var n := |picks| - 1;
      var front := picks[..n];
      assert picks == front + [picks[n]];
      RowsAfterPicks(t, front, p, worlds[..n], news[..n]);
      PutAllFacts(t.resources, front, news[..n]);
      assert picks[n] !in front && picks[n] in picks;
      NextRow(t, AfterPicks(t, front, p, worlds[..n]), picks[n], p, worlds[n]);
    }
  }

  /** Due for a sync under the statuses never_synced and stale. */
  predicate IsDue(q: Query, r: Resource, at: int) {
    && r.company == q.company && r.enabled
    && (q.resourceType == "" || KindName(KindFor(r)) == q.resourceType || r.resourceType == q.resourceType)
    && Decide(r, q.policy).AutoSyncAllowed()
    && (r.lastSync.None? || at - r.lastSync.value > STALE_AFTER)
  }

  predicate OnlyDueStatuses(q: Query) {
    q.statuses == ["never_synced", "stale"]
  }

  lemma DueStatusNames(s: SyncStatus)
    ensures StatusName(s) in ["never_synced", "stale"] <==> s in {NeverSynced, Stale}
  {
  }

  lemma ClassifyIffDue(r: Resource, p: Policy, now: int)
    requires r.enabled
    ensures Classify(r, p, now) in {NeverSynced, Stale} <==>
            Decide(r, p).Executable() && (r.lastSync.None? || now - r.lastSync.value > STALE_AFTER)
  {
    DispatchIsComplete(r, p);
  }

  lemma AdmitsIffDue(q: Query, r: Resource, now: int)
    requires OnlyDueStatuses(q) && r.company == q.company && r.enabled
    ensures Admits(q, r, now) <==> IsDue(q, r, now)
  {
    DueStatusNames(Classify(r, q.policy, now));
    ClassifyIffDue(r, q.policy, now);
  }

  function Waiting(t: Tables, q: Query, at: int): set<nat> {
    set id | id in t.resources && IsDue(q, t.resources[id], at)
  }

  function StampedBy(t: Tables, picks: seq<nat>, p: Policy, worlds: seq<World>): set<nat>
    requires |worlds| == |picks| && Known(picks, t)
  {
    set i | 0 <= i < |picks| && StampsDurably(t.resources[picks[i]], p, worlds[i]) :: picks[i]
  }

  lemma StampedRowIsNotDue(q: Query, r: Resource, w: World, at: int)
    requires at - w.now <= STALE_AFTER
    ensures IsDue(q, RowAfter(r, q.policy, w), at) <==> IsDue(q, r, at) && !StampsDurably(r, q.policy, w)
  {
  }

  /** A round takes off the waiting set exactly the picks it stamps: no pick that fails to stamp leaves
      it, and nothing else does. */
  lemma RoundLaw(t: Tables, q: Query, picks: seq<nat>, worlds: seq<World>, at: int)
    requires |worlds| == |picks| && NoRepeats(picks) && Known(picks, t)
    requires forall w <- worlds :: at - w.now <= STALE_AFTER
    ensures Waiting(AfterPicks(t, picks, q.policy, worlds), q, at) ==
            Waiting(t, q, at) - StampedBy(t, picks, q.policy, worlds)
  {
    var t' := AfterPicks(t, picks, q.policy, worlds);
    var news := seq(|picks|, i requires 0 <= i < |picks| =>
      assert picks[i] in picks; RowAfter(t.resources[picks[i]], q.policy, worlds[i]));
    RowsAfterPicks(t, picks, q.policy, worlds, news);
    PutAllFacts(t.resources, picks, news);
    forall id | id in t.resources
      ensures id in Waiting(t', q, at) <==> id in Waiting(t, q, at) && id !in StampedBy(t, picks, q.policy, worlds)
    {
      if id in picks {
        var i :| 0 <= i < |picks| && picks[i] == id;
        assert forall j | 0 <= j < |picks| && picks[j] == id :: j == i;
        assert worlds[i] in worlds;
        StampedRowIsNotDue(q, t.resources[id], worlds[i], at);
      }
    }
  }

  lemma {:induction false} OtherRowsStay(t: Tables, picks: seq<nat>, p: Policy, worlds: seq<World>, id: nat)
    requires |worlds| == |picks| && id in t.resources && id !in picks
    ensures id in AfterPicks(t, picks, p, worlds).resources
    ensures AfterPicks(t, picks, p, worlds).resources[id] == t.resources[id]
  {
    if picks != [] {
      var n := |picks| - 1;
      assert picks == picks[..n] + [picks[n]];
      OtherRowsStay(t, picks[..n], p, worlds[..n], id);
      CallsAreIsolated(AfterPicks(t, picks[..n], p, worlds[..n]), SyncOp(picks[n], RequestUnder(p), worlds[n]), id);
    }
  }

  /** Rows only added, none of them a skip. */
  predicate AddsNoSkip(before: seq<RunRow>, after: seq<RunRow>) {
    before <= after && forall i | |before| <= i < |after| :: after[i].status != RunSkipped
  }

  ghost predicate AllAdmitted(ok: set<nat>, t: Tables, q: Query, now: int) {
    forall id | id in ok :: id in t.resources && Admits(q, t.resources[id], now)
  }

  lemma AdmittedRow(ok: set<nat>, t: Tables, q: Query, now: int, id: nat)
    requires AllAdmitted(ok, t, q, now) && id in ok
    ensures id in t.resources && Admits(q, t.resources[id], now)
  {
  }

  /** The calls before it leave the last pick as admitted as it was. */
  lemma LastPickIsAdmitted(t: Tables, q: Query, picks: seq<nat>, worlds: seq<World>, now: int, ok: set<nat>)
    requires |worlds| == |picks| && picks != [] && NoRepeats(picks)
    requires AllAdmitted(ok, t, q, now) && forall id <- picks :: id in ok
    ensures var n, id := |picks| - 1, picks[|picks| - 1];
            var before := AfterPicks(t, picks[..n], q.policy, worlds[..n]);
            id in before.resources && Admits(q, before.resources[id], now)
    ensures NoRepeats(picks[..|picks| - 1]) && forall id <- picks[..|picks| - 1] :: id in ok
  {
    hide AllAdmitted, Admits, AfterPicks;
    var n, id := |picks| - 1, picks[|picks| - 1];
    assert picks == picks[..n] + [id] && id !in picks[..n] && id in picks;
    AdmittedRow(ok, t, q, now, id);
    OtherRowsStay(t, picks[..n], q.policy, worlds[..n], id);
  }

  /** The runs a whole round records: none is a skip, whatever the picks before it did. */
  lemma {:induction false} RoundsRecordNoSkips(
    t: Tables, q: Query, picks: seq<nat>, worlds: seq<World>, now: int, ok: set<nat>)
    requires |worlds| == |picks| && NoRepeats(picks)
    requires AllAdmitted(ok, t, q, now) && forall id <- picks :: id in ok
    ensures AddsNoSkip(t.runs, AfterPicks(t, picks, q.policy, worlds).runs)
  {
    if picks != [] {
      var n := |picks| - 1;
      LastPickIsAdmitted(t, q, picks, worlds, now, ok);
      RoundsRecordNoSkips(t, q, picks[..n], worlds[..n], now, ok);
      NextCallRecordsNoSkip(t.runs, AfterPicks(t, picks[..n], q.policy, worlds[..n]), q, picks[n], worlds[n], now);
    }
  }

  lemma NextCallRecordsNoSkip(runs: seq<RunRow>, t: Tables, q: Query, id: nat, w: World, now: int)
    requires AddsNoSkip(runs, t.runs) && id in t.resources && Admits(q, t.resources[id], now)
    ensures AddsNoSkip(runs, AfterSync(t, id, RequestUnder(q.policy), w).runs)
  {
    CallRecordsNoSkip(t, q, id, w, now);
    NoSkipInBoth(runs, t.runs, AfterSync(t, id, RequestUnder(q.policy), w).runs);
  }

  lemma NoSkipInBoth(a: seq<RunRow>, b: seq<RunRow>, c: seq<RunRow>)
    requires AddsNoSkip(a, b) && AddsNoSkip(b, c)
    ensures AddsNoSkip(a, c)
  {
  }

  lemma CallRecordsNoSkip(t: Tables, q: Query, id: nat, w: World, now: int)
    requires id in t.resources && Admits(q, t.resources[id], now)
    ensures AddsNoSkip(t.runs, AfterSync(t, id, RequestUnder(q.policy), w).runs)
  {
    SelectedIsExecuted(q, t.resources[id], now, w);
    StepRuns(t, SyncOp(id, RequestUnder(q.policy), w));
  }
}
