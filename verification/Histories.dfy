/** Requests and ticks in any mixture: the laws over sequences of requests hold for them as well. */
module Histories {
  import opened Options
  import opened Decisions
  import opened Workspace
  import opened WorkspaceSafety
  import opened Scheduler
  import opened Ticks

  /** What happens next: a request, or a tick with its turns. */
  datatype Event = Requested(op: Op) | Ticked(turns: seq<Turn>)

  function AfterHistory(t: Tables, history: seq<Event>): Tables {
    if history == [] then t
    else
      var t' := AfterHistory(t, history[..|history| - 1]);
      match history[|history| - 1]
      case Requested(op) => Apply(t', op)
      case Ticked(turns) => AfterTick(t', turns).0
  }

  // ---- the requests a tick amounts to ----

  function PickOps(picks: seq<nat>, p: Policy, worlds: seq<World>): seq<Op>
    requires |worlds| == |picks|
  {
    seq(|picks|, i requires 0 <= i < |picks| => SyncOp(picks[i], RequestUnder(p), worlds[i]))
  }

  function TurnOps(t: Tables, aborted: bool, turn: Turn): seq<Op> {
    if Takes(t, aborted, turn) then
      var picks := TurnPicks(t, turn);
      PickOps(picks, turn.policy, WorldsOf(turn, |picks|))
    else []
  }

  function TickOps(t: Tables, turns: seq<Turn>): seq<Op> {
    if turns == [] then []
    else
      var front := turns[..|turns| - 1];
      var (t', aborted) := AfterTick(t, front);
      TickOps(t, front) + TurnOps(t', aborted, turns[|turns| - 1])
  }

  function HistoryOps(t: Tables, history: seq<Event>): seq<Op> {
    if history == [] then []
    else
      var front := history[..|history| - 1];
      HistoryOps(t, front) +
      match history[|history| - 1]
      case Requested(op) => [op]
      case Ticked(turns) => TickOps(AfterHistory(t, front), turns)
  }

  /** Equal but for the automatic runs, which no request reads or writes. */
  ghost predicate Alike(t: Tables, u: Tables) {
    t.resources == u.resources && t.runs == u.runs && t.events == u.events
  }

  lemma ApplyAlike(t: Tables, u: Tables, op: Op)
    requires Alike(t, u)
    ensures Alike(Apply(t, op), Apply(u, op))
  {
  }

  lemma {:induction false} ReplayAlike(t: Tables, u: Tables, ops: seq<Op>)
    requires Alike(t, u)
    ensures Alike(Replay(t, ops), Replay(u, ops))
  {
    hide Apply, Alike;
    if ops != [] {
      var front := ops[..|ops| - 1];
      ReplayAlike(t, u, front);
      ApplyAlike(Replay(t, front), Replay(u, front), ops[|ops| - 1]);
    }
  }

  lemma {:induction false} ReplayJoins(t: Tables, a: seq<Op>, b: seq<Op>)
    ensures Replay(t, a + b) == Replay(Replay(t, a), b)
  {
    hide Apply;
    if b == [] {
      assert a + b == a;
    } else {
      ReplayJoins(t, a, b[..|b| - 1]);
      assert (a + b)[..|a + b| - 1] == a + b[..|b| - 1];
    }
  }

  lemma {:induction false} PicksAreReplayed(t: Tables, picks: seq<nat>, p: Policy, worlds: seq<World>)
    requires |worlds| == |picks|
    ensures AfterPicks(t, picks, p, worlds) == Replay(t, PickOps(picks, p, worlds))
  {
    hide AfterSync;
    if picks != [] {
      var n := |picks| - 1;
      PicksAreReplayed(t, picks[..n], p, worlds[..n]);
      assert PickOps(picks, p, worlds)[..n] == PickOps(picks[..n], p, worlds[..n]);
    }
  }

  /** A turn does to resources, runs and events what its calls do one after the other. */
  lemma TurnIsReplayed(t: Tables, aborted: bool, turn: Turn)
    ensures Alike(Advance(t, aborted, turn).0, Replay(t, TurnOps(t, aborted, turn)))
  {
    if Takes(t, aborted, turn) {
      var picks := TurnPicks(t, turn);
      PicksAreReplayed(AfterStart(t, turn), picks, turn.policy, WorldsOf(turn, |picks|));
      ReplayAlike(AfterStart(t, turn), t, TurnOps(t, aborted, turn));
    }
  }

  lemma {:induction false} TickIsReplayed(t: Tables, turns: seq<Turn>)
    ensures Alike(AfterTick(t, turns).0, Replay(t, TickOps(t, turns)))
  {
    hide Advance, TurnOps, Apply;
    if turns != [] {
      var front, turn := turns[..|turns| - 1], turns[|turns| - 1];
      TickIsReplayed(t, front);
      var (t', aborted) := AfterTick(t, front);
      TurnIsReplayed(t', aborted, turn);
      ReplayAlike(t', Replay(t, TickOps(t, front)), TurnOps(t', aborted, turn));
      ReplayJoins(t, TickOps(t, front), TurnOps(t', aborted, turn));
    }
  }

  /** Any mixture of requests and ticks does what a sequence of requests does. */
  lemma {:induction false} HistoryIsReplayed(t: Tables, history: seq<Event>)
    ensures Alike(AfterHistory(t, history), Replay(t, HistoryOps(t, history)))
  {
    hide Apply;
    if history != [] {
      var front, last := history[..|history| - 1], history[|history| - 1];
      var t', ops := AfterHistory(t, front), HistoryOps(t, front);
      HistoryIsReplayed(t, front);
      match last
      case Requested(op) =>
        ApplyAlike(t', Replay(t, ops), op);
        assert (ops + [op])[..|ops|] == ops;
      case Ticked(turns) =>
        TickIsReplayed(t', turns);
        ReplayAlike(t', Replay(t, ops), TickOps(t', turns));
        ReplayJoins(t, ops, TickOps(t', turns));
    }
  }

  // ---- the laws, with ticks in between ----

  /** Over any mixture a committed run is left running if and only if some fetch, a tick's or a request's,
      came back and then lost its closing commit; and every row adds up. */
  lemma HistoryLeavesRunningIff(t: Tables, history: seq<Event>)
    requires !HasRunning(t) && forall run <- t.runs :: Accounted(run)
    ensures HasRunning(AfterHistory(t, history)) <==> true in Losses(t, HistoryOps(t, history))
    ensures t.runs <= AfterHistory(t, history).runs && forall run <- AfterHistory(t, history).runs :: Accounted(run)
  {
    HistoryIsReplayed(t, history);
    LeftRunningIff(t, HistoryOps(t, history));
    RunRowsAddUp(t, HistoryOps(t, history));
  }

  /** Ticks make plain calls only. */
  predicate OnlyPlain(ops: seq<Op>) {
    forall op <- ops :: op.SyncOp? && !op.req.retry
  }

  lemma PickOpsArePlain(picks: seq<nat>, p: Policy, worlds: seq<World>)
    requires |worlds| == |picks|
    ensures OnlyPlain(PickOps(picks, p, worlds))
  {
    forall op | op in PickOps(picks, p, worlds) ensures op.SyncOp? && !op.req.retry {
      var i :| 0 <= i < |PickOps(picks, p, worlds)| && PickOps(picks, p, worlds)[i] == op;
      assert op == SyncOp(picks[i], RequestUnder(p), worlds[i]);
    }
  }

  lemma TurnIsPlain(t: Tables, aborted: bool, turn: Turn)
    ensures OnlyPlain(TurnOps(t, aborted, turn))
  {
    hide TurnPicks, Takes;
    var picks := TurnPicks(t, turn);
    PickOpsArePlain(picks, turn.policy, WorldsOf(turn, |picks|));
  }

  lemma {:induction false} TicksArePlain(t: Tables, turns: seq<Turn>)
    ensures OnlyPlain(TickOps(t, turns))
  {
    hide TurnOps, Advance;
    if turns != [] {
      var front := turns[..|turns| - 1];
      var (t', aborted) := AfterTick(t, front);
      TicksArePlain(t, front);
      TurnIsPlain(t', aborted, turns[|turns| - 1]);
    }
  }

  /** No request of the history clears or retries the resource. */
  ghost predicate LeftAlone(history: seq<Event>, id: nat) {
    forall e <- history :: e.Requested? ==>
      !(e.op.ClearOp? && e.op.id == id) && !(e.op.SyncOp? && e.op.id == id && e.op.req.retry)
  }

  predicate NoRelease(ops: seq<Op>, id: nat) {
    forall op <- ops :: !(op.ClearOp? && op.id == id) && !(op.SyncOp? && op.id == id && op.req.retry)
  }

  lemma {:induction false} HistoryHasNoRelease(t: Tables, history: seq<Event>, id: nat)
    requires LeftAlone(history, id)
    ensures NoRelease(HistoryOps(t, history), id)
  {
    if history != [] {
      var front, last := history[..|history| - 1], history[|history| - 1];
      assert history == front + [last];
      HistoryHasNoRelease(t, front, id);
      if last.Ticked? { TicksArePlain(AfterHistory(t, front), last.turns); }
    }
  }

  lemma {:induction false} NoReleaseNeverReleases(t: Tables, ops: seq<Op>, id: nat)
    requires NoRelease(ops, id)
    ensures NeverReleases(t, ops, id) && NeverRetries(ops, id)
  {
    if ops != [] {
      var front, last := ops[..|ops| - 1], ops[|ops| - 1];
      assert ops == front + [last];
      NoReleaseNeverReleases(t, front, id);
      assert last in ops;
    }
  }

  /** Over any mixture of requests and ticks, a blocked resource that no request clears or retries stays
      blocked, with its block status and its last sync as they were. */
  lemma BlockOutlivesTicks(t: Tables, history: seq<Event>, id: nat)
    requires BlockedIn(t, id) && LeftAlone(history, id)
    ensures var after := AfterHistory(t, history);
            && BlockedIn(after, id)
            && after.resources[id].lastSync == t.resources[id].lastSync
            && AccessStatus(after.resources[id].governance) == AccessStatus(t.resources[id].governance)
  {
    var ops := HistoryOps(t, history);
    HistoryIsReplayed(t, history);
    HistoryHasNoRelease(t, history, id);
    NoReleaseNeverReleases(t, ops, id);
    BlockedUntilReleased(t, ops, id);
  }
}
