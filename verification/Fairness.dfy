/** What repeated scheduler rounds achieve, and when they achieve nothing. */
module Fairness {
  import opened Lists
  import opened Options
  import opened Strategy
  import opened Decisions
  import opened SyncResults
  import opened Workspace
  import opened WorkspaceSafety
  import opened Scheduler

  /** One round: what the query returned, when, and what each pick met. */
  datatype Round = Round(rows: seq<nat>, now: int, worlds: seq<World>)

  function PicksOf(t: Tables, q: Query, round: Round): seq<nat> {
    Selected(round.rows, t, q, round.now)
  }

  /** A round that could happen on these tables at or after `start`. */
  ghost predicate Possible(t: Tables, q: Query, round: Round, start: int) {
    && IsQueryResult(round.rows, t, q.company)
    && round.now >= start
    && |round.worlds| == |PicksOf(t, q, round)|
    && forall w <- round.worlds :: w.now >= start
  }

  function AfterRound(t: Tables, q: Query, round: Round): Tables
    requires |round.worlds| == |PicksOf(t, q, round)|
  {
    AfterPicks(t, PicksOf(t, q, round), q.policy, round.worlds)
  }

  /** The admitted rows of a query are exactly those waiting. */
  lemma AdmittedAreWaiting(t: Tables, q: Query, rows: seq<nat>, now: int)
    requires OnlyDueStatuses(q) && IsQueryResult(rows, t, q.company)
    ensures forall id :: id in rows && id in AdmittedIn(t, q, now) <==> id in Waiting(t, q, now)
  {
    forall id | id in t.resources && t.resources[id].company == q.company && t.resources[id].enabled
      ensures id in AdmittedIn(t, q, now) <==> id in Waiting(t, q, now)
    {
      AdmitsIffDue(q, t.resources[id], now);
    }
  }

  /** The picks of a round: waiting rows, each once, oldest first. */
  lemma PickFacts(t: Tables, q: Query, round: Round)
    requires OnlyDueStatuses(q) && IsQueryResult(round.rows, t, q.company)
    ensures Known(PicksOf(t, q, round), t) && NoRepeats(PicksOf(t, q, round))
    ensures forall id <- PicksOf(t, q, round) :: id in Waiting(t, q, round.now)
    ensures var all := Only(round.rows, AdmittedIn(t, q, round.now));
            && PicksOf(t, q, round) == Take(all, Cap(q))
            && (forall id :: id in all <==> id in Waiting(t, q, round.now))
            && (forall i, j | 0 <= i < j < |all| :: all[i] in t.resources && all[j] in t.resources &&
                                                    NotAfter(t.resources[all[i]], t.resources[all[j]]))
  {
    var ok := AdmittedIn(t, q, round.now);
    AdmittedAreWaiting(t, q, round.rows, round.now);
    OnlyFacts(round.rows, ok);
    OnlyInOrder(round.rows, ok, t);
  }

  /** Waiting at `start` means an older stamp than anything that became due later. */
  lemma WaitingIsOlder(t: Tables, q: Query, start: int, now: int, older: nat, other: nat)
    requires older in Waiting(t, q, start) && other in Waiting(t, q, now) && other !in Waiting(t, q, start)
    ensures !NotAfter(t.resources[other], t.resources[older])
  {
  }

  lemma WaitingGrows(t: Tables, q: Query, start: int, now: int)
    requires start <= now
    ensures Waiting(t, q, start) <= Waiting(t, q, now)
  {
  }

  /** A round serves those that were waiting at `start` before anyone who became due since: either it
      picks all of them, or it picks nobody else and fills its limit. */
  lemma OldestFirst(t: Tables, q: Query, round: Round, start: int)
    requires OnlyDueStatuses(q) && IsQueryResult(round.rows, t, q.company) && start <= round.now
    ensures var picks, waiting := PicksOf(t, q, round), Waiting(t, q, start);
            || (forall id <- waiting :: id in picks)
            || ((forall id <- picks :: id in waiting) && |picks| == Cap(q))
  {
    PickFacts(t, q, round);
    WaitingGrows(t, q, start, round.now);
    var picks, waiting := PicksOf(t, q, round), Waiting(t, q, start);
    var all := Only(round.rows, AdmittedIn(t, q, round.now));
    if missed :| missed in waiting && missed !in picks {
      var j :| 0 <= j < |all| && all[j] == missed;
      assert |all| > Cap(q) && j >= Cap(q);
      forall id <- picks ensures id in waiting {
        var i :| 0 <= i < |picks| && picks[i] == id;
        assert all[i] == id && NotAfter(t.resources[all[i]], t.resources[all[j]]);
        if id !in waiting { WaitingIsOlder(t, q, start, round.now, missed, id); }
      }
    }
  }

  function ToSet(s: seq<nat>): set<nat> {
    set id | id in s
  }

  lemma {:induction false} SizeOfToSet(s: seq<nat>)
    requires NoRepeats(s)
    ensures |ToSet(s)| == |s|
  {
    if s != [] {
      var n := |s| - 1;
      SizeOfToSet(s[..n]);
      assert s == s[..n] + [s[n]];
      assert ToSet(s) == ToSet(s[..n]) + {s[n]};
    }
  }

  /** Every pick of the round is stamped, and the stamp is committed. */
  predicate AllStamp(t: Tables, q: Query, round: Round)
    requires |round.worlds| == |PicksOf(t, q, round)| && Known(PicksOf(t, q, round), t)
  {
    forall i | 0 <= i < |round.worlds| :: StampsDurably(t.resources[PicksOf(t, q, round)[i]], q.policy, round.worlds[i])
  }

  /** A round whose picks are all stamped takes its limit off those waiting since `start`, or all of them. */
  lemma RoundServes(t: Tables, q: Query, round: Round, start: int)
    requires OnlyDueStatuses(q) && Possible(t, q, round, start) && Known(PicksOf(t, q, round), t)
    requires AllStamp(t, q, round)
    ensures var before, after := Waiting(t, q, start), Waiting(AfterRound(t, q, round), q, start);
            && after == before - ToSet(PicksOf(t, q, round))
            && (after == {} || (ToSet(PicksOf(t, q, round)) <= before && |PicksOf(t, q, round)| == Cap(q)))
            && (after == {} || |after| == |before| - Cap(q))
  {
    var picks := PicksOf(t, q, round);
    PickFacts(t, q, round);
    RoundLaw(t, q, picks, round.worlds, start);
    StampedByAll(t, q, picks, round.worlds);
    OldestFirst(t, q, round, start);
    SizeOfToSet(picks);
    var before := Waiting(t, q, start);
    if !(forall id <- before :: id in picks) {
      assert ToSet(picks) <= before;
    }
  }

  lemma StampedByAll(t: Tables, q: Query, picks: seq<nat>, worlds: seq<World>)
    requires |worlds| == |picks| && Known(picks, t)
    requires forall i | 0 <= i < |worlds| :: StampsDurably(t.resources[picks[i]], q.policy, worlds[i])
    ensures StampedBy(t, picks, q.policy, worlds) == ToSet(picks)
  {
    forall id | id in picks ensures id in StampedBy(t, picks, q.policy, worlds) {
      var i :| 0 <= i < |picks| && picks[i] == id;
      assert StampsDurably(t.resources[picks[i]], q.policy, worlds[i]);
    }
  }

  function AfterRounds(t: Tables, q: Query, rounds: seq<Round>): Tables {
    if rounds == [] then t
    else
      var t' := AfterRounds(t, q, rounds[..|rounds| - 1]);
      var last := rounds[|rounds| - 1];
      if |last.worlds| == |PicksOf(t', q, last)| then AfterRound(t', q, last) else t'
  }

  /** Rounds that could happen one after the other from `start` on, with every pick stamped. */
  ghost predicate GoodRounds(t: Tables, q: Query, rounds: seq<Round>, start: int) {
    rounds == [] ||
    var n := |rounds| - 1;
    var t' := AfterRounds(t, q, rounds[..n]);
    && GoodRounds(t, q, rounds[..n], start)
    && Possible(t', q, rounds[n], start)
    && Known(PicksOf(t', q, rounds[n]), t')
    && AllStamp(t', q, rounds[n])
  }

  /** What is left of those waiting at the start after so many rounds and these picks: the picks are gone
      and nobody else is; and as long as anybody is left, every round took its limit, every pick was one of
      those waiting at the start, and none was picked twice. */
  ghost predicate Served(before: set<nat>, left: set<nat>, picks: seq<nat>, rounds: nat, limit: nat) {
    && left == before - ToSet(picks)
    && (left != {} ==> |left| == |before| - Times(rounds, limit) && ToSet(picks) <= before && NoRepeats(picks))
  }

  function Times(rounds: nat, limit: nat): nat {
    if rounds == 0 then 0 else Times(rounds - 1, limit) + limit
  }

  lemma {:induction false} TimesIsProduct(rounds: nat, limit: nat)
    ensures Times(rounds, limit) == rounds * limit
  {
    if rounds > 0 {
      TimesIsProduct(rounds - 1, limit);
      assert rounds * limit == (rounds - 1) * limit + limit;
    }
  }

  lemma NothingServed(before: set<nat>, limit: nat)
    ensures Served(before, before, [], 0, limit)
  {
    assert before - ToSet([]) == before;
  }

  /** One more round, seen from the sets: it takes its picks off, and its limit unless nobody is left. */
  lemma ServedStep(
    before: set<nat>, left: set<nat>, after: set<nat>, picks: seq<nat>, more: seq<nat>, n: nat, limit: nat)
    requires Served(before, left, picks, n, limit) && NoRepeats(more) && after == left - ToSet(more)
    requires after == {} || (ToSet(more) <= left && |more| == limit)
    ensures Served(before, after, picks + more, n + 1, limit)
  {
    assert ToSet(picks + more) == ToSet(picks) + ToSet(more);
    if after != {} {
      SizeOfToSet(more);
      assert left != {} && |after| == |left| - |ToSet(more)|;
      forall e | e in picks ensures e !in more { assert e in ToSet(picks); }
      RepeatsOfConcatenation(picks, more);
    }
  }

  /** One more round in which every pick is stamped. */
  lemma RoundKeepsServed(t: Tables, q: Query, round: Round, start: int, before: set<nat>, picks: seq<nat>, n: nat)
    requires OnlyDueStatuses(q) && Possible(t, q, round, start) && Known(PicksOf(t, q, round), t)
    requires AllStamp(t, q, round) && Served(before, Waiting(t, q, start), picks, n, Cap(q))
    ensures Served(before, Waiting(AfterRound(t, q, round), q, start), picks + PicksOf(t, q, round), n + 1, Cap(q))
  {
    PickFacts(t, q, round);
    RoundServes(t, q, round, start);
    var left, after := Waiting(t, q, start), Waiting(AfterRound(t, q, round), q, start);
    ServedStep(before, left, after, picks, PicksOf(t, q, round), n, Cap(q));
  }

  /** Every pick of the rounds, in order. */
  function AllPicks(t: Tables, q: Query, rounds: seq<Round>): seq<nat> {
    if rounds == [] then []
    else
      var front := rounds[..|rounds| - 1];
      AllPicks(t, q, front) + PicksOf(AfterRounds(t, q, front), q, rounds[|rounds| - 1])
  }

  lemma {:induction false} RoundsServe(t: Tables, q: Query, rounds: seq<Round>, start: int)
    requires OnlyDueStatuses(q) && GoodRounds(t, q, rounds, start)
    ensures Served(Waiting(t, q, start), Waiting(AfterRounds(t, q, rounds), q, start), AllPicks(t, q, rounds),
                   |rounds|, Cap(q))
  {
    if rounds == [] {
      NothingServed(Waiting(t, q, start), Cap(q));
    } else {
      var front, last := rounds[..|rounds| - 1], rounds[|rounds| - 1];
      RoundsServe(t, q, front, start);
      RoundKeepsServed(AfterRounds(t, q, front), q, last, start, Waiting(t, q, start), AllPicks(t, q, front), |front|);
    }
  }

  lemma EnoughRounds(before: set<nat>, left: set<nat>, picks: seq<nat>, rounds: nat, limit: nat)
    requires Served(before, left, picks, rounds, limit)
    ensures rounds * limit >= |before| ==> left == {}
    ensures left != {} ==> |left| == |before| - rounds * limit
    ensures NoRepeats(picks) || before <= ToSet(picks)
  {
    TimesIsProduct(rounds, limit);
    if left == {} {
      forall id | id in before ensures id in ToSet(picks) { assert id !in left; }
    } else {
      assert |left| > 0;
    }
  }

  /** The scheduler makes progress: rounds with a combined limit of at least the number waiting leave
      none of them waiting, however the later arrivals fall. */
  lemma RoundsServeEveryone(t: Tables, q: Query, rounds: seq<Round>, start: int)
    requires OnlyDueStatuses(q) && GoodRounds(t, q, rounds, start)
    ensures Waiting(AfterRounds(t, q, rounds), q, start) == Waiting(t, q, start) - ToSet(AllPicks(t, q, rounds))
    ensures |rounds| * Cap(q) >= |Waiting(t, q, start)| ==> Waiting(AfterRounds(t, q, rounds), q, start) == {}
    ensures Waiting(AfterRounds(t, q, rounds), q, start) != {} ==>
              |Waiting(AfterRounds(t, q, rounds), q, start)| == |Waiting(t, q, start)| - |rounds| * Cap(q)
  {
    RoundsServe(t, q, rounds, start);
    var before, left := Waiting(t, q, start), Waiting(AfterRounds(t, q, rounds), q, start);
    EnoughRounds(before, left, AllPicks(t, q, rounds), |rounds|, Cap(q));
  }

  /** Over any such rounds, no resource is picked twice before every other one that was waiting at the
      start is picked once. */
  lemma NoSecondTurnBeforeAFirst(t: Tables, q: Query, rounds: seq<Round>, start: int)
    requires OnlyDueStatuses(q) && GoodRounds(t, q, rounds, start)
    ensures NoRepeats(AllPicks(t, q, rounds)) || forall id <- Waiting(t, q, start) :: id in AllPicks(t, q, rounds)
  {
    RoundsServe(t, q, rounds, start);
    var before, left := Waiting(t, q, start), Waiting(AfterRounds(t, q, rounds), q, start);
    EnoughRounds(before, left, AllPicks(t, q, rounds), |rounds|, Cap(q));
  }

  // ---- later on the same day ----

  /** Every call is at most a day before `at`. */
  predicate WithinADay(worlds: seq<World>, at: int) {
    forall w <- worlds :: at - w.now <= STALE_AFTER
  }

  /** A round in which every pick is stamped takes its picks off those who wait at any time of the next day. */
  lemma RoundTakesPicks(t: Tables, q: Query, round: Round, start: int, at: int)
    requires OnlyDueStatuses(q) && Possible(t, q, round, start) && Known(PicksOf(t, q, round), t)
    requires AllStamp(t, q, round) && WithinADay(round.worlds, at)
    ensures Waiting(AfterRound(t, q, round), q, at) == Waiting(t, q, at) - ToSet(PicksOf(t, q, round))
  {
    var picks := PicksOf(t, q, round);
    PickFacts(t, q, round);
    RoundLaw(t, q, picks, round.worlds, at);
    StampedByAll(t, q, picks, round.worlds);
  }

  /** So do any number of such rounds, so that no resource becomes due again within the day. */
  lemma {:induction false} RoundsTakePicks(t: Tables, q: Query, rounds: seq<Round>, start: int, at: int)
    requires OnlyDueStatuses(q) && GoodRounds(t, q, rounds, start)
    requires forall round <- rounds :: WithinADay(round.worlds, at)
    ensures Waiting(AfterRounds(t, q, rounds), q, at) == Waiting(t, q, at) - ToSet(AllPicks(t, q, rounds))
  {
    hide Waiting;
    if rounds == [] {
      assert Waiting(t, q, at) - ToSet([]) == Waiting(t, q, at);
    } else {
      var front, last := rounds[..|rounds| - 1], rounds[|rounds| - 1];
      RoundsTakePicks(t, q, front, start, at);
      RoundTakesPicks(AfterRounds(t, q, front), q, last, start, at);
      var picks := PicksOf(AfterRounds(t, q, front), q, last);
      assert ToSet(AllPicks(t, q, rounds)) == ToSet(AllPicks(t, q, front)) + ToSet(picks);
    }
  }

  /** Once the rounds have made up for those waiting at the start, whoever waits later on that day became
      due in the meantime; if nobody did, nobody waits. */
  lemma OnlyLatecomersWait(t: Tables, q: Query, rounds: seq<Round>, start: int, at: int)
    requires OnlyDueStatuses(q) && GoodRounds(t, q, rounds, start)
    requires forall round <- rounds :: WithinADay(round.worlds, at)
    requires |rounds| * Cap(q) >= |Waiting(t, q, start)|
    ensures Waiting(AfterRounds(t, q, rounds), q, at) <= Waiting(t, q, at) - Waiting(t, q, start)
  {
    hide Waiting;
    RoundsServeEveryone(t, q, rounds, start);
    RoundsTakePicks(t, q, rounds, start, at);
    NobodyIsLeft(Waiting(t, q, start), ToSet(AllPicks(t, q, rounds)));
  }

  lemma NobodyIsLeft(before: set<nat>, picked: set<nat>)
    requires before - picked == {}
    ensures before <= picked
  {
    forall id | id in before ensures id in picked { assert id !in before - picked; }
  }

  // ---- when nothing moves ----

  lemma {:induction false} UnstampedPicksChangeNothing(t: Tables, picks: seq<nat>, p: Policy, worlds: seq<World>)
    requires |worlds| == |picks| && Known(picks, t)
    requires forall i | 0 <= i < |picks| :: !StampsDurably(t.resources[picks[i]], p, worlds[i])
    ensures AfterPicks(t, picks, p, worlds).resources == t.resources
  {
    if picks != [] {
      var n := |picks| - 1;
      UnstampedPicksChangeNothing(t, picks[..n], p, worlds[..n]);
      assert picks[n] in picks;
      RowAfterCall(AfterPicks(t, picks[..n], p, worlds[..n]), picks[n], p, worlds[n]);
      assert t.resources[picks[n] := t.resources[picks[n]]] == t.resources;
    }
  }

  /** A round none of whose picks is stamped changes no resource, so the next one finds the same queue. */
  lemma UnstampedRoundChangesNothing(t: Tables, q: Query, round: Round)
    requires |round.worlds| == |PicksOf(t, q, round)| && Known(PicksOf(t, q, round), t)
    requires forall i | 0 <= i < |round.worlds| ::
               !StampsDurably(t.resources[PicksOf(t, q, round)[i]], q.policy, round.worlds[i])
    ensures AfterRound(t, q, round).resources == t.resources
  {
    UnstampedPicksChangeNothing(t, PicksOf(t, q, round), q.policy, round.worlds);
  }

  /** The head of the queue: as many as the limit or more, with everyone else who is waiting strictly
      later. */
  ghost predicate Heads(t: Tables, q: Query, heads: set<nat>, now: int) {
    && heads <= Waiting(t, q, now) && |heads| >= Cap(q)
    && forall id, head | id in Waiting(t, q, now) - heads && head in heads ::
         !NotAfter(t.resources[id], t.resources[head])
  }

  /** Of rows with all heads before anybody else, the first ones are heads. */
  lemma FirstAreHeads(all: seq<nat>, heads: set<nat>, limit: nat)
    requires NoRepeats(all) && heads <= ToSet(all) && |heads| >= limit
    requires forall i, j | 0 <= i < j < |all| :: all[j] in heads ==> all[i] in heads
    ensures |Take(all, limit)| == limit && ToSet(Take(all, limit)) <= heads
  {
    SizeOfToSet(all);
    SubsetSize(heads, ToSet(all));
    var picks := Take(all, limit);
    if outsider :| outsider in picks && outsider !in heads {
      var i :| 0 <= i < |picks| && picks[i] == outsider;
      forall head | head in heads ensures head in ToSet(all[..i]) {
        var j :| 0 <= j < |all| && all[j] == head;
        assert j < i && all[..i][j] == head;
      }
      SizeOfToSet(all[..i]);
      SubsetSize(heads, ToSet(all[..i]));
    }
  }

  /** A round takes its picks from the head, and fills its limit. */
  lemma PicksComeFromTheHead(t: Tables, q: Query, round: Round, heads: set<nat>)
    requires OnlyDueStatuses(q) && IsQueryResult(round.rows, t, q.company)
    requires Heads(t, q, heads, round.now)
    ensures |PicksOf(t, q, round)| == Cap(q) && ToSet(PicksOf(t, q, round)) <= heads
  {
    PickFacts(t, q, round);
    OnlyFacts(round.rows, AdmittedIn(t, q, round.now));
    var all, waiting := Only(round.rows, AdmittedIn(t, q, round.now)), Waiting(t, q, round.now);
    forall i, j | 0 <= i < j < |all| && all[j] in heads ensures all[i] in heads {
      assert all[i] in all && NotAfter(t.resources[all[i]], t.resources[all[j]]);
      assert all[i] in waiting;
    }
    FirstAreHeads(all, heads, Cap(q));
  }

  /** Rounds at which these head the queue and no call stamps the head it picks. */
  ghost predicate StuckRounds(t: Tables, q: Query, rounds: seq<Round>, heads: set<nat>) {
    forall round <- rounds ::
      && IsQueryResult(round.rows, t, q.company)
      && Heads(t, q, heads, round.now)
      && |round.worlds| == Cap(q)
      && forall w, head | w in round.worlds && head in heads :: !StampsDurably(t.resources[head], q.policy, w)
  }

  lemma QueryReadsResourcesOnly(t: Tables, u: Tables, q: Query, round: Round, heads: set<nat>)
    requires t.resources == u.resources
    ensures IsQueryResult(round.rows, t, q.company) <==> IsQueryResult(round.rows, u, q.company)
    ensures Waiting(t, q, round.now) == Waiting(u, q, round.now)
    ensures Heads(t, q, heads, round.now) <==> Heads(u, q, heads, round.now)
  {
  }

  /** Each of those rounds picks heads only, as long as the resources are as they were, and leaves them so. */
  lemma StuckRoundPicksHeads(t: Tables, u: Tables, q: Query, rounds: seq<Round>, round: Round, heads: set<nat>)
    requires OnlyDueStatuses(q) && StuckRounds(t, q, rounds, heads)
    requires round in rounds && u.resources == t.resources
    ensures |PicksOf(u, q, round)| == |round.worlds| && ToSet(PicksOf(u, q, round)) <= heads
    ensures AfterRound(u, q, round).resources == u.resources
  {
    QueryReadsResourcesOnly(t, u, q, round, heads);
    PicksComeFromTheHead(u, q, round, heads);
    var picks := PicksOf(u, q, round);
    forall id | id in picks ensures id in heads && id in u.resources { assert id in ToSet(picks); }
    forall i | 0 <= i < |round.worlds| ensures !StampsDurably(u.resources[picks[i]], q.policy, round.worlds[i]) {
      assert picks[i] in picks && round.worlds[i] in round.worlds;
    }
    UnstampedRoundChangesNothing(u, q, round);
  }

  /** Starvation: as many heads as the limit that are never stamped take every round's picks, and no
      resource, however often the scheduler runs, is ever synced. */
  lemma {:induction false} UnstampedHeadsStarveTheRest(t: Tables, q: Query, rounds: seq<Round>, heads: set<nat>)
    requires OnlyDueStatuses(q) && StuckRounds(t, q, rounds, heads)
    ensures AfterRounds(t, q, rounds).resources == t.resources
    ensures ToSet(AllPicks(t, q, rounds)) <= heads
  {
    if rounds != [] {
      var front, last := rounds[..|rounds| - 1], rounds[|rounds| - 1];
      UnstampedHeadsStarveTheRest(t, q, front, heads);
      StuckRoundPicksHeads(t, AfterRounds(t, q, front), q, rounds, last, heads);
      var picks := PicksOf(AfterRounds(t, q, front), q, last);
      assert ToSet(AllPicks(t, q, rounds)) == ToSet(AllPicks(t, q, front)) + ToSet(picks);
    }
  }

  /** Such heads exist with everything working: a resource read with a user's own token is stamped
      only if it is a Bitable table or is merely indexed. */
  lemma UserReadChatIsNeverStamped(r: Resource, p: Policy, w: World)
    requires LayerOf(KindFor(r)) == RealtimeLayer && w.source.Some? && w.source.value.kind == UserIdentity
    ensures !StampsDurably(r, p, w)
  {
  }

  function Chat(id: string, createdAt: int): Resource {
    Resource(0, "feishu", "chat", id, "", true, createdAt, None, Some(7), "", "", NoGovernance)
  }

  const POLICY := Policy("", "", [], ["never_synced", "stale"], 1, 900)
  const QUERY := Query(0, POLICY, "", POLICY.statuses, 0)
  const USER_READ := World(5, "", Some(Source(UserIdentity, Some(3))), {7}, ReplyReturned([], map[]), "", true)
  const CHATS := Tables(map[1 := Chat("oc_1", 0), 2 := Chat("oc_2", 1)], [], map[], [])

  lemma ChatIsDue(r: Resource)
    requires r == Chat("oc_1", 0) || r == Chat("oc_2", 1)
    ensures IsDue(QUERY, r, 0) && KindFor(r) == Kind.Chat
  {
    ChatIsReady(r);
  }

  lemma ChatsWait()
    ensures Waiting(CHATS, QUERY, 0) == {1, 2}
  {
    ChatIsDue(CHATS.resources[1]);
    ChatIsDue(CHATS.resources[2]);
  }

  lemma OlderChatHeads()
    ensures Heads(CHATS, QUERY, {1}, 0)
  {
    ChatsWait();
    assert !NotAfter(CHATS.resources[2], CHATS.resources[1]);
  }

  lemma ChatsAreTheQuery()
    ensures IsQueryResult([1, 2], CHATS, 0)
  {
  }

  lemma OlderChatIsNeverStamped()
    ensures !StampsDurably(CHATS.resources[1], POLICY, USER_READ)
  {
    ChatIsReady(CHATS.resources[1]);
    UserReadChatIsNeverStamped(CHATS.resources[1], POLICY, USER_READ);
  }

  /** It happens: of two chats that were never synced, the older one is read with a user's token. However
      many rounds with a limit of one there are, the younger one is never picked. */
  lemma YoungerChatIsNeverPicked(n: nat)
    ensures var rounds := seq(n, _ => Round([1, 2], 0, [USER_READ]));
            && StuckRounds(CHATS, QUERY, rounds, {1})
            && 2 !in AllPicks(CHATS, QUERY, rounds) && AfterRounds(CHATS, QUERY, rounds).resources == CHATS.resources
  {
    var rounds := seq(n, _ => Round([1, 2], 0, [USER_READ]));
    OlderChatHeads();
    ChatsAreTheQuery();
    OlderChatIsNeverStamped();
    assert StuckRounds(CHATS, QUERY, rounds, {1});
    UnstampedHeadsStarveTheRest(CHATS, QUERY, rounds, {1});
    assert 2 in AllPicks(CHATS, QUERY, rounds) ==> 2 in ToSet(AllPicks(CHATS, QUERY, rounds));
  }
}
