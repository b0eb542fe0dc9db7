/** Grouping resource items into the actions shown to an owner (v5_owner_actions.py). */
module OwnerActions {
  import opened Decisions
  import opened Lists
  import opened Options

  datatype AccessDecision = Undecided | Ignore | DoNotConnect | BusinessGroup | OwnerConfirmed

  datatype GovernanceStatus = BotNotInChat | UserAuthorizationRequired | OtherGovernance

  datatype ItemStatus = ExcludedByPolicy | FailedRun | PartialRun | OtherStatus

  /** An item, with the texts the code derives from its names: the business domain, the responsible role,
      and the advice, the reason and the notification target of the access recommendation. */
  datatype Item = Item(
    id: nat, decision: AccessDecision, governance: GovernanceStatus, issue: IdentifierIssue, status: ItemStatus,
    domain: string, role: string, advice: string, reason: string, target: string)

  datatype Code = InviteBot | CompleteAuthorization | CompleteIdentifiers | ReviewPolicy | ReviewRefresh

  function Priority(c: Code): nat {
    match c
    case InviteBot => 10
    case CompleteAuthorization => 20
    case CompleteIdentifiers => 30
    case ReviewPolicy => 40
    case ReviewRefresh => 50
  }

  /** _owner_action_code. */
  function CodeOf(i: Item): Option<Code> {
    if i.decision in {Ignore, DoNotConnect} then None
    else if i.governance == BotNotInChat then Some(InviteBot)
    else if i.governance == UserAuthorizationRequired || i.issue == RequiresUserAuthorization then
      Some(CompleteAuthorization)
    else if i.issue == MissingIdentifier then Some(CompleteIdentifiers)
    else if i.status == ExcludedByPolicy then Some(ReviewPolicy)
    else if i.status in {FailedRun, PartialRun} then Some(ReviewRefresh)
    else None
  }

  /** An entry of recommendation_counts, a dictionary in insertion order. */
  datatype Tally = Tally(advice: string, count: nat)

  datatype Group = Group(
    code: Code, count: nat, resources: seq<nat>, domains: seq<string>, roles: seq<string>,
    tallies: seq<Tally>, reasons: seq<string>, targets: seq<string>)

  function Template(c: Code): Group {
    Group(c, 0, [], [], [], [], [], [])
  }

  function AppendUnique(values: seq<string>, value: string): seq<string> {
    if value != "" then AppendNew(values, value) else values
  }

  /** counts[advice] = counts.get(advice, 0) + 1. */
  function Bumped(tallies: seq<Tally>, advice: string): seq<Tally> {
    if tallies == [] then [Tally(advice, 1)]
    else if tallies[0].advice == advice then [Tally(advice, tallies[0].count + 1)] + tallies[1..]
    else [tallies[0]] + Bumped(tallies[1..], advice)
  }

  /** The body of the loop, on the item's group. Only an item of the invite group has a recommendation. */
  function Absorbed(g: Group, i: Item): (after: Group)
    ensures after.code == g.code && after.count == g.count + 1
  {
    var shown := if |g.resources| < 10 then g.resources + [i.id] else g.resources;
    var counted := g.(count := g.count + 1, domains := AppendUnique(g.domains, i.domain),
                      roles := AppendUnique(g.roles, i.role), resources := shown);
    if g.code != InviteBot then counted
    else counted.(tallies := Bumped(g.tallies, i.advice), reasons := AppendUnique(g.reasons, i.reason),
                  targets := AppendUnique(g.targets, i.target))
  }

  /** The items of a code, in order. */
  function With(items: seq<Item>, c: Code): seq<Item> {
    if items == [] then []
    else
      var last := items[|items| - 1];
      With(items[..|items| - 1], c) + (if CodeOf(last) == Some(c) then [last] else [])
  }

  function GroupOf(items: seq<Item>, c: Code): (g: Group)
    ensures g.code == c && g.count == |items|
  {
    if items == [] then Template(c) else Absorbed(GroupOf(items[..|items| - 1], c), items[|items| - 1])
  }

  /** The group of a code, once some item has it. */
  function GroupFor(items: seq<Item>, c: Code): Option<Group> {
    if With(items, c) == [] then None else Some(GroupOf(With(items, c), c))
  }

  lemma OneMoreWith(items: seq<Item>, item: Item, c: Code)
    ensures With(items + [item], c) == With(items, c) + if CodeOf(item) == Some(c) then [item] else []
  {
    assert (items + [item])[..|items|] == items;
  }

  function OrTemplate(g: Option<Group>, c: Code): (group: Group)
    ensures g.Some? ==> group == g.value
    ensures g.None? ==> group.code == c
  {
    if g.Some? then g.value else Template(c)
  }

  lemma OneMoreItem(items: seq<Item>, item: Item, c: Code)
    ensures GroupFor(items + [item], c) ==
            if CodeOf(item) == Some(c) then Some(Absorbed(OrTemplate(GroupFor(items, c), c), item))
            else GroupFor(items, c)
  {
    var mine := With(items, c);
    OneMoreWith(items, item, c);
    assert (mine + [item])[..|mine|] == mine && mine + [] == mine;
    if CodeOf(item) == Some(c) {
      assert GroupOf(mine + [item], c) == Absorbed(GroupOf(mine, c), item);
      assert OrTemplate(GroupFor(items, c), c) == GroupOf(mine, c);
    }
  }

  // ---- which items call for which action ----

  /** What an item calls for, by its columns: nothing once its owner has ignored or refused it, and else the
      first that applies of inviting the bot, authorizing, completing identifiers, reviewing the policy and
      reviewing a failed refresh. */
  ghost predicate CallsFor(i: Item, c: Code) {
    && i.decision != Ignore && i.decision != DoNotConnect
    && var invite, authorize := i.governance == BotNotInChat,
                                i.governance == UserAuthorizationRequired || i.issue == RequiresUserAuthorization;
       var complete, policy := i.issue == MissingIdentifier, i.status == ExcludedByPolicy;
       match c
       case InviteBot => invite
       case CompleteAuthorization => authorize && !invite
       case CompleteIdentifiers => complete && !invite && !authorize
       case ReviewPolicy => policy && !invite && !authorize && !complete
       case ReviewRefresh =>
         (i.status == FailedRun || i.status == PartialRun) && !invite && !authorize && !complete && !policy
  }

  lemma CodeByColumns(i: Item, c: Code)
    ensures CodeOf(i) == Some(c) <==> CallsFor(i, c)
  {
  }

  lemma {:induction false} WithIs(items: seq<Item>, c: Code)
    ensures forall i :: i in With(items, c) <==> i in items && CallsFor(i, c)
  {
    if items != [] {
      var front, last := items[..|items| - 1], items[|items| - 1];
      WithIs(front, c);
      CodeByColumns(last, c);
      assert items == front + [last];
    }
  }

  /** There is a group for exactly the actions some item calls for. */
  lemma GroupIff(items: seq<Item>, c: Code)
    ensures GroupFor(items, c).Some? <==> exists i <- items :: CallsFor(i, c)
  {
    WithIs(items, c);
    if With(items, c) != [] { assert With(items, c)[0] in With(items, c); }
  }

  // ---- the dictionary of groups, in insertion order ----

  function Place(groups: seq<Group>, c: Code): (i: nat)
    ensures i <= |groups| && (i < |groups| ==> groups[i].code == c)
    ensures forall k :: 0 <= k < i ==> groups[k].code != c
  {
    if groups == [] || groups[0].code == c then 0 else 1 + Place(groups[1..], c)
  }

  function Entry(groups: seq<Group>, c: Code): (g: Option<Group>)
    ensures g.Some? ==> g.value.code == c
  {
    var i := Place(groups, c);
    if i < |groups| then Some(groups[i]) else None
  }

  /** No key twice. */
  predicate Keyed(groups: seq<Group>) {
    forall i, j :: 0 <= i < j < |groups| ==> groups[i].code != groups[j].code
  }

  lemma EntryAt(groups: seq<Group>, i: nat)
    requires Keyed(groups) && i < |groups|
    ensures Entry(groups, groups[i].code) == Some(groups[i])
  {
    var k := Place(groups, groups[i].code);
    assert !(k < i) && !(i < k);
  }

  /** groups.setdefault(code, template), and the group there replaced: a new key goes to the end. */
  function Put(groups: seq<Group>, g: Group): (after: seq<Group>) {
    var i := Place(groups, g.code);
    if i < |groups| then groups[i := g] else groups + [g]
  }

  lemma PutIs(groups: seq<Group>, g: Group)
    requires Keyed(groups)
    ensures Keyed(Put(groups, g))
    ensures forall c: Code :: Entry(Put(groups, g), c) == if c == g.code then Some(g) else Entry(groups, c)
  {
    var after, i := Put(groups, g), Place(groups, g.code);
    assert after[i] == g;
    EntryAt(after, i);
    forall c: Code | c != g.code ensures Entry(after, c) == Entry(groups, c) {
      var k := Place(groups, c);
      if k < |groups| {
        EntryAt(after, k);
      } else {
        assert forall m :: 0 <= m < |after| ==> after[m].code != c;
      }
    }
  }

  lemma NoGroups()
    ensures Keyed([]) && forall c: Code :: Entry([], c) == GroupFor([], c)
  {
  }

  /** The loop body keeps the dictionary the one of the items so far. */
  lemma OneMoreEntry(groups: seq<Group>, items: seq<Item>, item: Item, after: seq<Group>)
    requires Keyed(groups) && forall c: Code :: Entry(groups, c) == GroupFor(items, c)
    requires after == if CodeOf(item).Some? then
                        var c := CodeOf(item).value;
                        Put(groups, Absorbed(OrTemplate(Entry(groups, c), c), item))
                      else groups
    ensures Keyed(after) && forall c: Code :: Entry(after, c) == GroupFor(items + [item], c)
  {
    hide Put, Absorbed, OrTemplate, GroupFor, Keyed, Place, Template, CodeOf;
    forall c: Code { OneMoreItem(items, item, c); }
    if CodeOf(item).Some? {
      var c := CodeOf(item).value;
      PutIs(groups, Absorbed(OrTemplate(Entry(groups, c), c), item));
    }
  }

  method CollectGroups(items: seq<Item>) returns (groups: seq<Group>)
    ensures Keyed(groups) && forall c: Code :: Entry(groups, c) == GroupFor(items, c)
    ensures Total(groups) == Actionable(items)
  {
    hide Put, Absorbed, OrTemplate, GroupFor, Keyed, Place, Template, CodeOf;
    groups := [];
    NoGroups();
    for n := 0 to |items|
      invariant Keyed(groups) && forall c: Code :: Entry(groups, c) == GroupFor(items[..n], c)
      invariant Total(groups) == Actionable(items[..n])
    {
      var item := items[n];
      ghost var before := groups;
      assert items[..n + 1] == items[..n] + [item] && items[..n + 1][..n] == items[..n];
      if CodeOf(item).Some? {
        var c := CodeOf(item).value;
        var group := Absorbed(OrTemplate(Entry(groups, c), c), item);
        PutCountsOneMore(groups, group);
        groups := Put(groups, group);
      }
      OneMoreEntry(before, items[..n], item, groups);
    }
    assert items[..|items|] == items;
  }

  function Total(groups: seq<Group>): nat {
    if groups == [] then 0 else Total(groups[..|groups| - 1]) + groups[|groups| - 1].count
  }

  /** The items that call for an action. */
  function Actionable(items: seq<Item>): nat {
    if items == [] then 0
    else Actionable(items[..|items| - 1]) + (if CodeOf(items[|items| - 1]).Some? then 1 else 0)
  }

  lemma {:induction false} TotalUpdated(groups: seq<Group>, i: nat, g: Group)
    requires i < |groups|
    ensures Total(groups[i := g]) == Total(groups) - groups[i].count + g.count
  {
    var n := |groups| - 1;
    if i < n {
      TotalUpdated(groups[..n], i, g);
      assert groups[i := g][..n] == groups[..n][i := g];
    } else {
      assert groups[i := g][..n] == groups[..n];
    }
  }

  lemma PutCountsOneMore(groups: seq<Group>, g: Group)
    requires g.count == OrTemplate(Entry(groups, g.code), g.code).count + 1
    ensures Total(Put(groups, g)) == Total(groups) + 1
  {
    var i := Place(groups, g.code);
    if i < |groups| {
      TotalUpdated(groups, i, g);
    } else {
      assert (groups + [g])[..|groups|] == groups;
    }
  }

  // ---- sorted(groups.values(), key=priority) ----

  /** Into a sorted list, behind what has the same priority: the sort is stable. */
  function Inserted(sorted: seq<Group>, g: Group): seq<Group> {
    if sorted == [] || Priority(sorted[|sorted| - 1].code) <= Priority(g.code) then sorted + [g]
    else Inserted(sorted[..|sorted| - 1], g) + [sorted[|sorted| - 1]]
  }

  function Sorted(groups: seq<Group>): seq<Group> {
    if groups == [] then [] else Inserted(Sorted(groups[..|groups| - 1]), groups[|groups| - 1])
  }

  predicate InOrder(groups: seq<Group>) {
    forall i, j :: 0 <= i < j < |groups| ==> Priority(groups[i].code) <= Priority(groups[j].code)
  }

  /** The actions in the order they are shown. */
  const ORDER := [InviteBot, CompleteAuthorization, CompleteIdentifiers, ReviewPolicy, ReviewRefresh]

  /** Groups by increasing priority follow that order. */
  lemma ShownInOrder(groups: seq<Group>, i: nat, j: nat, m: nat, n: nat)
    requires Increasing(groups) && i < j < |groups| && m < |ORDER| && n < |ORDER|
    requires groups[i].code == ORDER[m] && groups[j].code == ORDER[n]
    ensures m < n
  {
  }

  predicate Increasing(groups: seq<Group>) {
    forall i, j :: 0 <= i < j < |groups| ==> Priority(groups[i].code) < Priority(groups[j].code)
  }

  lemma {:induction false} InsertedHas(sorted: seq<Group>, g: Group)
    ensures multiset(Inserted(sorted, g)) == multiset(sorted) + multiset{g}
  {
    if sorted != [] && Priority(sorted[|sorted| - 1].code) > Priority(g.code) {
      var front, last := sorted[..|sorted| - 1], sorted[|sorted| - 1];
      InsertedHas(front, g);
      assert sorted == front + [last];
    }
  }

  lemma {:induction false} InsertedCounts(sorted: seq<Group>, g: Group)
    ensures Total(Inserted(sorted, g)) == Total(sorted) + g.count
  {
    if sorted == [] || Priority(sorted[|sorted| - 1].code) <= Priority(g.code) {
      assert (sorted + [g])[..|sorted|] == sorted;
    } else {
      var front, last := sorted[..|sorted| - 1], sorted[|sorted| - 1];
      InsertedCounts(front, g);
      assert (Inserted(front, g) + [last])[..|Inserted(front, g)|] == Inserted(front, g);
    }
  }

  lemma {:induction false} InsertedIsSorted(sorted: seq<Group>, g: Group)
    requires InOrder(sorted)
    ensures InOrder(Inserted(sorted, g))
  {
    if sorted != [] && Priority(sorted[|sorted| - 1].code) > Priority(g.code) {
      var front, last := sorted[..|sorted| - 1], sorted[|sorted| - 1];
      InsertedIsSorted(front, g);
      InsertedHas(front, g);
      var inner := Inserted(front, g);
      forall i | 0 <= i < |inner| ensures Priority(inner[i].code) <= Priority(last.code) {
        assert inner[i] in multiset(inner);
        assert inner[i] in front || inner[i] == g;
      }
    }
  }

  /** The sort gives the same groups in order. */
  lemma {:induction false} SortedIsSorted(groups: seq<Group>)
    ensures InOrder(Sorted(groups)) && multiset(Sorted(groups)) == multiset(groups)
  {
    hide InOrder, Inserted;
    if groups == [] {
      NothingIsInOrder();
    } else {
      var front, last := groups[..|groups| - 1], groups[|groups| - 1];
      SortedIsSorted(front);
      InsertedIsSorted(Sorted(front), last);
      InsertedHas(Sorted(front), last);
      assert groups == front + [last];
    }
  }

  lemma NothingIsInOrder()
    ensures InOrder([])
  {
  }

  lemma {:induction false} SortedCounts(groups: seq<Group>)
    ensures Total(Sorted(groups)) == Total(groups)
  {
    if groups != [] {
      var front := groups[..|groups| - 1];
      SortedCounts(front);
      InsertedCounts(Sorted(front), groups[|groups| - 1]);
    }
  }

  lemma PriorityIsKey(a: Code, b: Code)
    requires Priority(a) == Priority(b)
    ensures a == b
  {
  }

  /** With the same groups in two orders, a key met once in the one is met once in the other. */
  lemma OrderKeepsKeys(a: seq<Group>, b: seq<Group>)
    requires Keyed(a) && multiset(a) == multiset(b)
    ensures Keyed(b)
  {
    forall i, j | 0 <= i < j < |b| ensures b[i].code != b[j].code {
      if b[i].code == b[j].code {
        assert b[i] in multiset(a) && b[j] in multiset(a);
        var k, m :| 0 <= k < |a| && 0 <= m < |a| && a[k] == b[i] && a[m] == b[j];
        assert k == m;
        TwiceInTwo(b, i, j);
        OnceInKeyed(a, k);
      }
    }
  }

  lemma TwiceInTwo(b: seq<Group>, i: nat, j: nat)
    requires i < j < |b| && b[i] == b[j]
    ensures multiset(b)[b[i]] >= 2
  {
    assert b == b[..i] + [b[i]] + b[i + 1..j] + [b[j]] + b[j + 1..];
  }

  lemma OnceInKeyed(a: seq<Group>, k: nat)
    requires Keyed(a) && k < |a|
    ensures multiset(a)[a[k]] == 1
  {
    assert a == a[..k] + [a[k]] + a[k + 1..];
    assert a[k] !in a[..k] && a[k] !in a[k + 1..];
  }

  /** owner_actions_from_resource_items: the groups of the dictionary, each once, none else, by strictly
      increasing priority; and their counts add up to the items that call for an action. */
  method OwnerActionsFrom(items: seq<Item>) returns (actions: seq<Group>)
    ensures forall g :: g in actions <==> GroupFor(items, g.code) == Some(g)
    ensures Increasing(actions)
    ensures Total(actions) == Actionable(items)
  {
    var groups := CollectGroups(items);
    actions := Sorted(groups);
    SortedIsSorted(groups);
    SortedCounts(groups);
    OrderKeepsKeys(groups, actions);
    SortedKeysIncrease(actions);
    forall g ensures g in actions <==> GroupFor(items, g.code) == Some(g) {
      SameMembers(actions, groups, g);
      if g in groups {
        var i :| 0 <= i < |groups| && groups[i] == g;
        EntryAt(groups, i);
      }
    }
  }

  lemma SameMembers<T>(a: seq<T>, b: seq<T>, e: T)
    requires multiset(a) == multiset(b)
    ensures e in a <==> e in b
  {
    assert e in a <==> e in multiset(a);
    assert e in b <==> e in multiset(b);
  }

  lemma SortedKeysIncrease(groups: seq<Group>)
    requires InOrder(groups) && Keyed(groups)
    ensures Increasing(groups)
  {
    forall i, j | 0 <= i < j < |groups| ensures Priority(groups[i].code) < Priority(groups[j].code) {
      if Priority(groups[i].code) == Priority(groups[j].code) { PriorityIsKey(groups[i].code, groups[j].code); }
    }
  }

  lemma SameLast(a: seq<Group>, b: seq<Group>)
    requires Increasing(a) && Increasing(b) && multiset(a) == multiset(b) && a != [] && b != []
    ensures a[|a| - 1] == b[|b| - 1]
  {
    assert a[|a| - 1] in multiset(b) && b[|b| - 1] in multiset(a);
    var i :| 0 <= i < |b| && b[i] == a[|a| - 1];
    var j :| 0 <= j < |a| && a[j] == b[|b| - 1];
    assert Priority(b[i].code) <= Priority(b[|b| - 1].code) && Priority(a[j].code) <= Priority(a[|a| - 1].code);
    assert i == |b| - 1;
  }

  lemma WithoutLast<T>(s: seq<T>)
    requires s != []
    ensures multiset(s[..|s| - 1]) == multiset(s) - multiset{s[|s| - 1]}
  {
    assert s == s[..|s| - 1] + [s[|s| - 1]];
  }

  lemma SameRest(a: seq<Group>, b: seq<Group>)
    requires a != [] && b != [] && a[|a| - 1] == b[|b| - 1] && multiset(a) == multiset(b)
    ensures multiset(a[..|a| - 1]) == multiset(b[..|b| - 1])
  {
    WithoutLast(a);
    WithoutLast(b);
  }

  lemma FrontIncreases(a: seq<Group>)
    requires Increasing(a) && a != []
    ensures Increasing(a[..|a| - 1])
  {
  }

  lemma EmptyIffEmpty(a: seq<Group>, b: seq<Group>)
    requires multiset(a) == multiset(b)
    ensures |a| == |b|
  {
    assert |multiset(a)| == |a| && |multiset(b)| == |b|;
  }

  /** However groups with different keys are sorted by priority, the result is the same. */
  lemma {:induction false} OrderIsUnique(a: seq<Group>, b: seq<Group>)
    requires Increasing(a) && Increasing(b) && multiset(a) == multiset(b)
    ensures a == b
  {
    hide Increasing;
    EmptyIffEmpty(a, b);
    if a != [] {
      SameLast(a, b);
      SameRest(a, b);
      FrontIncreases(a);
      FrontIncreases(b);
      OrderIsUnique(a[..|a| - 1], b[..|b| - 1]);
      assert a == a[..|a| - 1] + [a[|a| - 1]];
    }
  }

  // ---- what a group says about its items ----

  function Ids(items: seq<Item>): seq<nat> {
    seq(|items|, i requires 0 <= i < |items| => items[i].id)
  }

  function Domains(items: seq<Item>): seq<string> {
    seq(|items|, i requires 0 <= i < |items| => items[i].domain)
  }

  function Roles(items: seq<Item>): seq<string> {
    seq(|items|, i requires 0 <= i < |items| => items[i].role)
  }

  function Reasons(items: seq<Item>): seq<string> {
    seq(|items|, i requires 0 <= i < |items| => items[i].reason)
  }

  function Targets(items: seq<Item>): seq<string> {
    seq(|items|, i requires 0 <= i < |items| => items[i].target)
  }

  function Sum(tallies: seq<Tally>): nat {
    if tallies == [] then 0 else tallies[0].count + Sum(tallies[1..])
  }

  function CountOf(tallies: seq<Tally>, advice: string): nat {
    if tallies == [] then 0
    else (if tallies[0].advice == advice then tallies[0].count else 0) + CountOf(tallies[1..], advice)
  }

  function Labelled(items: seq<Item>, advice: string): nat {
    if items == [] then 0
    else Labelled(items[..|items| - 1], advice) + (if items[|items| - 1].advice == advice then 1 else 0)
  }

  lemma {:induction false} BumpedAddsOne(tallies: seq<Tally>, advice: string, other: string)
    ensures Sum(Bumped(tallies, advice)) == Sum(tallies) + 1
    ensures CountOf(Bumped(tallies, advice), other) == CountOf(tallies, other) + if other == advice then 1 else 0
  {
    if tallies != [] {
      if tallies[0].advice == advice {
        assert ([Tally(advice, tallies[0].count + 1)] + tallies[1..])[1..] == tallies[1..];
      } else {
        BumpedAddsOne(tallies[1..], advice, other);
        assert ([tallies[0]] + Bumped(tallies[1..], advice))[1..] == Bumped(tallies[1..], advice);
      }
    }
  }

  lemma {:induction false} NonEmptyAppended(values: seq<string>, value: string)
    ensures Distinct(NonEmpty(values + [value])) == AppendUnique(Distinct(NonEmpty(values)), value)
  {
    assert (values + [value])[..|values|] == values;
    assert NonEmpty(values) + [] == NonEmpty(values);
    assert (NonEmpty(values) + [value])[..|NonEmpty(values)|] == NonEmpty(values);
  }

  /** A group counts its items and shows the first ten of them, in order. */
  lemma {:induction false} GroupShowsTheFirstTen(items: seq<Item>, c: Code)
    ensures GroupOf(items, c).count == |items|
    ensures GroupOf(items, c).resources == Ids(if |items| < 10 then items else items[..10])
  {
    if items != [] {
      var front := items[..|items| - 1];
      GroupShowsTheFirstTen(front, c);
      if |front| >= 10 { assert front[..10] == items[..10]; }
    }
  }

  /** It lists the business domains of its items once each, in the order they come up. */
  lemma {:induction false} GroupListsDomains(items: seq<Item>, c: Code)
    ensures GroupOf(items, c).domains == Distinct(NonEmpty(Domains(items)))
  {
    if items != [] {
      var front, last := items[..|items| - 1], items[|items| - 1];
      GroupListsDomains(front, c);
      assert Domains(items) == Domains(front) + [last.domain];
      NonEmptyAppended(Domains(front), last.domain);
    }
  }

  /** Likewise the responsible roles; and, for the invite group alone, the reasons and targets of the
      recommendations. */
  lemma {:induction false} GroupListsTexts(items: seq<Item>, c: Code)
    ensures var g := GroupOf(items, c);
            && g.roles == Distinct(NonEmpty(Roles(items)))
            && g.reasons == (if c == InviteBot then Distinct(NonEmpty(Reasons(items))) else [])
            && g.targets == (if c == InviteBot then Distinct(NonEmpty(Targets(items))) else [])
  {
    hide NonEmpty, Distinct, AppendUnique;
    if items == [] {
      NothingListed();
    } else {
      var front, last := items[..|items| - 1], items[|items| - 1];
      GroupListsTexts(front, c);
      assert Roles(items) == Roles(front) + [last.role];
      assert Reasons(items) == Reasons(front) + [last.reason];
      assert Targets(items) == Targets(front) + [last.target];
      NonEmptyAppended(Roles(front), last.role);
      NonEmptyAppended(Reasons(front), last.reason);
      NonEmptyAppended(Targets(front), last.target);
    }
  }

  lemma NothingListed()
    ensures Distinct(NonEmpty([])) == []
  {
  }

  /** The recommendation counts of the invite group are those of its items' advice, and sum to its count;
      no other group has any. */
  lemma {:induction false} TalliesSumToTheCount(items: seq<Item>, c: Code, advice: string)
    ensures Sum(GroupOf(items, c).tallies) == if c == InviteBot then GroupOf(items, c).count else 0
    ensures CountOf(GroupOf(items, c).tallies, advice) == if c == InviteBot then Labelled(items, advice) else 0
  {
    if items != [] {
      var front, last := items[..|items| - 1], items[|items| - 1];
      TalliesSumToTheCount(front, c, advice);
      BumpedAddsOne(GroupOf(front, c).tallies, last.advice, advice);
    }
  }
}
