/** The bootstrap on a session that does not autoflush: a select sees flushed rows only, and the unique
    indexes speak up at the flush. Rows that no later select of a run reads before a flush are put into
    their table at once. */
module BootstrapSession {
  import opened Bootstrap
  import opened Lists
  import opened Options

  datatype Counters = Counters(
    botUsers: int, settings: int, roles: int, permissions: int, users: int, links: int, resources: int, grants: int)

  const ZERO := Counters(0, 0, 0, 0, 0, 0, 0, 0)

  function Add(a: Counters, b: Counters): Counters {
    Counters(a.botUsers + b.botUsers, a.settings + b.settings, a.roles + b.roles, a.permissions + b.permissions,
             a.users + b.users, a.links + b.links, a.resources + b.resources, a.grants + b.grants)
  }

  /** How many rows each table has gained. */
  function Growth(before: Tables, after: Tables): Counters {
    Counters(
      |after.botUsers| - |before.botUsers|, |after.settings| - |before.settings|, |after.roles| - |before.roles|,
      |after.permissions| - |before.permissions|, |after.users| - |before.users|, |after.links| - |before.links|,
      |after.resources| - |before.resources|, |after.grants| - |before.grants|)
  }

  lemma GrowthAdds(a: Tables, b: Tables, c: Tables)
    ensures Add(Growth(a, b), Growth(b, c)) == Growth(a, c) && Growth(a, a) == ZERO
  {
  }

  /** uq_bot_user_company_open_id. */
  predicate BotsAreUnique(bots: seq<BotUser>) {
    forall i, j :: 0 <= i < j < |bots| && bots[i].company == bots[j].company ==> bots[i].openId != bots[j].openId
  }

  lemma BotsStayUnique(x: Context, bots: seq<BotUser>, c: nat)
    requires BotsAreUnique(bots)
    ensures BotsAreUnique(BotUsersAfter(x, bots, c))
  {
    if HasOwner(x) && !OwnerStored(x, bots, c) {
      forall i | 0 <= i < |bots| ensures !IsOwner(x, bots[i], c) { assert bots[i] in bots; }
    }
  }

  // ---- what a turn counts, table by table ----

  function OwnerCount(x: Context, bots: seq<BotUser>, c: nat): int {
    if HasOwner(x) && !OwnerStored(x, bots, c) then 1 else 0
  }

  function SettingCount(settings: map<nat, CompanySetting>, c: nat): int {
    if c in settings then 0 else 1
  }

  function RowCount(specs: seq<Spec>, rows: map<Key, Row>, c: nat, fillScope: bool): int {
    if specs == [] then 0
    else
      var front := specs[..|specs| - 1];
      RowCount(front, rows, c, fillScope) +
      (if (c, specs[|specs| - 1].name) in RowsAfter(front, rows, c, fillScope) then 0 else 1)
  }

  function UserCount(bots: seq<BotUser>, users: set<string>, c: nat): int {
    if bots == [] then 0
    else
      var last := bots[|bots| - 1];
      UserCount(bots[..|bots| - 1], users, c) + (if last.company == c && last.openId !in users then 1 else 0)
  }

  function LinkCount(x: Context, bots: seq<BotUser>, roles: map<Key, Row>, links: set<Link>, c: nat): int {
    if bots == [] then 0
    else
      var last := bots[|bots| - 1];
      LinkCount(x, bots[..|bots| - 1], roles, links, c) +
      (if last.company == c && LinkOf(x, roles, last) !in links then 1 else 0)
  }

  function GrantCount(grants: set<Resource>, resources: set<Resource>, c: nat): int {
    |Owned(resources, c) - grants|
  }

  function TurnCounts(x: Context, t: Tables, c: nat): Counters {
    var bots, roles := BotUsersAfter(x, t.botUsers, c), RowsAfter(x.roles, t.roles, c, true);
    Counters(
      OwnerCount(x, t.botUsers, c), SettingCount(t.settings, c), RowCount(x.roles, t.roles, c, true),
      RowCount(x.permissions, t.permissions, c, false), UserCount(bots, t.users, c),
      LinkCount(x, bots, roles, t.links, c), |NewResources(x, t.resources, c)|,
      GrantCount(t.grants, t.resources + Elements(NewResources(x, t.resources, c)), c))
  }

  lemma {:induction false} RowCountIsGrowth(specs: seq<Spec>, rows: map<Key, Row>, c: nat, fillScope: bool)
    ensures RowCount(specs, rows, c, fillScope) == |RowsAfter(specs, rows, c, fillScope)| - |rows|
  {
    if specs != [] { RowCountIsGrowth(specs[..|specs| - 1], rows, c, fillScope); }
  }

  /** An open id, and so a link, comes up once. */
  lemma LastIsNew(x: Context, bots: seq<BotUser>, roles: map<Key, Row>, c: nat)
    requires BotsAreUnique(bots) && bots != [] && bots[|bots| - 1].company == c
    ensures var front, last := bots[..|bots| - 1], bots[|bots| - 1];
            && BotsAreUnique(front) && last.openId !in OpenIds(front, c)
            && LinkOf(x, roles, last) !in LinksOf(x, front, roles, c)
  {
    LinksAre(x, bots[..|bots| - 1], roles, c);
  }

  lemma OneMoreElement<T>(have: set<T>, some: set<T>, next: T)
    requires next !in some
    ensures |have + (some + {next})| == |have + some| + if next in have then 0 else 1
  {
    assert have + (some + {next}) == have + some + {next};
    if next in have { assert have + some + {next} == have + some; }
  }

  /** What the next bot user adds to the ids and the links, and to their counts. */
  lemma OneMoreBot(
    x: Context, bots: seq<BotUser>, roles: map<Key, Row>, c: nat, users: set<string>, links: set<Link>, i: nat)
    requires i < |bots| && BotsAreUnique(bots)
    ensures var front, longer, next := bots[..i], bots[..i + 1], bots[i];
            if next.company == c then
              && next.openId !in OpenIds(front, c) && LinkOf(x, roles, next) !in LinksOf(x, front, roles, c)
              && users + OpenIds(longer, c) == users + OpenIds(front, c) + {next.openId}
              && OpenIds(front, c) <= OpenIds(longer, c) && next.openId in OpenIds(longer, c)
              && links + LinksOf(x, longer, roles, c) == links + LinksOf(x, front, roles, c) + {LinkOf(x, roles, next)}
              && UserCount(longer, users, c) == UserCount(front, users, c) + (if next.openId in users then 0 else 1)
              && LinkCount(x, longer, roles, links, c) ==
                 LinkCount(x, front, roles, links, c) + (if LinkOf(x, roles, next) in links then 0 else 1)
            else
              && OpenIds(longer, c) == OpenIds(front, c) && LinksOf(x, longer, roles, c) == LinksOf(x, front, roles, c)
              && UserCount(longer, users, c) == UserCount(front, users, c)
              && LinkCount(x, longer, roles, links, c) == LinkCount(x, front, roles, links, c)
  {
    var longer := bots[..i + 1];
    assert longer[..i] == bots[..i];
    if bots[i].company == c { LastIsNew(x, longer, roles, c); }
  }

  lemma {:induction false} UserCountIsGrowth(x: Context, bots: seq<BotUser>, users: set<string>, c: nat)
    requires BotsAreUnique(bots)
    ensures UserCount(bots, users, c) == |users + OpenIds(bots, c)| - |users|
  {
    if bots == [] {
      assert users + {} == users;
    } else {
      var front, last := bots[..|bots| - 1], bots[|bots| - 1];
      UserCountIsGrowth(x, front, users, c);
      if last.company == c {
        LastIsNew(x, bots, map[], c);
        OneMoreElement(users, OpenIds(front, c), last.openId);
      } else {
        assert OpenIds(bots, c) == OpenIds(front, c);
      }
    }
  }

  lemma LinksGrow(x: Context, bots: seq<BotUser>, roles: map<Key, Row>, links: set<Link>, c: nat)
    requires BotsAreUnique(bots) && bots != []
    ensures var last := bots[|bots| - 1];
            |links + LinksOf(x, bots, roles, c)| ==
            |links + LinksOf(x, bots[..|bots| - 1], roles, c)| +
            if last.company == c && LinkOf(x, roles, last) !in links then 1 else 0
  {
    var front, last := bots[..|bots| - 1], bots[|bots| - 1];
    if last.company == c {
      LastIsNew(x, bots, roles, c);
      OneMoreElement(links, LinksOf(x, front, roles, c), LinkOf(x, roles, last));
    } else {
      assert LinksOf(x, bots, roles, c) == LinksOf(x, front, roles, c);
    }
  }

  lemma FrontIsUnique(bots: seq<BotUser>)
    requires BotsAreUnique(bots) && bots != []
    ensures BotsAreUnique(bots[..|bots| - 1])
  {
  }

  lemma {:induction false} LinkCountIsGrowth(
    x: Context, bots: seq<BotUser>, roles: map<Key, Row>, links: set<Link>, c: nat)
    requires BotsAreUnique(bots)
    ensures LinkCount(x, bots, roles, links, c) == |links + LinksOf(x, bots, roles, c)| - |links|
  {
    if bots == [] {
      assert links + {} == links;
    } else {
      FrontIsUnique(bots);
      LinkCountIsGrowth(x, bots[..|bots| - 1], roles, links, c);
      LinksGrow(x, bots, roles, links, c);
    }
  }

  lemma {:induction false} ElementsSize<T>(s: seq<T>)
    requires NoRepeats(s)
    ensures |Elements(s)| == |s|
  {
    if s != [] {
      var front, last := s[..|s| - 1], s[|s| - 1];
      ElementsSize(front);
      assert Elements(s) == Elements(front) + {last};
    }
  }

  lemma UnionSize<T>(a: set<T>, b: set<T>)
    ensures |a + b| == |a| + |b - a|
  {
    assert a + b == a + (b - a);
  }

  lemma ResourceCountIsGrowth(x: Context, resources: set<Resource>, c: nat)
    requires !Collides(x, resources, c)
    ensures |NewResources(x, resources, c)| == |resources + Elements(NewResources(x, resources, c))| - |resources|
  {
    var added := NewResources(x, resources, c);
    NewResourcesAre(x, resources, c);
    ElementsSize(added);
    UnionSize(resources, Elements(added));
    assert Elements(added) - resources == Elements(added);
  }

  lemma OwnerCountIsGrowth(x: Context, t: Tables, c: nat)
    ensures TurnCounts(x, t, c).botUsers == Growth(t, AfterCompany(x, t, c)).botUsers
  {
  }

  lemma UserCountsAreGrowth(x: Context, t: Tables, c: nat)
    requires BotsAreUnique(t.botUsers)
    ensures TurnCounts(x, t, c).users == Growth(t, AfterCompany(x, t, c)).users
  {
    BotsStayUnique(x, t.botUsers, c);
    UserCountIsGrowth(x, BotUsersAfter(x, t.botUsers, c), t.users, c);
  }

  lemma LinkCountsAreGrowth(x: Context, t: Tables, c: nat)
    requires BotsAreUnique(t.botUsers)
    ensures TurnCounts(x, t, c).links == Growth(t, AfterCompany(x, t, c)).links
  {
    BotsStayUnique(x, t.botUsers, c);
    LinkCountIsGrowth(x, BotUsersAfter(x, t.botUsers, c), RowsAfter(x.roles, t.roles, c, true), t.links, c);
  }

  lemma GrantCountIsGrowth(grants: set<Resource>, resources: set<Resource>, c: nat)
    ensures GrantCount(grants, resources, c) == |grants + Owned(resources, c)| - |grants|
  {
    UnionSize(grants, Owned(resources, c));
  }

  lemma SettingAndRowCountsAreGrowth(x: Context, t: Tables, c: nat)
    ensures var n, g := TurnCounts(x, t, c), Growth(t, AfterCompany(x, t, c));
            n.settings == g.settings && n.roles == g.roles && n.permissions == g.permissions
  {
    RowCountIsGrowth(x.roles, t.roles, c, true);
    RowCountIsGrowth(x.permissions, t.permissions, c, false);
  }

  lemma ResourceAndGrantCountsAreGrowth(x: Context, t: Tables, c: nat)
    requires !Collides(x, t.resources, c)
    ensures var n, g := TurnCounts(x, t, c), Growth(t, AfterCompany(x, t, c));
            n.resources == g.resources && n.grants == g.grants
  {
    ResourceCountIsGrowth(x, t.resources, c);
    GrantCountIsGrowth(t.grants, t.resources + Elements(NewResources(x, t.resources, c)), c);
  }

  lemma GrantIsTaken(todo: set<Resource>, grants: set<Resource>, resource: Resource)
    requires resource in todo
    ensures grants + {resource} + (todo - {resource}) == grants + todo
    ensures resource in grants ==> grants + (todo - {resource}) == grants + todo
    ensures resource in grants ==> |todo - {resource} - grants| == |todo - grants|
    ensures resource !in grants ==> |todo - {resource} - (grants + {resource})| == |todo - grants| - 1
  {
    if resource in grants {
      assert todo - {resource} - grants == todo - grants;
    } else {
      assert todo - grants == (todo - {resource} - (grants + {resource})) + {resource};
    }
  }

  /** What a turn counts is what the tables gain. */
  lemma TurnCountsAreGrowth(x: Context, t: Tables, c: nat)
    requires BotsAreUnique(t.botUsers) && !Collides(x, t.resources, c)
    ensures TurnCounts(x, t, c) == Growth(t, AfterCompany(x, t, c))
  {
    SettingAndRowCountsAreGrowth(x, t, c);
    OwnerCountIsGrowth(x, t, c);
    UserCountsAreGrowth(x, t, c);
    LinkCountsAreGrowth(x, t, c);
    ResourceAndGrantCountsAreGrowth(x, t, c);
  }

  // ---- the loops that only collect ----

  /** The loop of _ensure_default_roles and of _ensure_default_permissions. */
  method EnsureRows(specs: seq<Spec>, rows: map<Key, Row>, c: nat, fillScope: bool)
    returns (after: map<Key, Row>, created: int)
    ensures after == RowsAfter(specs, rows, c, fillScope)
    ensures created == RowCount(specs, rows, c, fillScope)
  {
    after, created := rows, 0;
    for i := 0 to |specs|
      invariant after == RowsAfter(specs[..i], rows, c, fillScope)
      invariant created == RowCount(specs[..i], rows, c, fillScope)
    {
      var spec := specs[i];
      assert specs[..i + 1][..i] == specs[..i];
      if (c, spec.name) in after {
        after := after[(c, spec.name) := Filled(spec.row, after[(c, spec.name)], fillScope)];
      } else {
        after := after[(c, spec.name) := spec.row];
        created := created + 1;
      }
    }
    assert specs[..|specs|] == specs;
  }

  /** The loop of _migrate_feishu_resources. */
  method CollectLegacy(resources: set<Resource>, legacy: seq<LegacyRow>, c: nat) returns (added: seq<Resource>)
    ensures added == NewLegacy(resources, legacy, c)
  {
    added := [];
    for i := 0 to |legacy|
      invariant added == NewLegacy(resources, legacy[..i], c)
    {
      assert legacy[..i + 1][..i] == legacy[..i];
      if legacy[i].company == c && LegacyResource(legacy[i]) !in resources {
        added := added + [LegacyResource(legacy[i])];
      }
    }
    assert legacy[..|legacy|] == legacy;
  }

  /** The loop of _register_feishu_apps_as_bot_resources. */
  method CollectBots(resources: set<Resource>, apps: seq<App>, c: nat) returns (added: seq<Resource>)
    ensures added == NewBots(resources, apps, c)
  {
    added := [];
    for i := 0 to |apps|
      invariant added == NewBots(resources, apps[..i], c)
    {
      assert apps[..i + 1][..i] == apps[..i];
      if apps[i].company == c && !HasBot(resources, c, apps[i].appId) { added := added + [NewBot(apps[i])]; }
    }
    assert apps[..|apps|] == apps;
  }

  // ---- the turns ----

  /** All of a company's turn but its resources and grants. */
  ghost predicate UpToLinks(x: Context, t: Tables, c: nat, after: Tables) {
    && after.botUsers == BotUsersAfter(x, t.botUsers, c)
    && after.settings == SettingAfter(x, t.settings, c)
    && after.roles == RowsAfter(x.roles, t.roles, c, true)
    && after.permissions == RowsAfter(x.permissions, t.permissions, c, false)
    && after.users == t.users + OpenIds(after.botUsers, c)
    && after.links == t.links + LinksOf(x, after.botUsers, after.roles, c)
  }

  lemma TurnIsDone(x: Context, t: Tables, c: nat, middle: Tables, after: Tables)
    requires UpToLinks(x, t, c, middle) && after == middle.(resources := after.resources, grants := after.grants)
    requires after.resources == t.resources + Elements(NewResources(x, t.resources, c))
    requires after.grants == t.grants + Owned(after.resources, c)
    ensures after == AfterCompany(x, t, c)
  {
  }

  lemma FirstTurn(x: Context, t: Tables, companies: seq<nat>)
    requires companies != []
    ensures AfterAll(x, t, companies) == AfterAll(x, AfterCompany(x, t, companies[0]), companies[1..])
    ensures Fails(x, t, companies) <==>
            Collides(x, t.resources, companies[0]) || Fails(x, AfterCompany(x, t, companies[0]), companies[1..])
  {
  }

  class Session {
    var companies: seq<nat>
    var botUsers: seq<BotUser>
    var addedBots: seq<BotUser>
    var settings: map<nat, CompanySetting>
    var roles: map<Key, Row>
    var permissions: map<Key, Row>
    var users: set<string>
    var links: set<Link>
    var addedLinks: seq<Link>
    var resources: set<Resource>
    var addedResources: seq<Resource>
    var grants: set<Resource>

    function Flushed(): Tables
      reads this
    {
      Tables(botUsers, settings, roles, permissions, users, links, resources, grants)
    }

    ghost predicate NothingAdded()
      reads this
    {
      addedBots == [] && addedLinks == [] && addedResources == []
    }

    ghost function AllLinks(): set<Link>
      reads this
    {
      links + Elements(addedLinks)
    }

    /** What is added can be flushed: only links are, and they break no index. */
    ghost predicate LinksFit()
      reads this
    {
      && addedBots == [] && addedResources == []
      && NoRepeats(addedLinks) && forall l <- addedLinks :: l !in links
    }

    constructor (stored: seq<nat>, t: Tables)
      ensures companies == stored && Flushed() == t && NothingAdded()
    {
      companies := stored;
      botUsers, addedBots, settings, roles, permissions := t.botUsers, [], t.settings, t.roles, t.permissions;
      users, links, addedLinks, resources, addedResources, grants := t.users, t.links, [], t.resources, [], t.grants;
    }

    /** The rollback. */
    method Restore(saved: Tables)
      modifies this`botUsers, this`addedBots, this`settings, this`roles, this`permissions, this`users, this`links,
               this`addedLinks, this`resources, this`addedResources, this`grants
      ensures Flushed() == saved && NothingAdded()
    {
      botUsers, addedBots := saved.botUsers, [];
      settings, roles, permissions := saved.settings, saved.roles, saved.permissions;
      users, links, addedLinks := saved.users, saved.links, [];
      resources, addedResources, grants := saved.resources, [], saved.grants;
    }

    /** It fails when it breaks uq_user_company_role or an identity index. */
    method Flush() returns (ok: bool)
      modifies this`botUsers, this`addedBots, this`links, this`addedLinks, this`resources, this`addedResources
      ensures ok <==>
              && NoRepeats(old(addedLinks)) && (forall l <- old(addedLinks) :: l !in old(links))
              && NoRepeats(old(addedResources)) && (forall r <- old(addedResources) :: r !in old(resources))
      ensures ok ==> NothingAdded() && botUsers == old(botUsers) + old(addedBots)
      ensures ok ==> links == old(AllLinks())
      ensures ok ==> resources == old(resources) + Elements(old(addedResources))
    {
      ok := && NoRepeats(addedLinks) && (forall l <- addedLinks :: l !in links)
            && NoRepeats(addedResources) && (forall r <- addedResources :: r !in resources);
      if ok {
        botUsers, addedBots := botUsers + addedBots, [];
        links, addedLinks := links + Elements(addedLinks), [];
        resources, addedResources := resources + Elements(addedResources), [];
      }
    }

    /** A flush of links that fit goes through. */
    method FlushLinks()
      requires addedResources == [] && NoRepeats(addedLinks) && forall l <- addedLinks :: l !in links
      modifies this`botUsers, this`addedBots, this`links, this`addedLinks, this`resources, this`addedResources
      ensures NothingAdded() && botUsers == old(botUsers) + old(addedBots)
      ensures links == old(AllLinks()) && resources == old(resources)
    {
      var flushed := Flush();
      assert flushed && Elements<Resource>([]) == {};
    }

    /** _ensure_default_owner_agent. */
    method EnsureOwner(x: Context, c: nat) returns (created: int)
      requires addedBots == []
      modifies this`botUsers, this`addedBots
      ensures botUsers + addedBots == BotUsersAfter(x, old(botUsers), c)
      ensures created == OwnerCount(x, old(botUsers), c)
    {
      if !HasOwner(x) { return 0; }
      if OwnerStored(x, botUsers, c) {
        botUsers := PromotedIn(x, botUsers, c);
        return 0;
      }
      addedBots := [NewOwner(x, c)];
      return 1;
    }

    /** _ensure_company_setting. */
    method EnsureSetting(x: Context, c: nat) returns (created: int)
      modifies this`settings
      ensures settings == SettingAfter(x, old(settings), c)
      ensures created == SettingCount(old(settings), c)
    {
      if c !in settings {
        settings := settings[c := CompanySetting(true, Some(x.codes(c)), map[])];
        return 1;
      }
      if !settings[c].isV5 {
        settings := settings[c := settings[c].(isV5 := true, legacyCode := Some(x.codes(c)))];
      }
      return 0;
    }

    /** _ensure_default_roles, with the flush that makes an added owner visible. */
    method EnsureRoles(x: Context, c: nat) returns (created: int)
      requires addedLinks == [] && addedResources == []
      modifies this`botUsers, this`addedBots, this`roles
      modifies this`links, this`addedLinks, this`resources, this`addedResources
      ensures NothingAdded() && links == old(links) && resources == old(resources)
      ensures botUsers == old(botUsers) + old(addedBots)
      ensures roles == RowsAfter(x.roles, old(roles), c, true) && created == RowCount(x.roles, old(roles), c, true)
    {
      roles, created := EnsureRows(x.roles, roles, c, true);
      FlushLinks();
      assert Elements<Link>([]) == {};
    }

    /** _find_or_create_user_from_bot_access: a new user is flushed at once, and with it all that waits. */
    method FindOrCreateUser(openId: string) returns (created: int)
      requires LinksFit()
      modifies this`botUsers, this`addedBots, this`users
      modifies this`links, this`addedLinks, this`resources, this`addedResources
      ensures LinksFit() && AllLinks() == old(AllLinks())
      ensures botUsers == old(botUsers) && resources == old(resources)
      ensures users == old(users) + {openId} && created == if openId in old(users) then 0 else 1
      ensures addedLinks == old(addedLinks) || addedLinks == []
    {
      if openId in users {
        assert users + {openId} == users;
        return 0;
      }
      users := users + {openId};
      FlushLinks();
      assert Elements<Link>([]) == {} && botUsers == old(botUsers);
      return 1;
    }

    /** The second half of the loop body of _migrate_bot_users. */
    method LinkUser(link: Link) returns (created: int)
      requires LinksFit() && forall l <- addedLinks :: l.user != link.user
      modifies this`addedLinks
      ensures LinksFit() && AllLinks() == old(AllLinks()) + {link}
      ensures created == if link in old(AllLinks()) then 0 else 1
      ensures addedLinks == old(addedLinks) || addedLinks == old(addedLinks) + [link]
    {
      if link in links {
        assert AllLinks() + {link} == AllLinks();
        return 0;
      }
      assert link !in AllLinks();
      addedLinks := addedLinks + [link];
      assert AllLinks() == old(AllLinks()) + {link};
      return 1;
    }

    /** _migrate_bot_users. Its flushes never fail. */
    method MigrateUsers(x: Context, c: nat) returns (newUsers: int, newLinks: int)
      requires LinksFit() && addedLinks == [] && BotsAreUnique(botUsers)
      modifies this`botUsers, this`addedBots, this`users
      modifies this`links, this`addedLinks, this`resources, this`addedResources
      ensures LinksFit() && botUsers == old(botUsers) && resources == old(resources)
      ensures users == old(users) + OpenIds(botUsers, c)
      ensures AllLinks() == old(links) + LinksOf(x, botUsers, roles, c)
      ensures newUsers == UserCount(botUsers, old(users), c)
      ensures newLinks == LinkCount(x, botUsers, roles, old(links), c)
    {
      newUsers, newLinks := 0, 0;
      var bots, names := botUsers, roles;
      ghost var users0, links0 := users, links;
      assert AllLinks() == links0 + {} && users == users0 + {};
      for i := 0 to |bots|
        invariant LinksFit() && botUsers == bots && resources == old(resources)
        invariant users == users0 + OpenIds(bots[..i], c)
        invariant AllLinks() == links0 + LinksOf(x, bots[..i], names, c)
        invariant forall l <- addedLinks :: l.user in OpenIds(bots[..i], c)
        invariant newUsers == UserCount(bots[..i], users0, c)
        invariant newLinks == LinkCount(x, bots[..i], names, links0, c)
      {
        OneMoreBot(x, bots, names, c, users0, links0, i);
        if bots[i].company == c {
          var userCreated := FindOrCreateUser(bots[i].openId);
          newUsers := newUsers + userCreated;
          var linkCreated := LinkUser(LinkOf(x, names, bots[i]));
          newLinks := newLinks + linkCreated;
        }
      }
      assert bots[..|bots|] == bots;
    }

    /** _migrate_feishu_resources and _register_feishu_apps_as_bot_resources, and the flush after them. The
        first begins a savepoint, which flushes; what it adds the second does not see. */
    method RegisterResources(x: Context, c: nat) returns (ok: bool, created: int)
      requires LinksFit()
      modifies this`botUsers, this`addedBots, this`links, this`addedLinks, this`resources, this`addedResources
      ensures ok <==> !Collides(x, old(resources), c)
      ensures ok ==> NothingAdded() && botUsers == old(botUsers) && links == old(AllLinks())
      ensures ok ==> resources == old(resources) + Elements(NewResources(x, old(resources), c))
      ensures created == |NewResources(x, old(resources), c)|
    {
      FlushLinks();
      var migrated := CollectLegacy(resources, LegacyRows(x), c);
      addedResources := migrated;
      var registered := CollectBots(resources, x.apps, c);
      addedResources := addedResources + registered;
      created := |addedResources|;
      NewResourcesAre(x, resources, c);
      ok := Flush();
      assert Elements<Link>([]) == {};
    }

    /** _ensure_owner_resource_permissions. */
    method EnsureGrants(c: nat) returns (created: int)
      modifies this`grants
      ensures grants == old(grants) + Owned(resources, c)
      ensures created == GrantCount(old(grants), resources, c)
    {
      created := 0;
      var todo := Owned(resources, c);
      while todo != {}
        invariant todo <= Owned(resources, c)
        invariant grants + todo == old(grants) + Owned(resources, c)
        invariant created + |todo - grants| == GrantCount(old(grants), resources, c)
      {
        var resource :| resource in todo;
        GrantIsTaken(todo, grants, resource);
        if resource !in grants {
          grants := grants + {resource};
          created := created + 1;
        }
        todo := todo - {resource};
      }
    }

    /** The turn of a company up to its users and their links. */
    method EnsureUsers(x: Context, c: nat) returns (n: Counters)
      requires NothingAdded() && BotsAreUnique(botUsers)
      modifies this`botUsers, this`addedBots, this`settings, this`roles, this`permissions, this`users, this`links,
               this`addedLinks, this`resources, this`addedResources, this`grants
      ensures LinksFit() && resources == old(resources) && grants == old(grants)
      ensures UpToLinks(x, old(Flushed()), c, Flushed().(links := AllLinks()))
      ensures n == TurnCounts(x, old(Flushed()), c).(resources := 0, grants := 0)
    {
      BotsStayUnique(x, botUsers, c);
      var bots := EnsureOwner(x, c);
      var company := EnsureSetting(x, c);
      var newRoles := EnsureRoles(x, c);
      var newPermissions;
      permissions, newPermissions := EnsureRows(x.permissions, permissions, c, false);
      var newUsers, newLinks := MigrateUsers(x, c);
      n := Counters(bots, company, newRoles, newPermissions, newUsers, newLinks, 0, 0);
    }

    /** One turn of the loop over the companies. */
    method EnsureCompany(x: Context, c: nat) returns (ok: bool, n: Counters)
      requires NothingAdded() && BotsAreUnique(botUsers)
      modifies this`botUsers, this`addedBots, this`settings, this`roles, this`permissions, this`users, this`links,
               this`addedLinks, this`resources, this`addedResources, this`grants
      ensures ok <==> !Collides(x, old(Flushed()).resources, c)
      ensures ok ==> NothingAdded() && BotsAreUnique(botUsers) && Flushed() == AfterCompany(x, old(Flushed()), c)
      ensures ok ==> n == TurnCounts(x, old(Flushed()), c)
    {
      ghost var before := Flushed();
      BotsStayUnique(x, botUsers, c);
      n := EnsureUsers(x, c);
      ghost var middle := Flushed().(links := AllLinks());
      var newResources;
      ok, newResources := RegisterResources(x, c);
      if ok {
        var newGrants := EnsureGrants(c);
        assert Flushed() == middle.(resources := resources, grants := grants);
        TurnIsDone(x, before, c, middle, Flushed());
        n := n.(resources := newResources, grants := newGrants);
      }
    }

    /** bootstrap_v5_administration: the companies it is for, or a launch company when none is stored and
        none asked for, one after the other. A flush that fails takes the whole transaction back. */
    method Bootstrap(x: Context, asked: Option<nat>, newId: nat) returns (ok: bool, launched: nat, n: Counters)
      requires NothingAdded() && BotsAreUnique(botUsers)
      modifies this
      ensures var targets := Targets(old(companies), asked, newId);
              && (ok <==> !Fails(x, old(Flushed()), targets))
              && Flushed() == (if ok then AfterAll(x, old(Flushed()), targets) else old(Flushed()))
      ensures companies == if ok then CompaniesAfter(old(companies), asked, newId) else old(companies)
      ensures ok ==> n == Growth(old(Flushed()), Flushed()) && launched == |companies| - |old(companies)|
    {
      var targets := if asked.None? then companies else if asked.value in companies then [asked.value] else [];
      launched := 0;
      if targets == [] && asked.None? {
        targets, launched := [newId], 1;
      }
      ok, n := EnsureCompanies(x, targets);
      if ok && launched == 1 { companies := [newId]; }
    }

    method EnsureCompanies(x: Context, companies: seq<nat>) returns (ok: bool, n: Counters)
      requires NothingAdded() && BotsAreUnique(botUsers)
      modifies this`botUsers, this`addedBots, this`settings, this`roles, this`permissions, this`users, this`links,
               this`addedLinks, this`resources, this`addedResources, this`grants
      ensures ok <==> !Fails(x, old(Flushed()), companies)
      ensures Flushed() == (if ok then AfterAll(x, old(Flushed()), companies) else old(Flushed())) && NothingAdded()
      ensures ok ==> n == Growth(old(Flushed()), Flushed())
    {
      var saved := Flushed();
      n := ZERO;
      for i := 0 to |companies|
        invariant NothingAdded() && BotsAreUnique(botUsers)
        invariant AfterAll(x, Flushed(), companies[i..]) == AfterAll(x, saved, companies)
        invariant Fails(x, Flushed(), companies[i..]) <==> Fails(x, saved, companies)
        invariant n == Growth(saved, Flushed())
      {
        ghost var before := Flushed();
        FirstTurn(x, before, companies[i..]);
        var m;
        ok, m := EnsureCompany(x, companies[i]);
        if !ok {
          Restore(saved);
          return false, n;
        }
        assert companies[i..][1..] == companies[i + 1..];
        TurnCountsAreGrowth(x, before, companies[i]);
        GrowthAdds(saved, before, Flushed());
        n := Add(n, m);
      }
      return true, n;
    }
  }
}
