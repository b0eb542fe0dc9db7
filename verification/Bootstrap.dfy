/** bootstrap_v5_administration: what one run leaves in the tables, when it can run at all, and why a
    second run adds nothing. */
module Bootstrap {
  import opened Lists
  import opened Options

  type Config = map<string, string>

  type Key = (nat, string)

  datatype Platform = Feishu | OtherPlatform(name: string)

  /** A resource by its identity; the two unique indexes count missing sub ids as equal. */
  datatype Resource = Resource(
    company: nat, platform: Platform, kind: string, resourceId: string, subId: Option<string>)

  datatype BotUser = BotUser(
    company: nat, openId: string, displayName: string, role: string, scope: string, active: bool, settings: Config)

  datatype CompanySetting = CompanySetting(isV5: bool, legacyCode: Option<string>, settings: Config)

  /** A role or a permission: `scope` is the role's scope_type and the permission's permission_type. */
  datatype Row = Row(description: string, scope: string, config: Config)

  /** An entry of DEFAULT_V5_ROLES, by name, or of DEFAULT_V5_PERMISSIONS, by code. */
  datatype Spec = Spec(name: string, row: Row)

  datatype Link = Link(user: string, company: nat, role: string)

  /** A row of the retired table feishu_resources; the two mailbox keys come from its settings. */
  datatype LegacyRow = LegacyRow(
    company: nat, kind: string, externalId: string, mailbox: Option<string>, folder: Option<string>)

  datatype App = App(company: nat, appId: string)

  /** The tables. A user stands for their external id, a grant for the resource on which its company's
      owner role has a permission. */
  datatype Tables = Tables(
    botUsers: seq<BotUser>,
    settings: map<nat, CompanySetting>,
    roles: map<Key, Row>,
    permissions: map<Key, Row>,
    users: set<string>,
    links: set<Link>,
    resources: set<Resource>,
    grants: set<Resource>)

  /** The configured owner, the default rows, legacy_bot_role_to_v5_role, the codes of the companies, and
      the two source tables; `legacy` is `None` once feishu_resources has been dropped. */
  datatype Context = Context(
    owner: Option<string>,
    ownerSettings: Config,
    roles: seq<Spec>,
    permissions: seq<Spec>,
    roleFor: string -> string,
    codes: nat -> string,
    legacy: Option<seq<LegacyRow>>,
    apps: seq<App>)

  const OWNER := "owner"
  const EMPLOYEE := "employee"

  // ---- the ensure steps ----

  predicate HasOwner(x: Context) {
    x.owner.Some? && x.owner.value != ""
  }

  /** {**payload, **existing}: what is stored wins. */
  function Underlay(payload: Config, stored: Config): Config {
    payload + stored
  }

  function NewOwner(x: Context, c: nat): BotUser
    requires HasOwner(x)
  {
    BotUser(c, x.owner.value, "Joon", OWNER, "company", true, x.ownerSettings)
  }

  predicate IsOwner(x: Context, u: BotUser, c: nat)
    requires HasOwner(x)
  {
    u.company == c && u.openId == x.owner.value
  }

  predicate OwnerStored(x: Context, bots: seq<BotUser>, c: nat)
    requires HasOwner(x)
  {
    exists u <- bots :: IsOwner(x, u, c)
  }

  function Promoted(x: Context, u: BotUser): BotUser {
    u.(displayName := if u.displayName != "" then u.displayName else "Joon", role := OWNER, scope := "company",
       active := true, settings := Underlay(x.ownerSettings, u.settings))
  }

  function Turned(x: Context, u: BotUser, c: nat): BotUser
    requires HasOwner(x)
  {
    if IsOwner(x, u, c) then Promoted(x, u) else u
  }

  function PromotedIn(x: Context, bots: seq<BotUser>, c: nat): (after: seq<BotUser>)
    requires HasOwner(x)
    ensures |after| == |bots| && forall i :: 0 <= i < |bots| ==> after[i] == Turned(x, bots[i], c)
  {
    if bots == [] then [] else PromotedIn(x, bots[..|bots| - 1], c) + [Turned(x, bots[|bots| - 1], c)]
  }

  function BotUsersAfter(x: Context, bots: seq<BotUser>, c: nat): seq<BotUser> {
    if !HasOwner(x) then bots
    else if OwnerStored(x, bots, c) then PromotedIn(x, bots, c)
    else bots + [NewOwner(x, c)]
  }

  function SettingAfter(x: Context, settings: map<nat, CompanySetting>, c: nat): map<nat, CompanySetting> {
    if c !in settings then settings[c := CompanySetting(true, Some(x.codes(c)), map[])]
    else if settings[c].isV5 then settings
    else settings[c := settings[c].(isV5 := true, legacyCode := Some(x.codes(c)))]
  }

  function Filled(spec: Row, row: Row, fillScope: bool): Row {
    Row(if row.description != "" then row.description else spec.description,
        if fillScope && row.scope == "" then spec.scope else row.scope,
        Underlay(spec.config, row.config))
  }

  /** The loop over the default rows. */
  function RowsAfter(specs: seq<Spec>, rows: map<Key, Row>, c: nat, fillScope: bool): map<Key, Row> {
    if specs == [] then rows
    else
      var last := specs[|specs| - 1];
      var before := RowsAfter(specs[..|specs| - 1], rows, c, fillScope);
      before[(c, last.name) :=
        if (c, last.name) in before then Filled(last.row, before[(c, last.name)], fillScope) else last.row]
  }

  // ---- users and their role links ----

  /** The open ids of the company's bot users. */
  function OpenIds(bots: seq<BotUser>, c: nat): set<string> {
    if bots == [] then {}
    else
      var last := bots[|bots| - 1];
      OpenIds(bots[..|bots| - 1], c) + (if last.company == c then {last.openId} else {})
  }

  function RoleOf(x: Context, roles: map<Key, Row>, c: nat, u: BotUser): string {
    var name := x.roleFor(u.role);
    if (c, name) in roles then name else EMPLOYEE
  }

  function LinkOf(x: Context, roles: map<Key, Row>, u: BotUser): Link {
    Link(u.openId, u.company, RoleOf(x, roles, u.company, u))
  }

  function LinksOf(x: Context, bots: seq<BotUser>, roles: map<Key, Row>, c: nat): set<Link> {
    if bots == [] then {}
    else
      var last := bots[|bots| - 1];
      LinksOf(x, bots[..|bots| - 1], roles, c) + (if last.company == c then {LinkOf(x, roles, last)} else {})
  }

  // ---- resources ----

  /** _legacy_resource_identity. */
  function LegacyResource(l: LegacyRow): Resource {
    if l.kind == "mail_folder" &&
       l.mailbox.Some? && l.mailbox.value != "" && l.folder.Some? && l.folder.value != "" then
      Resource(l.company, Feishu, l.kind, l.mailbox.value, l.folder)
    else Resource(l.company, Feishu, l.kind, l.externalId, None)
  }

  /** The legacy rows of the company that no flushed resource stands for: each is added, also twice. */
  function NewLegacy(resources: set<Resource>, legacy: seq<LegacyRow>, c: nat): seq<Resource> {
    if legacy == [] then []
    else
      var last := legacy[|legacy| - 1];
      NewLegacy(resources, legacy[..|legacy| - 1], c) +
      (if last.company == c && LegacyResource(last) !in resources then [LegacyResource(last)] else [])
  }

  predicate IsBotOf(r: Resource, c: nat, appId: string) {
    r.company == c && r.platform == Feishu && r.kind == "bot" && r.resourceId == appId
  }

  predicate HasBot(resources: set<Resource>, c: nat, appId: string) {
    exists r <- resources :: IsBotOf(r, c, appId)
  }

  function NewBot(a: App): Resource {
    Resource(a.company, Feishu, "bot", a.appId, None)
  }

  function NewBots(resources: set<Resource>, apps: seq<App>, c: nat): seq<Resource> {
    if apps == [] then []
    else
      var last := apps[|apps| - 1];
      NewBots(resources, apps[..|apps| - 1], c) +
      (if last.company == c && !HasBot(resources, c, last.appId) then [NewBot(last)] else [])
  }

  function LegacyRows(x: Context): seq<LegacyRow> {
    if x.legacy.Some? then x.legacy.value else []
  }

  /** The resources a run adds for the company, in order. The session does not autoflush, so the second
      list is built without seeing the first. */
  function NewResources(x: Context, resources: set<Resource>, c: nat): seq<Resource> {
    NewLegacy(resources, LegacyRows(x), c) + NewBots(resources, x.apps, c)
  }

  /** The flush fails on them. */
  predicate Collides(x: Context, resources: set<Resource>, c: nat) {
    !NoRepeats(NewResources(x, resources, c))
  }

  function Elements<T(==)>(s: seq<T>): set<T> {
    set e | e in s
  }

  function Owned(resources: set<Resource>, c: nat): set<Resource> {
    set r | r in resources && r.company == c
  }

  /** The tables after one company. */
  function AfterCompany(x: Context, t: Tables, c: nat): Tables {
    var bots := BotUsersAfter(x, t.botUsers, c);
    var roles := RowsAfter(x.roles, t.roles, c, true);
    var resources := t.resources + Elements(NewResources(x, t.resources, c));
    Tables(
      bots,
      SettingAfter(x, t.settings, c),
      roles,
      RowsAfter(x.permissions, t.permissions, c, false),
      t.users + OpenIds(bots, c),
      t.links + LinksOf(x, bots, roles, c),
      resources,
      t.grants + Owned(resources, c))
  }

  /** The tables after all of them, in order. */
  function AfterAll(x: Context, t: Tables, companies: seq<nat>): Tables
    decreases |companies|
  {
    if companies == [] then t else AfterAll(x, AfterCompany(x, t, companies[0]), companies[1..])
  }

  /** Some flush on the way fails. */
  predicate Fails(x: Context, t: Tables, companies: seq<nat>)
    decreases |companies|
  {
    companies != [] &&
    (Collides(x, t.resources, companies[0]) || Fails(x, AfterCompany(x, t, companies[0]), companies[1..]))
  }

  // ---- coverage ----

  /** The role a bot user's link is to name: the mapped one where the company has it, and else "employee". */
  function MappedLink(x: Context, roles: map<Key, Row>, u: BotUser): Link {
    Link(u.openId, u.company,
         if (u.company, x.roleFor(u.role)) in roles then x.roleFor(u.role) else "employee")
  }

  /** A legacy row as a resource: a mail folder by mailbox and folder where both are known. */
  function Migrated(l: LegacyRow): Resource {
    if l.kind == "mail_folder" &&
       l.mailbox.Some? && l.folder.Some? && l.mailbox.value != "" && l.folder.value != "" then
      Resource(l.company, Feishu, "mail_folder", l.mailbox.value, Some(l.folder.value))
    else Resource(l.company, Feishu, l.kind, l.externalId, None)
  }

  /** What a run promises a company. */
  ghost predicate Covered(x: Context, t: Tables, c: nat) {
    && c in t.settings && t.settings[c].isV5
    && (forall s <- x.roles :: (c, s.name) in t.roles)
    && (forall s <- x.permissions :: (c, s.name) in t.permissions)
    && (x.owner.Some? && x.owner.value != "" ==>
          exists u <- t.botUsers :: u.company == c && u.openId == x.owner.value &&
                                    u.role == "owner" && u.scope == "company" && u.active && u.displayName != "")
    && (forall u <- t.botUsers :: u.company == c ==> u.openId in t.users && MappedLink(x, t.roles, u) in t.links)
    && (x.legacy.Some? ==> forall l <- x.legacy.value :: l.company == c ==> Migrated(l) in t.resources)
    && (forall a <- x.apps :: a.company == c ==>
          exists r <- t.resources ::
            r.company == c && r.platform == Feishu && r.kind == "bot" && r.resourceId == a.appId)
    && (forall r <- t.resources :: r.company == c ==> r in t.grants)
  }

  lemma {:induction false} NewLegacyIs(resources: set<Resource>, legacy: seq<LegacyRow>, c: nat)
    ensures forall r :: r in NewLegacy(resources, legacy, c) <==>
              r !in resources && exists l <- legacy :: l.company == c && LegacyResource(l) == r
  {
    if legacy != [] {
      NewLegacyIs(resources, legacy[..|legacy| - 1], c);
      assert legacy == legacy[..|legacy| - 1] + [legacy[|legacy| - 1]];
    }
  }

  lemma {:induction false} NewBotsIs(resources: set<Resource>, apps: seq<App>, c: nat)
    ensures forall r :: r in NewBots(resources, apps, c) <==>
              exists a <- apps :: a.company == c && !HasBot(resources, c, a.appId) && NewBot(a) == r
  {
    if apps != [] {
      NewBotsIs(resources, apps[..|apps| - 1], c);
      assert apps == apps[..|apps| - 1] + [apps[|apps| - 1]];
    }
  }

  lemma NewResourcesAre(x: Context, resources: set<Resource>, c: nat)
    ensures forall r :: r in NewResources(x, resources, c) ==> r.company == c && r !in resources
  {
    NewLegacyIs(resources, LegacyRows(x), c);
    NewBotsIs(resources, x.apps, c);
    forall a | a in x.apps && a.company == c && NewBot(a) in resources ensures HasBot(resources, c, a.appId) {
      assert IsBotOf(NewBot(a), c, a.appId);
    }
  }

  /** Which resources are new depends only on the company's own. */
  lemma {:induction false} NewLegacyIsLocal(a: set<Resource>, b: set<Resource>, legacy: seq<LegacyRow>, c: nat)
    requires Owned(a, c) == Owned(b, c)
    ensures NewLegacy(a, legacy, c) == NewLegacy(b, legacy, c)
  {
    if legacy != [] {
      NewLegacyIsLocal(a, b, legacy[..|legacy| - 1], c);
      var r := LegacyResource(legacy[|legacy| - 1]);
      assert r.company == c ==> (r in a <==> r in Owned(a, c)) && (r in b <==> r in Owned(b, c));
    }
  }

  lemma {:induction false} NewBotsIsLocal(a: set<Resource>, b: set<Resource>, apps: seq<App>, c: nat)
    requires Owned(a, c) == Owned(b, c)
    ensures NewBots(a, apps, c) == NewBots(b, apps, c)
  {
    if apps != [] {
      NewBotsIsLocal(a, b, apps[..|apps| - 1], c);
      var appId := apps[|apps| - 1].appId;
      if r :| r in a && IsBotOf(r, c, appId) { assert r in Owned(b, c); }
      if r :| r in b && IsBotOf(r, c, appId) { assert r in Owned(a, c); }
      assert HasBot(a, c, appId) <==> HasBot(b, c, appId);
    }
  }

  lemma NewResourcesIsLocal(x: Context, a: set<Resource>, b: set<Resource>, c: nat)
    requires Owned(a, c) == Owned(b, c)
    ensures NewResources(x, a, c) == NewResources(x, b, c)
  {
    NewLegacyIsLocal(a, b, LegacyRows(x), c);
    NewBotsIsLocal(a, b, x.apps, c);
  }

  lemma NothingNewIff(x: Context, resources: set<Resource>, c: nat)
    ensures NewResources(x, resources, c) == [] <==>
            && (forall l <- LegacyRows(x) :: l.company == c ==> LegacyResource(l) in resources)
            && (forall a <- x.apps :: a.company == c ==> HasBot(resources, c, a.appId))
  {
    var added := NewResources(x, resources, c);
    NewLegacyIs(resources, LegacyRows(x), c);
    NewBotsIs(resources, x.apps, c);
    if added != [] { assert added[0] in added; }
    forall l | l in LegacyRows(x) && l.company == c && added == [] ensures LegacyResource(l) in resources {
      assert LegacyResource(l) !in added;
    }
    forall a | a in x.apps && a.company == c && added == [] ensures HasBot(resources, c, a.appId) {
      assert NewBot(a) !in added;
    }
  }

  lemma ResourcesSettle(x: Context, resources: set<Resource>, c: nat)
    ensures NewResources(x, resources + Elements(NewResources(x, resources, c)), c) == []
  {
    var after := resources + Elements(NewResources(x, resources, c));
    NewLegacyIs(resources, LegacyRows(x), c);
    NewBotsIs(resources, x.apps, c);
    forall a | a in x.apps && a.company == c ensures HasBot(after, c, a.appId) {
      if r :| r in resources && IsBotOf(r, c, a.appId) {
        assert r in after;
      } else {
        assert NewBot(a) in NewBots(resources, x.apps, c);
        assert NewBot(a) in after && IsBotOf(NewBot(a), c, a.appId);
      }
    }
    NothingNewIff(x, after, c);
  }

  // ---- a company that a run leaves as it is ----

  lemma {:induction false} LinksAre(x: Context, bots: seq<BotUser>, roles: map<Key, Row>, c: nat)
    ensures forall id :: id in OpenIds(bots, c) <==> exists u <- bots :: u.company == c && u.openId == id
    ensures forall l ::
              l in LinksOf(x, bots, roles, c) <==> exists u <- bots :: u.company == c && LinkOf(x, roles, u) == l
  {
    if bots != [] {
      LinksAre(x, bots[..|bots| - 1], roles, c);
      assert bots == bots[..|bots| - 1] + [bots[|bots| - 1]];
    }
  }

  /** Ids and links of a company depend on its own bot users, and on which roles it has. */
  lemma LinksAreLocal(x: Context, a: seq<BotUser>, b: seq<BotUser>, roles: map<Key, Row>, others: map<Key, Row>, c: nat)
    requires forall u: BotUser :: u.company == c ==> (u in a <==> u in b)
    requires forall name :: (c, name) in roles <==> (c, name) in others
    ensures OpenIds(a, c) == OpenIds(b, c)
    ensures LinksOf(x, a, roles, c) == LinksOf(x, b, others, c)
  {
    LinksAre(x, a, roles, c);
    LinksAre(x, b, others, c);
    forall u: BotUser | u.company == c ensures LinkOf(x, roles, u) == LinkOf(x, others, u) {}
  }

  /** The owner is stored, and promoting them changes nothing. */
  ghost predicate OwnerSettled(x: Context, bots: seq<BotUser>, c: nat) {
    HasOwner(x) ==> OwnerStored(x, bots, c) && forall u <- bots :: IsOwner(x, u, c) ==> Promoted(x, u) == u
  }

  lemma PromotedTwice(x: Context, u: BotUser)
    ensures Promoted(x, Promoted(x, u)) == Promoted(x, u)
  {
    assert Underlay(x.ownerSettings, Underlay(x.ownerSettings, u.settings)) == Underlay(x.ownerSettings, u.settings);
  }

  lemma OwnerSettles(x: Context, bots: seq<BotUser>, c: nat)
    ensures OwnerSettled(x, BotUsersAfter(x, bots, c), c)
  {
    var after := BotUsersAfter(x, bots, c);
    if HasOwner(x) && OwnerStored(x, bots, c) {
      var i :| 0 <= i < |bots| && IsOwner(x, bots[i], c);
      assert after[i] in after && IsOwner(x, after[i], c);
      forall u | u in after && IsOwner(x, u, c) ensures Promoted(x, u) == u {
        var k :| 0 <= k < |after| && after[k] == u;
        PromotedTwice(x, bots[k]);
      }
    } else if HasOwner(x) {
      var owner := NewOwner(x, c);
      assert owner in after && Underlay(x.ownerSettings, owner.settings) == owner.settings;
    }
  }

  lemma SettledOwnerStays(x: Context, bots: seq<BotUser>, c: nat)
    requires OwnerSettled(x, bots, c)
    ensures BotUsersAfter(x, bots, c) == bots
  {
    if HasOwner(x) {
      forall i | 0 <= i < |bots| ensures Turned(x, bots[i], c) == bots[i] { assert bots[i] in bots; }
      assert PromotedIn(x, bots, c) == bots;
    }
  }

  /** The owner of another company is another row. */
  lemma OthersStay(x: Context, bots: seq<BotUser>, c: nat, d: nat)
    requires c != d
    ensures forall u: BotUser :: u.company == c ==> (u in BotUsersAfter(x, bots, d) <==> u in bots)
  {
    var after := BotUsersAfter(x, bots, d);
    forall u: BotUser | u.company == c && HasOwner(x) ensures u in after <==> u in bots {
      if i :| 0 <= i < |bots| && bots[i] == u { assert after[i] == u; }
      if i :| 0 <= i < |after| && after[i] == u { assert i < |bots| && bots[i] == u; }
    }
  }

  predicate Fits(spec: Row, row: Row, fillScope: bool) {
    Filled(spec, row, fillScope) == row
  }

  ghost predicate AllFit(specs: seq<Spec>, rows: map<Key, Row>, c: nat, fillScope: bool) {
    forall s <- specs :: (c, s.name) in rows && Fits(s.row, rows[(c, s.name)], fillScope)
  }

  ghost predicate RowsSettled(x: Context, t: Tables, c: nat) {
    && OwnerSettled(x, t.botUsers, c)
    && SettingAfter(x, t.settings, c) == t.settings
    && AllFit(x.roles, t.roles, c, true)
    && AllFit(x.permissions, t.permissions, c, false)
  }

  ghost predicate UsersSettled(x: Context, t: Tables, c: nat) {
    OpenIds(t.botUsers, c) <= t.users && LinksOf(x, t.botUsers, t.roles, c) <= t.links
  }

  ghost predicate ResourcesSettled(x: Context, t: Tables, c: nat) {
    NewResources(x, t.resources, c) == [] && Owned(t.resources, c) <= t.grants
  }

  ghost predicate Settled(x: Context, t: Tables, c: nat) {
    RowsSettled(x, t, c) && UsersSettled(x, t, c) && ResourcesSettled(x, t, c)
  }

  lemma SettledIsFixed(x: Context, t: Tables, c: nat)
    requires Settled(x, t, c)
    ensures AfterCompany(x, t, c) == t && !Collides(x, t.resources, c)
  {
    assert Elements<Resource>([]) == {};
    SettledOwnerStays(x, t.botUsers, c);
    FittingRowsStay(x.roles, t.roles, c, true);
    FittingRowsStay(x.permissions, t.permissions, c, false);
    var after := AfterCompany(x, t, c);
    assert after.resources == t.resources;
    assert after.users == t.users && after.links == t.links && after.grants == t.grants;
  }

  lemma UnderlaidFitsIff(payload: Config, stored: Config)
    ensures Underlay(payload, stored) == stored <==> payload.Keys <= stored.Keys
  {
    if payload.Keys <= stored.Keys { assert Underlay(payload, stored) == stored; }
    else { assert Underlay(payload, stored).Keys != stored.Keys; }
  }

  /** Filling a row from one default keeps it fitting to another. */
  lemma FilledFits(spec: Row, row: Row, other: Row, fillScope: bool)
    ensures Fits(spec, Filled(spec, row, fillScope), fillScope)
    ensures Fits(spec, spec, fillScope)
    ensures Fits(other, row, fillScope) ==> Fits(other, Filled(spec, row, fillScope), fillScope)
  {
    var filled := Filled(spec, row, fillScope);
    UnderlaidFitsIff(spec.config, filled.config);
    UnderlaidFitsIff(spec.config, spec.config);
    UnderlaidFitsIff(other.config, row.config);
    UnderlaidFitsIff(other.config, filled.config);
  }

  lemma {:induction false} RowsFit(specs: seq<Spec>, rows: map<Key, Row>, c: nat, fillScope: bool)
    ensures AllFit(specs, RowsAfter(specs, rows, c, fillScope), c, fillScope)
  {
    if specs != [] {
      var front, last := specs[..|specs| - 1], specs[|specs| - 1];
      var before, after := RowsAfter(front, rows, c, fillScope), RowsAfter(specs, rows, c, fillScope);
      RowsFit(front, rows, c, fillScope);
      forall s | s in specs ensures (c, s.name) in after && Fits(s.row, after[(c, s.name)], fillScope) {
        assert s in front || s == last;
        FilledFits(last.row, if (c, last.name) in before then before[(c, last.name)] else last.row, s.row, fillScope);
      }
    }
  }

  lemma {:induction false} FittingRowsStay(specs: seq<Spec>, rows: map<Key, Row>, c: nat, fillScope: bool)
    requires AllFit(specs, rows, c, fillScope)
    ensures RowsAfter(specs, rows, c, fillScope) == rows
  {
    if specs != [] { FittingRowsStay(specs[..|specs| - 1], rows, c, fillScope); }
  }

  lemma {:induction false} OtherRowsStay(
    specs: seq<Spec>, rows: map<Key, Row>, c: nat, d: nat, fillScope: bool, name: string)
    requires c != d
    ensures (c, name) in RowsAfter(specs, rows, d, fillScope) <==> (c, name) in rows
    ensures (c, name) in rows ==> RowsAfter(specs, rows, d, fillScope)[(c, name)] == rows[(c, name)]
  {
    if specs != [] { OtherRowsStay(specs[..|specs| - 1], rows, c, d, fillScope, name); }
  }

  lemma CompanySettles(x: Context, t: Tables, c: nat)
    ensures Settled(x, AfterCompany(x, t, c), c)
  {
    var after := AfterCompany(x, t, c);
    RowsFit(x.roles, t.roles, c, true);
    RowsFit(x.permissions, t.permissions, c, false);
    ResourcesSettle(x, t.resources, c);
    OwnerSettles(x, t.botUsers, c);
  }

  lemma RowsStayFitting(specs: seq<Spec>, rows: map<Key, Row>, c: nat, d: nat, fillScope: bool)
    requires c != d && AllFit(specs, rows, c, fillScope)
    ensures AllFit(specs, RowsAfter(specs, rows, d, fillScope), c, fillScope)
  {
    forall s | s in specs
      ensures (c, s.name) in RowsAfter(specs, rows, d, fillScope)
      ensures Fits(s.row, RowsAfter(specs, rows, d, fillScope)[(c, s.name)], fillScope)
    {
      OtherRowsStay(specs, rows, c, d, fillScope, s.name);
    }
  }

  predicate SameRow<K, V(==)>(a: map<K, V>, b: map<K, V>, key: K) {
    (key in a <==> key in b) && (key in a && key in b ==> a[key] == b[key])
  }

  /** In every table the rows of this company are the same. Users belong to no company. */
  ghost predicate SameCompany(t: Tables, u: Tables, c: nat) {
    && (forall b: BotUser :: b.company == c ==> (b in t.botUsers <==> b in u.botUsers))
    && SameRow(t.settings, u.settings, c)
    && (forall name: string :: SameRow(t.roles, u.roles, (c, name)))
    && (forall name: string :: SameRow(t.permissions, u.permissions, (c, name)))
    && (forall l: Link :: l.company == c ==> (l in t.links <==> l in u.links))
    && Owned(t.resources, c) == Owned(u.resources, c) && Owned(t.grants, c) == Owned(u.grants, c)
  }

  /** The turn of another company does not touch the rows of this one, in any table. */
  lemma TurnLeavesOthers(x: Context, t: Tables, c: nat, d: nat)
    requires c != d
    ensures SameCompany(t, AfterCompany(x, t, d), c) && t.users <= AfterCompany(x, t, d).users
  {
    var after := AfterCompany(x, t, d);
    OthersStay(x, t.botUsers, c, d);
    forall name: string
      ensures SameRow(t.roles, after.roles, (c, name)) && SameRow(t.permissions, after.permissions, (c, name))
    {
      OtherRowsStay(x.roles, t.roles, c, d, true, name);
      OtherRowsStay(x.permissions, t.permissions, c, d, false, name);
    }
    LinksAre(x, after.botUsers, after.roles, d);
    TurnIsLocal(x, t, c, d);
    assert Owned(t.grants, c) == Owned(after.grants, c);
  }

  /** So its ids, links and resources are worked out alike before and after. */
  lemma TurnIsLocal(x: Context, t: Tables, c: nat, d: nat)
    requires c != d
    ensures var after := AfterCompany(x, t, d);
            && OpenIds(after.botUsers, c) == OpenIds(t.botUsers, c)
            && LinksOf(x, after.botUsers, after.roles, c) == LinksOf(x, t.botUsers, t.roles, c)
            && Owned(after.resources, c) == Owned(t.resources, c)
  {
    var after := AfterCompany(x, t, d);
    NewResourcesAre(x, t.resources, d);
    OthersStay(x, t.botUsers, c, d);
    forall name ensures (c, name) in after.roles <==> (c, name) in t.roles {
      OtherRowsStay(x.roles, t.roles, c, d, true, name);
    }
    LinksAreLocal(x, after.botUsers, t.botUsers, after.roles, t.roles, c);
    assert Owned(AfterCompany(x, t, d).resources, c) == Owned(t.resources, c);
  }

  lemma TurnKeepsSettled(x: Context, t: Tables, c: nat, d: nat)
    requires Settled(x, t, c)
    ensures Settled(x, AfterCompany(x, t, d), c)
  {
    if c == d {
      SettledIsFixed(x, t, c);
    } else {
      TurnIsLocal(x, t, c, d);
      OthersStay(x, t.botUsers, c, d);
      NewResourcesIsLocal(x, t.resources, AfterCompany(x, t, d).resources, c);
      RowsStayFitting(x.roles, t.roles, c, d, true);
      RowsStayFitting(x.permissions, t.permissions, c, d, false);
    }
  }

  lemma {:induction false} RunKeepsSettled(x: Context, t: Tables, companies: seq<nat>, c: nat)
    requires Settled(x, t, c)
    ensures Settled(x, AfterAll(x, t, companies), c)
    decreases |companies|
  {
    if companies != [] {
      TurnKeepsSettled(x, t, c, companies[0]);
      RunKeepsSettled(x, AfterCompany(x, t, companies[0]), companies[1..], c);
    }
  }

  lemma {:induction false} RunSettles(x: Context, t: Tables, companies: seq<nat>, c: nat)
    requires c in companies
    ensures Settled(x, AfterAll(x, t, companies), c)
    decreases |companies|
  {
    var rest := AfterCompany(x, t, companies[0]);
    if c == companies[0] {
      CompanySettles(x, t, c);
      RunKeepsSettled(x, rest, companies[1..], c);
    } else {
      RunSettles(x, rest, companies[1..], c);
    }
  }

  lemma {:induction false} SettledRunIsFixed(x: Context, t: Tables, companies: seq<nat>)
    requires forall c <- companies :: Settled(x, t, c)
    ensures AfterAll(x, t, companies) == t && !Fails(x, t, companies)
    decreases |companies|
  {
    if companies != [] {
      SettledIsFixed(x, t, companies[0]);
      SettledRunIsFixed(x, t, companies[1..]);
    }
  }

  /** _target_companies, and the launch company made for an empty table when none is asked for. */
  function Targets(companies: seq<nat>, asked: Option<nat>, newId: nat): seq<nat> {
    if asked.Some? then (if asked.value in companies then [asked.value] else [])
    else if companies == [] then [newId] else companies
  }

  function CompaniesAfter(companies: seq<nat>, asked: Option<nat>, newId: nat): seq<nat> {
    if asked.None? && companies == [] then [newId] else companies
  }

  /** A second run goes through the same companies, succeeds, and changes nothing. */
  lemma SecondRunChangesNothing(
    x: Context, t: Tables, companies: seq<nat>, asked: Option<nat>, newId: nat, laterId: nat)
    ensures var targets, stored := Targets(companies, asked, newId), CompaniesAfter(companies, asked, newId);
            var once := AfterAll(x, t, targets);
            && Targets(stored, asked, laterId) == targets && CompaniesAfter(stored, asked, laterId) == stored
            && AfterAll(x, once, targets) == once && !Fails(x, once, targets)
  {
    var targets := Targets(companies, asked, newId);
    var once := AfterAll(x, t, targets);
    forall c | c in targets ensures Settled(x, once, c) { RunSettles(x, t, targets, c); }
    SettledRunIsFixed(x, once, targets);
  }

  lemma LinksAndResourcesByColumns(x: Context, roles: map<Key, Row>)
    ensures forall u: BotUser :: LinkOf(x, roles, u) == MappedLink(x, roles, u)
    ensures forall l: LegacyRow :: LegacyResource(l) == Migrated(l)
  {
  }

  lemma SettledOwner(x: Context, bots: seq<BotUser>, c: nat)
    requires OwnerSettled(x, bots, c) && HasOwner(x)
    ensures exists u <- bots :: u.company == c && u.openId == x.owner.value &&
                                u.role == "owner" && u.scope == "company" && u.active && u.displayName != ""
  {
    var u :| u in bots && IsOwner(x, u, c);
    assert Promoted(x, u) == u;
  }

  lemma SettledIsCovered(x: Context, t: Tables, c: nat)
    requires Settled(x, t, c)
    ensures Covered(x, t, c)
  {
    NothingNewIff(x, t.resources, c);
    LinksAre(x, t.botUsers, t.roles, c);
    LinksAndResourcesByColumns(x, t.roles);
    if HasOwner(x) { SettledOwner(x, t.botUsers, c); }
    hide LinkOf, MappedLink, LegacyResource, Migrated, Promoted;
    forall a | a in x.apps && a.company == c
      ensures exists r <- t.resources ::
                r.company == c && r.platform == Feishu && r.kind == "bot" && r.resourceId == a.appId
    {
      var r :| r in t.resources && IsBotOf(r, c, a.appId);
    }
    forall r | r in t.resources && r.company == c ensures r in t.grants { assert r in Owned(t.resources, c); }
  }

  /** After a run every company it went through is covered: every bot user has a user and the link to the
      mapped role, every app a bot resource, every resource an owner permission, also those of the
      companies before the last. */
  lemma EveryCompanyIsCovered(x: Context, t: Tables, companies: seq<nat>)
    ensures forall c <- companies :: Covered(x, AfterAll(x, t, companies), c)
  {
    forall c | c in companies ensures Covered(x, AfterAll(x, t, companies), c) {
      RunSettles(x, t, companies, c);
      SettledIsCovered(x, AfterAll(x, t, companies), c);
    }
  }

  // ---- and nothing more ----

  /** What later turns leave of a company that is settled: everything. */
  lemma {:induction false} RunLeavesSettled(x: Context, t: Tables, companies: seq<nat>, c: nat)
    requires Settled(x, t, c)
    ensures SameCompany(t, AfterAll(x, t, companies), c)
    decreases |companies|
  {
    hide Settled, AfterCompany;
    if companies == [] {
    } else {
      var d, next := companies[0], AfterCompany(x, t, companies[0]);
      if c == d { SettledIsFixed(x, t, c); } else { TurnLeavesOthers(x, t, c, d); }
      TurnKeepsSettled(x, t, c, d);
      RunLeavesSettled(x, next, companies[1..], c);
    }
  }

  /** The links a turn adds are the mapped ones of its company's bot users. */
  lemma TurnAddsMappedLinks(x: Context, t: Tables, c: nat, l: Link)
    requires l in AfterCompany(x, t, c).links && l !in t.links
    ensures var after := AfterCompany(x, t, c);
            exists u <- after.botUsers :: u.company == c == l.company && MappedLink(x, after.roles, u) == l
  {
    var after := AfterCompany(x, t, c);
    LinksAre(x, after.botUsers, after.roles, c);
    LinksAndResourcesByColumns(x, after.roles);
    var u :| u in after.botUsers && u.company == c && LinkOf(x, after.roles, u) == l;
  }

  /** A run adds no link but the mapped ones of the bot users of the companies it goes through. */
  lemma {:induction false} OnlyMappedLinksAreAdded(x: Context, t: Tables, companies: seq<nat>, l: Link)
    requires l in AfterAll(x, t, companies).links && l !in t.links
    ensures var after := AfterAll(x, t, companies);
            l.company in companies &&
            exists u <- after.botUsers :: u.company == l.company && MappedLink(x, after.roles, u) == l
    decreases |companies|
  {
    hide AfterCompany, Settled, MappedLink;
    if companies != [] {
      var c, next := companies[0], AfterCompany(x, t, companies[0]);
      assert companies == [c] + companies[1..];
      if l in next.links {
        TurnAddsMappedLinks(x, t, c, l);
        var u :| u in next.botUsers && u.company == c == l.company && MappedLink(x, next.roles, u) == l;
        CompanySettles(x, t, c);
        RunLeavesSettled(x, next, companies[1..], c);
        SameLink(x, next, AfterAll(x, t, companies), u);
      } else {
        OnlyMappedLinksAreAdded(x, next, companies[1..], l);
      }
    }
  }

  lemma SameLink(x: Context, t: Tables, v: Tables, u: BotUser)
    requires SameCompany(t, v, u.company) && u in t.botUsers
    ensures u in v.botUsers && MappedLink(x, t.roles, u) == MappedLink(x, v.roles, u)
  {
    assert SameRow(t.roles, v.roles, (u.company, x.roleFor(u.role)));
  }

  /** A run adds no resource but those of the legacy rows and the apps of the companies it goes through. */
  lemma {:induction false} OnlyTheirOwnIsAdded(x: Context, t: Tables, companies: seq<nat>)
    ensures var after := AfterAll(x, t, companies);
            && t.resources <= after.resources && t.users <= after.users && t.grants <= after.grants
            && (forall r | r in after.resources && r !in t.resources ::
                  r.company in companies &&
                  (|| (x.legacy.Some? && exists l <- x.legacy.value :: Migrated(l) == r)
                   || (r.kind == "bot" && exists a <- x.apps :: a == App(r.company, r.resourceId))))
            && (forall r | r in after.grants && r !in t.grants :: r.company in companies && r in after.resources)
    decreases |companies|
  {
    if companies != [] {
      var c, next := companies[0], AfterCompany(x, t, companies[0]);
      assert companies == [c] + companies[1..];
      TurnAddsItsOwn(x, t, c);
      OnlyTheirOwnIsAdded(x, next, companies[1..]);
      hide AfterCompany, Migrated;
    }
  }

  lemma TurnAddsItsOwn(x: Context, t: Tables, c: nat)
    ensures var after := AfterCompany(x, t, c);
            && t.resources <= after.resources && t.users <= after.users && t.grants <= after.grants
            && (forall r | r in after.resources && r !in t.resources ::
                  r.company == c &&
                  (|| (x.legacy.Some? && exists l <- x.legacy.value :: Migrated(l) == r)
                   || (r.kind == "bot" && exists a <- x.apps :: a == App(r.company, r.resourceId))))
            && (forall r | r in after.grants && r !in t.grants :: r.company == c && r in after.resources)
  {
    hide LegacyResource, Migrated, NewResources, BotUsersAfter, RowsAfter, SettingAfter, LinksOf, OpenIds;
    forall r | r in NewResources(x, t.resources, c)
      ensures r.company == c &&
              (|| (x.legacy.Some? && exists l <- x.legacy.value :: Migrated(l) == r)
               || (r.kind == "bot" && exists a <- x.apps :: a == App(r.company, r.resourceId)))
    {
      NewResourceIs(x, t.resources, c, r);
    }
  }

  lemma NewResourceIs(x: Context, resources: set<Resource>, c: nat, r: Resource)
    requires r in NewResources(x, resources, c)
    ensures r.company == c
    ensures || (x.legacy.Some? && exists l <- x.legacy.value :: Migrated(l) == r)
            || (r.kind == "bot" && exists a <- x.apps :: a == App(r.company, r.resourceId))
  {
    NewResourcesAre(x, resources, c);
    if r in NewLegacy(resources, LegacyRows(x), c) {
      NewLegacyIs(resources, LegacyRows(x), c);
      var l :| l in LegacyRows(x) && l.company == c && LegacyResource(l) == r;
      assert Migrated(l) == r;
    } else {
      NewBotsIs(resources, x.apps, c);
      var a :| a in x.apps && a.company == c && NewBot(a) == r;
      assert a == App(a.company, a.appId);
    }
  }

  /** Nor any user but their bot users. */
  lemma {:induction false} OnlyBotUsersAreAdded(x: Context, t: Tables, companies: seq<nat>, id: string)
    requires id in AfterAll(x, t, companies).users && id !in t.users
    ensures exists u <- AfterAll(x, t, companies).botUsers :: u.company in companies && u.openId == id
    decreases |companies|
  {
    hide AfterCompany, Settled;
    if companies != [] {
      var c, next := companies[0], AfterCompany(x, t, companies[0]);
      assert companies == [c] + companies[1..];
      if id in next.users {
        TurnAddsBotUsers(x, t, c, id);
        CompanySettles(x, t, c);
        RunLeavesSettled(x, next, companies[1..], c);
      } else {
        OnlyBotUsersAreAdded(x, next, companies[1..], id);
        var u :| u in AfterAll(x, t, companies).botUsers && u.company in companies[1..] && u.openId == id;
      }
    }
  }

  lemma TurnAddsBotUsers(x: Context, t: Tables, c: nat, id: string)
    requires id in AfterCompany(x, t, c).users && id !in t.users
    ensures exists u <- AfterCompany(x, t, c).botUsers :: u.company == c && u.openId == id
  {
    LinksAre(x, AfterCompany(x, t, c).botUsers, t.roles, c);
  }

  // ---- what is stored wins ----

  /** `after` has the keys of both, and the stored value where there is one. */
  predicate StoredWins(payload: Config, stored: Config, after: Config) {
    && after.Keys == payload.Keys + stored.Keys
    && forall key <- after :: after[key] == if key in stored then stored[key] else payload[key]
  }

  /** The owner's row: whoever is stored under the configured id is promoted and keeps name and settings;
      if nobody is, a row is added. Every other bot user stays in place. */
  lemma OwnerByColumns(x: Context, t: Tables, c: nat)
    ensures var owner, after := if x.owner.Some? then x.owner.value else "", AfterCompany(x, t, c).botUsers;
            var stored := exists u <- t.botUsers :: u.company == c && u.openId == owner;
            && |after| == |t.botUsers| + (if owner != "" && !stored then 1 else 0)
            && (forall i | 0 <= i < |t.botUsers| ::
                  var u, v := t.botUsers[i], after[i];
                  if owner != "" && u.company == c && u.openId == owner then
                    && v == u.(displayName := v.displayName, role := "owner", scope := "company", active := true,
                               settings := v.settings)
                    && v.displayName == (if u.displayName == "" then "Joon" else u.displayName)
                    && StoredWins(x.ownerSettings, u.settings, v.settings)
                  else v == u)
            && (owner != "" && !stored ==>
                  after[|t.botUsers|] == BotUser(c, owner, "Joon", "owner", "company", true, x.ownerSettings))
  {
    forall u: BotUser ensures StoredWins(x.ownerSettings, u.settings, Underlay(x.ownerSettings, u.settings)) {}
    hide StoredWins, Underlay, LinksOf, OpenIds, NewResources, RowsAfter, SettingAfter, Owned;
  }

  /** A company without a setting gets one, an older one is marked and keeps what it holds, and one of V5
      stays as it is. */
  lemma SettingByColumns(x: Context, t: Tables, c: nat)
    ensures AfterCompany(x, t, c).settings == t.settings[c :=
              if c !in t.settings then CompanySetting(true, Some(x.codes(c)), map[])
              else if t.settings[c].isV5 then t.settings[c]
              else CompanySetting(true, Some(x.codes(c)), t.settings[c].settings)]
  {
    if c in t.settings { assert t.settings[c := t.settings[c]] == t.settings; }
  }

  ghost predicate DistinctNames(specs: seq<Spec>) {
    forall i, j | 0 <= i < j < |specs| :: specs[i].name != specs[j].name
  }

  /** A default row is added where there is none; a stored one keeps its description, its entries and its
      scope, and takes the default's where it has none. */
  ghost predicate FilledIn(spec: Row, stored: Row, after: Row, fillScope: bool) {
    && after.description == (if stored.description == "" then spec.description else stored.description)
    && after.scope == (if fillScope && stored.scope == "" then spec.scope else stored.scope)
    && StoredWins(spec.config, stored.config, after.config)
  }

  lemma FilledByColumns(spec: Row, stored: Row, fillScope: bool)
    ensures FilledIn(spec, stored, Filled(spec, stored, fillScope), fillScope)
  {
  }

  /** Which rows the loop leaves as they are. */
  lemma {:induction false} UnnamedRowsStay(specs: seq<Spec>, rows: map<Key, Row>, c: nat, fillScope: bool, key: Key)
    ensures key in RowsAfter(specs, rows, c, fillScope) <==> key in rows || exists s <- specs :: key == (c, s.name)
    ensures key in rows && !(exists s <- specs :: key == (c, s.name)) ==>
              RowsAfter(specs, rows, c, fillScope)[key] == rows[key]
  {
    if specs != [] {
      UnnamedRowsStay(specs[..|specs| - 1], rows, c, fillScope, key);
      assert specs == specs[..|specs| - 1] + [specs[|specs| - 1]];
      hide Filled;
    }
  }

  lemma {:induction false} RowsByColumns(specs: seq<Spec>, rows: map<Key, Row>, c: nat, fillScope: bool, i: nat)
    requires DistinctNames(specs) && i < |specs|
    ensures var after, key := RowsAfter(specs, rows, c, fillScope), (c, specs[i].name);
            && key in after
            && if key in rows then FilledIn(specs[i].row, rows[key], after[key], fillScope)
               else after[key] == specs[i].row
  {
    hide Filled, FilledIn;
    var n := |specs| - 1;
    var front, last := specs[..n], specs[n];
    if i < n {
      RowsByColumns(front, rows, c, fillScope, i);
      assert front[i] == specs[i];
    } else {
      UnnamedRowsStay(front, rows, c, fillScope, (c, last.name));
      forall s | s in front ensures s.name != last.name {
        var k :| 0 <= k < n && front[k] == s;
        assert specs[k] == s;
      }
      if (c, last.name) in rows { FilledByColumns(last.row, rows[(c, last.name)], fillScope); }
    }
  }

  // ---- when a run fails ----

  lemma {:induction false} FailsLater(x: Context, t: Tables, companies: seq<nat>)
    requires NoRepeats(companies)
    ensures Fails(x, t, companies) <==> exists c <- companies :: Collides(x, t.resources, c)
    decreases |companies|
  {
    if companies != [] {
      var d, rest := companies[0], companies[1..];
      var after := AfterCompany(x, t, d);
      FailsLater(x, after, rest);
      forall c | c in rest ensures Collides(x, after.resources, c) <==> Collides(x, t.resources, c) {
        TurnIsLocal(x, t, c, d);
        NewResourcesIsLocal(x, t.resources, after.resources, c);
      }
      assert companies == [d] + rest;
    }
  }

  /** A run fails exactly when, before it starts, some company has two new resources of one identity: two
      legacy rows without a resource, or such a row of kind "bot" and an app without one. */
  lemma FailsIff(x: Context, t: Tables, companies: seq<nat>)
    requires NoRepeats(companies)
    ensures Fails(x, t, companies) <==>
            exists c <- companies ::
              || !NoRepeats(NewLegacy(t.resources, LegacyRows(x), c))
              || !NoRepeats(NewBots(t.resources, x.apps, c))
              || exists r <- NewLegacy(t.resources, LegacyRows(x), c) :: r in NewBots(t.resources, x.apps, c)
  {
    FailsLater(x, t, companies);
    forall c | c in companies
      ensures Collides(x, t.resources, c) <==>
              || !NoRepeats(NewLegacy(t.resources, LegacyRows(x), c))
              || !NoRepeats(NewBots(t.resources, x.apps, c))
              || exists r <- NewLegacy(t.resources, LegacyRows(x), c) :: r in NewBots(t.resources, x.apps, c)
    {
      RepeatsOfConcatenation(NewLegacy(t.resources, LegacyRows(x), c), NewBots(t.resources, x.apps, c));
    }
  }
}
