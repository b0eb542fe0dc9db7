/** Recalculating the permissions of bot users: a dry run tells exactly what a real run would store. */
module BotUsers {
  import opened Lists
  import opened Options
  import opened Permissions

  /** A key of a dictionary: missing, null, or there. */
  datatype Entry<+T> = Absent | Null | Is(value: T)

  /** settings.get(key) or []. */
  function ListIn<T>(e: Entry<seq<T>>): seq<T> {
    if e.Is? then e.value else []
  }

  /** settings.get(key), a text. */
  function TextIn(e: Entry<string>): Option<string> {
    if e.Is? then Some(e.value) else None
  }

  /** settings.get(key) or text. */
  function TextOr(e: Entry<string>, otherwise: string): string {
    if e.Is? && e.value != "" then e.value else otherwise
  }

  /** What storing settings.get(key) under the key makes of it. */
  function Restored<T>(e: Entry<T>): Entry<T> {
    if e.Absent? then Null else e
  }

  /** The keys of `settings` the recalculation reads or writes. */
  datatype Settings = Settings(
    source: Entry<string>,
    departmentIds: Entry<seq<string>>,
    departmentNames: Entry<seq<string>>,
    email: Entry<string>,
    jobTitle: Entry<string>,
    status: Entry<string>,
    domains: Entry<seq<Domain>>,
    tags: Entry<seq<Tag>>,
    resources: Entry<seq<string>>,
    syncedAt: Entry<string>)

  datatype User = User(openId: string, displayName: Option<string>, role: Role, scope: Scope, settings: Settings)

  datatype Preview = Preview(
    openId: string, displayName: Option<string>,
    roleBefore: Role, scopeBefore: Scope, roleAfter: Role, scopeAfter: Scope,
    domains: seq<Domain>, resources: seq<string>, departmentNames: seq<string>, jobTitle: Option<string>, skipped: bool)

  /** What a run depends on besides the users: the rules, lower(), the department names the work events
      carry, and whether owners and admins are recalculated too. */
  datatype Context = Context(
    tables: Tables, lower: char -> string, names: map<string, string>, updateManualAdmins: bool)

  // ---- one user ----

  predicate Skips(c: Context, u: User) {
    u.role in {Owner, Admin} && !c.updateManualAdmins
  }

  function KnownNames(names: map<string, string>, ids: seq<string>): seq<string> {
    if ids == [] then []
    else KnownNames(names, ids[..|ids| - 1]) + (if ids[|ids| - 1] in names then [names[ids[|ids| - 1]]] else [])
  }

  function NamesOf(c: Context, u: User): seq<string> {
    var names := ListIn(u.settings.departmentNames);
    if names != [] then names else KnownNames(c.names, ListIn(u.settings.departmentIds))
  }

  function ProfileOfUser(c: Context, u: User): Profile {
    var person := Person(u.displayName, TextIn(u.settings.jobTitle), TextIn(u.settings.email));
    ProfileOf(c.tables, c.lower, person, NamesOf(c, u))
  }

  /** merge_permission_settings, as the recalculation calls it. */
  function NewSettings(c: Context, u: User, p: Profile): Settings {
    Settings(
      Is(TextOr(u.settings.source, "manual_recalculate")),
      Is(ListIn(u.settings.departmentIds)),
      Is(NamesOf(c, u)),
      Restored(u.settings.email),
      Restored(u.settings.jobTitle),
      Restored(u.settings.status),
      Is(p.domains),
      Is(p.tags),
      Is(p.resources),
      Is(TextOr(u.settings.syncedAt, "")))
  }

  function Recalculated(c: Context, u: User): User {
    if Skips(c, u) then u
    else
      var p := ProfileOfUser(c, u);
      u.(role := p.role, scope := p.scope, settings := NewSettings(c, u, p))
  }

  predicate Counts(c: Context, u: User) {
    && !Skips(c, u)
    && var p := ProfileOfUser(c, u);
       u.role != p.role || u.scope != p.scope || ListIn(u.settings.domains) != p.domains
  }

  /** _permission_preview. */
  function PreviewOf(u: User, role: Role, scope: Scope, s: Settings, skipped: bool): Preview {
    Preview(u.openId, u.displayName, u.role, u.scope, role, scope, ListIn(s.domains), ListIn(s.resources),
            ListIn(s.departmentNames), TextIn(s.jobTitle), skipped)
  }

  function PreviewFor(c: Context, u: User): Preview {
    if Skips(c, u) then PreviewOf(u, u.role, u.scope, u.settings, true)
    else var p := ProfileOfUser(c, u); PreviewOf(u, p.role, p.scope, NewSettings(c, u, p), false)
  }

  // ---- all users ----

  function AllRecalculated(c: Context, users: seq<User>): (after: seq<User>)
    ensures |after| == |users|
  {
    if users == [] then [] else AllRecalculated(c, users[..|users| - 1]) + [Recalculated(c, users[|users| - 1])]
  }

  function CountOf(c: Context, users: seq<User>): nat {
    if users == [] then 0
    else CountOf(c, users[..|users| - 1]) + (if Counts(c, users[|users| - 1]) then 1 else 0)
  }

  function PreviewsOf(c: Context, users: seq<User>): (previews: seq<Preview>)
    ensures |previews| == |users|
  {
    if users == [] then [] else PreviewsOf(c, users[..|users| - 1]) + [PreviewFor(c, users[|users| - 1])]
  }

  lemma {:induction false} UserAt(c: Context, users: seq<User>, i: nat)
    requires i < |users|
    ensures AllRecalculated(c, users)[i] == Recalculated(c, users[i])
    ensures PreviewsOf(c, users)[i] == PreviewFor(c, users[i])
  {
    if i < |users| - 1 { UserAt(c, users[..|users| - 1], i); }
  }

  class UserTable {
    var users: seq<User>

    /** recalculate_bot_user_permissions. Only what happens to the table depends on `dryRun`: the report is
        the same function of the users in both modes. */
    method Recalculate(c: Context, dryRun: bool) returns (checked: nat, changed: nat, items: seq<Preview>)
      modifies this
      ensures users == if dryRun then old(users) else AllRecalculated(c, old(users))
      ensures checked == |old(users)|
      ensures changed == CountOf(c, old(users))
      ensures items == if |old(users)| <= 100 then PreviewsOf(c, old(users)) else PreviewsOf(c, old(users))[..100]
    {
      hide PreviewFor, Recalculated, Counts;
      ghost var before, after, shown := users, AllRecalculated(c, users), PreviewsOf(c, users);
      var previews := [];
      changed := 0;
      for i := 0 to |users|
        invariant |users| == |before| && |previews| == i
        invariant forall k :: i <= k < |users| ==> users[k] == before[k]
        invariant forall k :: 0 <= k < i ==> users[k] == if dryRun then before[k] else after[k]
        invariant forall k :: 0 <= k < i ==> previews[k] == shown[k]
        invariant changed == CountOf(c, before[..i])
      {
        var preview, stored, counted := VisitUser(c, users[i], before, i);
        previews := previews + [preview];
        if counted { changed := changed + 1; }
        if !dryRun { users := users[i := stored]; }
      }
      assert before[..|before|] == before;
      checked := |users|;
      items := if |previews| <= 100 then previews else previews[..100];
    }

    /** One turn of the loop, at the user it has come to. */
    method VisitUser(c: Context, user: User, ghost all: seq<User>, ghost i: nat)
      returns (preview: Preview, stored: User, counted: bool)
      requires i < |all| && user == all[i]
      ensures preview == PreviewsOf(c, all)[i] && stored == AllRecalculated(c, all)[i]
      ensures CountOf(c, all[..i + 1]) == CountOf(c, all[..i]) + (if counted then 1 else 0)
    {
      hide PreviewFor, Recalculated, Counts;
      UserAt(c, all, i);
      assert all[..i + 1][..i] == all[..i];
      preview, stored, counted := Visit(c, user);
    }

    /** The preview, the row a real run stores, and whether it counts. */
    method Visit(c: Context, user: User) returns (preview: Preview, stored: User, counted: bool)
      ensures preview == PreviewFor(c, user) && stored == Recalculated(c, user) && counted == Counts(c, user)
    {
      hide ProfileOf;
      var data := user.settings;
      if user.role in {Owner, Admin} && !c.updateManualAdmins {
        return PreviewOf(user, user.role, user.scope, data, true), user, false;
      }
      var names := ListIn(data.departmentNames);
      if names == [] { names := KnownNames(c.names, ListIn(data.departmentIds)); }
      var person := Person(user.displayName, TextIn(data.jobTitle), TextIn(data.email));
      var p := InferPermissionProfile(c.tables, c.lower, person, names);
      var settings := NewSettings(c, user, p);
      counted := user.role != p.role || user.scope != p.scope || ListIn(data.domains) != p.domains;
      preview := PreviewOf(user, p.role, p.scope, settings, false);
      stored := user.(role := p.role, scope := p.scope, settings := settings);
    }
  }

  // ---- what the report and a second run say ----

  /** A preview shows the user as a real run would leave them, whether or not this was one. */
  lemma {:induction false} PreviewTellsTheTruth(c: Context, users: seq<User>, i: nat)
    requires i < |users|
    ensures var shown, before, after := PreviewsOf(c, users)[i], users[i], AllRecalculated(c, users)[i];
            && shown.openId == after.openId
            && shown.roleBefore == before.role && shown.scopeBefore == before.scope
            && shown.roleAfter == after.role && shown.scopeAfter == after.scope
            && shown.domains == ListIn(after.settings.domains) && shown.resources == ListIn(after.settings.resources)
            && shown.departmentNames == ListIn(after.settings.departmentNames)
            && shown.jobTitle == TextIn(after.settings.jobTitle)
            && (shown.skipped ==> after == before)
  {
    UserAt(c, users, i);
  }

  /** Owners and admins stay as they are unless the caller asks, and no identity is ever rewritten. */
  lemma {:induction false} OwnersAreUntouched(c: Context, users: seq<User>, i: nat)
    requires i < |users|
    ensures var before, after := users[i], AllRecalculated(c, users)[i];
            && (before.role in {Owner, Admin} && !c.updateManualAdmins ==> after == before)
            && after.openId == before.openId && after.displayName == before.displayName
            && TextIn(after.settings.jobTitle) == TextIn(before.settings.jobTitle)
            && TextIn(after.settings.email) == TextIn(before.settings.email)
            && ListIn(after.settings.departmentIds) == ListIn(before.settings.departmentIds)
  {
    UserAt(c, users, i);
  }

  lemma {:induction false} KnownNamesAre(names: map<string, string>, ids: seq<string>)
    ensures forall name :: name in KnownNames(names, ids) <==> exists id <- ids :: id in names && names[id] == name
  {
    if ids != [] {
      KnownNamesAre(names, ids[..|ids| - 1]);
      assert ids == ids[..|ids| - 1] + [ids[|ids| - 1]];
    }
  }

  /** What a real run stores of a user it does not skip: the access inferred from name, title, mail address and
      departments. The stored department names count when there are any, and else the names known of the
      department ids. */
  lemma {:induction false} AccessIsInferred(c: Context, users: seq<User>, i: nat)
    requires i < |users| && (c.updateManualAdmins || (users[i].role != Owner && users[i].role != Admin))
    ensures var before, after := users[i], AllRecalculated(c, users)[i];
            var stored, names := before.settings.departmentNames, ListIn(after.settings.departmentNames);
            var person := Person(before.displayName,
                                 if before.settings.jobTitle.Is? then Some(before.settings.jobTitle.value) else None,
                                 if before.settings.email.Is? then Some(before.settings.email.value) else None);
            var profile := ProfileOf(c.tables, c.lower, person, names);
            && after.role == profile.role && after.scope == profile.scope
            && after.settings.domains == Is(profile.domains) && after.settings.tags == Is(profile.tags)
            && after.settings.resources == Is(profile.resources)
            && (if stored.Is? && stored.value != [] then names == stored.value
                else forall name :: name in names <==>
                       before.settings.departmentIds.Is? &&
                       exists id <- before.settings.departmentIds.value :: id in c.names && c.names[id] == name)
            && after.settings.source == (if before.settings.source.Is? && before.settings.source.value != ""
                                         then before.settings.source else Is("manual_recalculate"))
  {
    hide ProfileOf, KnownNames, AllRecalculated;
    UserAt(c, users, i);
    KnownNamesAre(c.names, ListIn(users[i].settings.departmentIds));
  }

  /** The input of the inference is the same before and after a recalculation. */
  lemma ProfileIsStable(c: Context, u: User)
    ensures ProfileOfUser(c, Recalculated(c, u)) == ProfileOfUser(c, u)
    ensures NamesOf(c, Recalculated(c, u)) == NamesOf(c, u)
  {
  }

  lemma RecalculatedTwice(c: Context, u: User)
    ensures Recalculated(c, Recalculated(c, u)) == Recalculated(c, u)
    ensures !Counts(c, Recalculated(c, u))
  {
    ProfileIsStable(c, u);
  }

  lemma {:induction false} NothingCounts(c: Context, users: seq<User>)
    ensures CountOf(c, users) == 0 <==> forall u <- users :: !Counts(c, u)
  {
    if users != [] {
      var front, last := users[..|users| - 1], users[|users| - 1];
      NothingCounts(c, front);
      assert users == front + [last];
    }
  }

  /** A second real run counts no change and leaves every user as the first left them. */
  lemma SecondRunChangesNothing(c: Context, users: seq<User>)
    ensures var once := AllRecalculated(c, users);
            AllRecalculated(c, once) == once && CountOf(c, once) == 0
  {
    var once := AllRecalculated(c, users);
    forall i | 0 <= i < |users| ensures AllRecalculated(c, once)[i] == once[i] && !Counts(c, once[i]) {
      UserAt(c, users, i);
      UserAt(c, once, i);
      RecalculatedTwice(c, users[i]);
    }
    NothingCounts(c, once);
  }

  /** A dry run that reports no change promises that a real run changes nobody's role, scope or domains. */
  lemma {:induction false} NoChangeReportedIff(c: Context, users: seq<User>)
    ensures CountOf(c, users) == 0 <==>
            forall i :: 0 <= i < |users| ==>
              var before, after := users[i], AllRecalculated(c, users)[i];
              && before.role == after.role && before.scope == after.scope
              && ListIn(before.settings.domains) == ListIn(after.settings.domains)
  {
    NothingCounts(c, users);
    forall i | 0 <= i < |users|
      ensures !Counts(c, users[i]) <==>
              && users[i].role == AllRecalculated(c, users)[i].role
              && users[i].scope == AllRecalculated(c, users)[i].scope
              && ListIn(users[i].settings.domains) == ListIn(AllRecalculated(c, users)[i].settings.domains)
    {
      UserAt(c, users, i);
    }
  }

  /** Nothing is left to write: the access fits, every key is there, a source is named, and the names, the
      rules and the resources are those of the profile. */
  predicate Settled(c: Context, u: User) {
    && !Counts(c, u)
    && u.settings.source.Is? && u.settings.source.value != "" && u.settings.syncedAt.Is?
    && u.settings.departmentIds.Is? && u.settings.departmentNames == Is(NamesOf(c, u))
    && !u.settings.email.Absent? && !u.settings.jobTitle.Absent? && !u.settings.status.Absent?
    && u.settings.domains.Is?
    && u.settings.tags == Is(ProfileOfUser(c, u).tags) && u.settings.resources == Is(ProfileOfUser(c, u).resources)
  }

  /** A real run leaves a row as it is if and only if it skips the user or nothing is left to write; so an
      uncounted row can be rewritten. */
  lemma RowStaysIff(c: Context, u: User)
    ensures Recalculated(c, u) == u <==> Skips(c, u) || Settled(c, u)
  {
  }

  /** And it leaves the whole table as it is if and only if that holds of every user. */
  lemma {:induction false} TableStaysIff(c: Context, users: seq<User>)
    ensures AllRecalculated(c, users) == users <==> forall u <- users :: Skips(c, u) || Settled(c, u)
  {
    forall i | 0 <= i < |users|
      ensures AllRecalculated(c, users)[i] == users[i] <==> Skips(c, users[i]) || Settled(c, users[i])
    {
      UserAt(c, users, i);
      RowStaysIff(c, users[i]);
    }
    if AllRecalculated(c, users) == users {
      forall u | u in users ensures Skips(c, u) || Settled(c, u) {
        var i :| 0 <= i < |users| && users[i] == u;
      }
    }
  }

  /** It happens: whose settings name no source is rewritten, though the report counts no change. */
  lemma {:induction false} UncountedRowIsRewritten(c: Context, u: User)
    requires !Skips(c, u) && !Counts(c, u) && !u.settings.source.Is?
    ensures AllRecalculated(c, [u]) != [u] && CountOf(c, [u]) == 0
  {
    assert [u][..0] == [];
    UserAt(c, [u], 0);
    RowStaysIff(c, u);
  }
}
