/** Inferring a bot user's role and domains from their name, title, mail and departments. */
module Permissions {
  import opened Lists
  import opened Options
  import opened Text

  datatype Domain =
    | All | Finance | Sales | Rd | Quality | SupplyChain | Hr | Administration | Approval
    | OtherDomain(name: string)

  datatype Role = Owner | Admin | Manager | Member | OtherRole(name: string)

  datatype Scope = Company | DomainScope | Chat | OtherScope(name: string)

  datatype Tag = CompanyAdmin | DomainManager | DefaultMember | MatchedDomain(domain: Domain)

  datatype Rule = Rule(domain: Domain, labels: seq<string>, resources: seq<string>)

  /** DOMAIN_RULES in order, the two term lists, and the resources an admin always gets. */
  datatype Tables = Tables(
    rules: seq<Rule>, adminTerms: seq<string>, managerTerms: seq<string>, adminResources: seq<string>)

  datatype Profile = Profile(role: Role, scope: Scope, domains: seq<Domain>, tags: seq<Tag>, resources: seq<string>)

  datatype Person = Person(displayName: Option<string>, jobTitle: Option<string>, email: Option<string>)

  // ---- the text that is searched ----

  function OrEmpty(s: Option<string>): string {
    if s.Some? then s.value else ""
  }

  /** " ".join(items). */
  function Join(items: seq<string>): string {
    if items == [] then ""
    else if |items| == 1 then items[0]
    else Join(items[..|items| - 1]) + " " + items[|items| - 1]
  }

  function SearchText(p: Person, departments: seq<string>): string {
    Join(NonEmpty([OrEmpty(p.displayName), OrEmpty(p.jobTitle), OrEmpty(p.email)] + [Join(departments)]))
  }

  /** str.lower(), one character at a time. */
  function LowerBy(lower: char -> string, s: string): string {
    if s == "" then "" else LowerBy(lower, s[..|s| - 1]) + lower(s[|s| - 1])
  }

  predicate AnyIn(lower: char -> string, parts: seq<string>, lowered: string) {
    exists part <- parts :: Contains(lowered, LowerBy(lower, part))
  }

  // ---- the profile ----

  /** The rules with a label in the text, in table order. */
  function Matching(rules: seq<Rule>, lower: char -> string, lowered: string): seq<Rule> {
    if rules == [] then []
    else
      var last := rules[|rules| - 1];
      Matching(rules[..|rules| - 1], lower, lowered) + (if AnyIn(lower, last.labels, lowered) then [last] else [])
  }

  function DomainsOf(rules: seq<Rule>): seq<Domain> {
    seq(|rules|, i requires 0 <= i < |rules| => rules[i].domain)
  }

  function TagsOf(domains: seq<Domain>): seq<Tag> {
    seq(|domains|, i requires 0 <= i < |domains| => MatchedDomain(domains[i]))
  }

  function ResourcesOf(rules: seq<Rule>): seq<string> {
    if rules == [] then [] else ResourcesOf(rules[..|rules| - 1]) + rules[|rules| - 1].resources
  }

  function RoleFor(t: Tables, lower: char -> string, lowered: string): Role {
    if AnyIn(lower, t.adminTerms, lowered) then Admin
    else if Matching(t.rules, lower, lowered) != [] && AnyIn(lower, t.managerTerms, lowered) then Manager
    else Member
  }

  function ProfileFor(t: Tables, lower: char -> string, lowered: string): Profile {
    var matched := Matching(t.rules, lower, lowered);
    var domains, resources := DomainsOf(matched), ResourcesOf(matched);
    match RoleFor(t, lower, lowered)
    case Admin =>
      Profile(Admin, Company, Distinct([All] + domains), Distinct([CompanyAdmin] + TagsOf(domains)),
              Distinct(NonBlank(t.adminResources + resources)))
    case Manager =>
      Profile(Manager, DomainScope, Distinct(domains + if Finance in domains then [Approval] else []),
              Distinct([DomainManager] + TagsOf(domains)), Distinct(NonBlank(resources)))
    case _ =>
      Profile(Member, Chat, Distinct(domains), Distinct(if domains != [] then TagsOf(domains) else [DefaultMember]), [])
  }

  function ProfileOf(t: Tables, lower: char -> string, p: Person, departments: seq<string>): Profile {
    ProfileFor(t, lower, LowerBy(lower, SearchText(p, departments)))
  }

  /** _unique: the names stripped, without the empty ones, each once, in order of first appearance. */
  method UniqueNames(items: seq<string>) returns (result: seq<string>)
    ensures result == Distinct(NonBlank(items))
  {
    hide Strip;
    result := [];
    for i := 0 to |items|
      invariant result == Distinct(NonBlank(items[..i]))
    {
      assert items[..i + 1][..i] == items[..i];
      var value := Strip(items[i]);
      ghost var before := NonBlank(items[..i]);
      assert (before + [value])[..|before|] == before && before + [] == before;
      if value != "" && value !in result { result := result + [value]; }
    }
    assert items[..|items|] == items;
  }

  /** _unique on domains and tags, whose names have no blanks around them. */
  method Unique<T(==)>(items: seq<T>) returns (result: seq<T>)
    ensures result == Distinct(items)
  {
    result := [];
    for i := 0 to |items|
      invariant result == Distinct(items[..i])
    {
      assert items[..i + 1][..i] == items[..i];
      if items[i] !in result { result := result + [items[i]]; }
    }
    assert items[..|items|] == items;
  }

  lemma OneMoreMatch(matched: seq<Rule>, rule: Rule)
    ensures DomainsOf(matched + [rule]) == DomainsOf(matched) + [rule.domain]
    ensures ResourcesOf(matched + [rule]) == ResourcesOf(matched) + rule.resources
    ensures TagsOf(DomainsOf(matched + [rule])) == TagsOf(DomainsOf(matched)) + [MatchedDomain(rule.domain)]
  {
    assert (matched + [rule])[..|matched|] == matched;
    assert DomainsOf(matched + [rule]) == DomainsOf(matched) + [rule.domain];
  }

  /** The loop over the rules, which fills three lists side by side. */
  method MatchRules(rules: seq<Rule>, lower: char -> string, lowered: string)
    returns (domains: seq<Domain>, tags: seq<Tag>, resources: seq<string>)
    ensures domains == DomainsOf(Matching(rules, lower, lowered))
    ensures tags == TagsOf(domains)
    ensures resources == ResourcesOf(Matching(rules, lower, lowered))
  {
    domains, tags, resources := [], [], [];
    ghost var matched := [];
    for i := 0 to |rules|
      invariant matched == Matching(rules[..i], lower, lowered)
      invariant domains == DomainsOf(matched) && tags == TagsOf(DomainsOf(matched)) && resources == ResourcesOf(matched)
    {
      var rule := rules[i];
      assert rules[..i + 1][..i] == rules[..i];
      if AnyIn(lower, rule.labels, lowered) {
        OneMoreMatch(matched, rule);
        matched := matched + [rule];
        domains := domains + [rule.domain];
        tags := tags + [MatchedDomain(rule.domain)];
        resources := resources + rule.resources;
      }
    }
    assert rules[..|rules|] == rules;
  }

  /** infer_permission_profile. */
  method InferPermissionProfile(t: Tables, lower: char -> string, p: Person, departments: seq<string>)
    returns (profile: Profile)
    ensures profile == ProfileOf(t, lower, p, departments)
  {
    var lowered := LowerBy(lower, SearchText(p, departments));
    var domains, tags, resources := MatchRules(t.rules, lower, lowered);
    if AnyIn(lower, t.adminTerms, lowered) {
      domains := Unique([All] + domains);
      tags := Unique([CompanyAdmin] + tags);
      resources := UniqueNames(t.adminResources + resources);
      return Profile(Admin, Company, domains, tags, resources);
    }
    if domains != [] && AnyIn(lower, t.managerTerms, lowered) {
      tags := Unique([DomainManager] + tags);
      domains := Unique(domains + if Finance in domains then [Approval] else []);
      resources := UniqueNames(resources);
      return Profile(Manager, DomainScope, domains, tags, resources);
    }
    tags := Unique(if tags != [] then tags else [DefaultMember]);
    domains := Unique(domains);
    return Profile(Member, Chat, domains, tags, []);
  }

  /** question_allowed_by_domains, with the question already lower-cased. */
  predicate QuestionAllowed(t: Tables, lower: char -> string, question: string, domains: seq<Domain>) {
    All in domains || exists rule <- t.rules :: rule.domain in domains && AnyIn(lower, rule.labels, question)
  }

  // ---- what is searched ----

  lemma {:induction false} JoinHolds(items: seq<string>, item: string)
    requires item in items
    ensures Contains(Join(items), item)
  {
    var n := |items| - 1;
    assert items == items[..n] + [items[n]];
    if n > 0 && item != items[n] {
      JoinHolds(items[..n], item);
      ContainsBefore(Join(items[..n]), " " + items[n], item);
      assert Join(items[..n]) + (" " + items[n]) == Join(items);
    } else if n > 0 {
      ContainsBetween(Join(items[..n]) + " ", item, "");
      assert Join(items[..n]) + " " + item + "" == Join(items);
    } else {
      assert Join(items) == item;
    }
  }

  lemma {:induction false} NonEmptyHolds(items: seq<string>, item: string)
    requires item in items && item != ""
    ensures item in NonEmpty(items)
  {
    var n := |items| - 1;
    assert items == items[..n] + [items[n]];
    if item != items[n] { NonEmptyHolds(items[..n], item); }
  }

  /** A text of the person or of a department. */
  predicate Describes(p: Person, departments: seq<string>, text: string) {
    p.displayName == Some(text) || p.jobTitle == Some(text) || p.email == Some(text) || text in departments
  }

  /** Whatever is in a name, a title, a mail address or a department is in the searched text. */
  lemma SearchTextHolds(p: Person, departments: seq<string>, text: string, part: string)
    requires Describes(p, departments, text) && Contains(text, part) && part != ""
    ensures Contains(SearchText(p, departments), part)
  {
    var items := [OrEmpty(p.displayName), OrEmpty(p.jobTitle), OrEmpty(p.email)] + [Join(departments)];
    var item := text;
    if text in departments {
      JoinHolds(departments, text);
      Nested(Join(departments), text, part);
      item := Join(departments);
    }
    assert items[0] in items && items[1] in items && items[2] in items && items[3] in items;
    NonEmptyHolds(items, item);
    JoinHolds(NonEmpty(items), item);
    Nested(SearchText(p, departments), item, part);
  }

  lemma Nested(s: string, middle: string, part: string)
    requires Contains(s, middle) && Contains(middle, part)
    ensures Contains(s, part)
  {
    var front, back := ContainsSplit(s, middle);
    ContainsAfter(front, middle, part);
    ContainsBefore(front + middle, back, part);
  }

  lemma {:induction false} LowerOfBoth(lower: char -> string, a: string, b: string)
    ensures LowerBy(lower, a + b) == LowerBy(lower, a) + LowerBy(lower, b)
  {
    if b == "" {
      assert a + b == a;
    } else {
      LowerOfBoth(lower, a, b[..|b| - 1]);
      assert (a + b)[..|a + b| - 1] == a + b[..|b| - 1];
    }
  }

  lemma LowerHolds(lower: char -> string, s: string, part: string)
    requires Contains(s, part)
    ensures Contains(LowerBy(lower, s), LowerBy(lower, part))
  {
    var front, back := ContainsSplit(s, part);
    LowerOfBoth(lower, front, part);
    LowerOfBoth(lower, front + part, back);
    ContainsBetween(LowerBy(lower, front), LowerBy(lower, part), LowerBy(lower, back));
  }

  /** A term that stands anywhere in a name, a title, a mail address or a department is found. */
  lemma TermIsFound(
    lower: char -> string, p: Person, departments: seq<string>, text: string, terms: seq<string>, term: string)
    requires Describes(p, departments, text) && Contains(text, term) && term != "" && term in terms
    ensures AnyIn(lower, terms, LowerBy(lower, SearchText(p, departments)))
  {
    SearchTextHolds(p, departments, text, term);
    LowerHolds(lower, SearchText(p, departments), term);
  }

  // ---- appending a department ----

  lemma {:induction false} JoinGrows(items: seq<string>, item: string)
    ensures Join(items) <= Join(items + [item])
  {
    assert (items + [item])[..|items|] == items;
    if items == [] { assert Join([item]) == item; }
  }

  lemma JoinGrowsInPlace(items: seq<string>, shorter: string, longer: string)
    requires shorter <= longer
    ensures Join(items + [shorter]) <= Join(items + [longer])
  {
    assert (items + [shorter])[..|items|] == items && (items + [longer])[..|items|] == items;
  }

  /** One more department only adds to the end of the searched text. */
  lemma SearchTextGrows(p: Person, departments: seq<string>, department: string)
    ensures SearchText(p, departments) <= SearchText(p, departments + [department])
  {
    var head := [OrEmpty(p.displayName), OrEmpty(p.jobTitle), OrEmpty(p.email)];
    var before, after := Join(departments), Join(departments + [department]);
    JoinGrows(departments, department);
    assert (head + [before])[..3] == head && (head + [after])[..3] == head;
    if before == "" {
      assert NonEmpty(head) + [] == NonEmpty(head);
      JoinGrows(NonEmpty(head), after);
    } else {
      JoinGrowsInPlace(NonEmpty(head), before, after);
    }
  }

  lemma {:induction false} LowerKeepsPrefix(lower: char -> string, s: string, t: string)
    requires s <= t
    ensures LowerBy(lower, s) <= LowerBy(lower, t)
  {
    if s != t {
      assert s <= t[..|t| - 1];
      LowerKeepsPrefix(lower, s, t[..|t| - 1]);
    }
  }

  lemma {:induction false} LongerContains(s: string, t: string, part: string)
    requires s <= t && Contains(s, part)
    ensures Contains(t, part)
  {
    if !(part <= s) {
      assert s[1..] <= t[1..];
      LongerContains(s[1..], t[1..], part);
    }
  }

  lemma LongerMatches(lower: char -> string, parts: seq<string>, s: string, t: string)
    requires s <= t && AnyIn(lower, parts, s)
    ensures AnyIn(lower, parts, t)
  {
    var part :| part in parts && Contains(s, LowerBy(lower, part));
    LongerContains(s, t, LowerBy(lower, part));
  }

  lemma {:induction false} MatchingIs(rules: seq<Rule>, lower: char -> string, lowered: string)
    ensures forall rule ::
              rule in Matching(rules, lower, lowered) <==> rule in rules && AnyIn(lower, rule.labels, lowered)
  {
    if rules != [] {
      MatchingIs(rules[..|rules| - 1], lower, lowered);
      assert rules == rules[..|rules| - 1] + [rules[|rules| - 1]];
    }
  }

  lemma DomainsAre(rules: seq<Rule>)
    ensures forall d :: d in DomainsOf(rules) <==> exists rule <- rules :: rule.domain == d
  {
    forall d | exists rule <- rules :: rule.domain == d ensures d in DomainsOf(rules) {
      var i :| 0 <= i < |rules| && rules[i].domain == d;
      assert DomainsOf(rules)[i] == d;
    }
  }

  /** The domains of the labels found in the text. */
  ghost predicate Found(t: Tables, lower: char -> string, lowered: string, d: Domain) {
    exists rule <- t.rules :: rule.domain == d && AnyIn(lower, rule.labels, lowered)
  }

  lemma MatchedIsFound(t: Tables, lower: char -> string, lowered: string)
    ensures forall d :: d in DomainsOf(Matching(t.rules, lower, lowered)) <==> Found(t, lower, lowered, d)
    ensures (exists d :: Found(t, lower, lowered, d)) <==> Matching(t.rules, lower, lowered) != []
  {
    var matched := Matching(t.rules, lower, lowered);
    MatchingIs(t.rules, lower, lowered);
    DomainsAre(matched);
    if matched != [] { assert matched[0] in matched && Found(t, lower, lowered, matched[0].domain); }
  }

  /** A profile lists the domains found, "all" for an admin, and "approval" for a finance manager. */
  lemma ProfileDomains(t: Tables, lower: char -> string, lowered: string)
    ensures var p := ProfileFor(t, lower, lowered);
            && NoRepeats(p.domains)
            && forall d :: d in p.domains <==>
                 || Found(t, lower, lowered, d)
                 || (p.role == Admin && d == All)
                 || (p.role == Manager && d == Approval && Found(t, lower, lowered, Finance))
  {
    var domains := DomainsOf(Matching(t.rules, lower, lowered));
    MatchedIsFound(t, lower, lowered);
    DistinctFacts(domains);
    DistinctFacts([All] + domains);
    DistinctFacts(domains + if Finance in domains then [Approval] else []);
  }

  /** One of the terms, lower-cased, is in the text. */
  ghost predicate Mentions(lower: char -> string, terms: seq<string>, lowered: string) {
    exists term <- terms :: Contains(lowered, LowerBy(lower, term))
  }

  /** Role and scope: whoever an admin term is found of sees the company, a manager the domains found, if there
      are any, and everybody else the chat they are in. No inference makes an owner. */
  lemma RoleAndScope(t: Tables, lower: char -> string, lowered: string)
    ensures var p := ProfileFor(t, lower, lowered);
            var admin, manager := Mentions(lower, t.adminTerms, lowered),
                                  Mentions(lower, t.managerTerms, lowered) && exists d :: Found(t, lower, lowered, d);
            && p.role == (if admin then Admin else if manager then Manager else Member)
            && p.scope == (if admin then Company else if manager then DomainScope else Scope.Chat)
  {
    MatchedIsFound(t, lower, lowered);
  }

  /** So a title, a department, a name or an address with an admin term makes an admin of the company. */
  lemma AdminTermMakesAdmin(
    t: Tables, lower: char -> string, p: Person, departments: seq<string>, text: string, term: string)
    requires Describes(p, departments, text) && Contains(text, term) && term != "" && term in t.adminTerms
    ensures var profile := ProfileOf(t, lower, p, departments);
            profile.role == Admin && profile.scope == Company && All in profile.domains
  {
    TermIsFound(lower, p, departments, text, t.adminTerms, term);
    hide Contains, SearchText, LowerBy;
    RoleAndScope(t, lower, LowerBy(lower, SearchText(p, departments)));
    ProfileDomains(t, lower, LowerBy(lower, SearchText(p, departments)));
  }

  /** Tags: one for each domain found, and one for the role, which a member has only when nothing is found. */
  lemma ProfileTags(t: Tables, lower: char -> string, lowered: string)
    ensures var p := ProfileFor(t, lower, lowered);
            && NoRepeats(p.tags)
            && (CompanyAdmin in p.tags <==> p.role == Admin)
            && (DomainManager in p.tags <==> p.role == Manager)
            && (DefaultMember in p.tags <==> p.role == Member && !exists d :: Found(t, lower, lowered, d))
            && (forall d :: MatchedDomain(d) in p.tags <==> Found(t, lower, lowered, d))
  {
    var domains := DomainsOf(Matching(t.rules, lower, lowered));
    MatchedIsFound(t, lower, lowered);
    TagsAre(domains);
    hide Found, Matching, AnyIn, TagsOf, ResourcesOf, NonBlank, Distinct, RoleFor;
    DistinctFacts(TagsOf(domains));
    DistinctFacts([CompanyAdmin] + TagsOf(domains));
    DistinctFacts([DomainManager] + TagsOf(domains));
    DistinctFacts([DefaultMember]);
    if domains != [] { assert domains[0] in domains; }
  }

  lemma TagsAre(domains: seq<Domain>)
    ensures forall tag :: tag in TagsOf(domains) <==> tag.MatchedDomain? && tag.domain in domains
  {
    forall d | d in domains ensures MatchedDomain(d) in TagsOf(domains) {
      var i :| 0 <= i < |domains| && domains[i] == d;
      assert TagsOf(domains)[i] == MatchedDomain(d);
    }
  }

  /** Resources: what the rules found allow, and what an admin always has; none for a member. */
  lemma ProfileResources(t: Tables, lower: char -> string, lowered: string)
    ensures var p := ProfileFor(t, lower, lowered);
            && NoRepeats(p.resources)
            && forall name :: name in p.resources <==>
                 && name != "" && p.role != Member
                 && (|| (p.role == Admin && exists given <- t.adminResources :: Strip(given) == name)
                     || exists rule <- t.rules :: Mentions(lower, rule.labels, lowered) &&
                                                  exists given <- rule.resources :: Strip(given) == name)
  {
    hide Strip, Contains;
    var matched := Matching(t.rules, lower, lowered);
    var given := ResourcesOf(matched);
    MatchingIs(t.rules, lower, lowered);
    ResourcesAre(matched);
    NonBlankIs(given);
    NonBlankIs(t.adminResources + given);
    DistinctFacts(NonBlank(given));
    DistinctFacts(NonBlank(t.adminResources + given));
    hide NonBlank, Distinct, ResourcesOf, Matching, RoleFor, TagsOf, DomainsOf;
  }

  lemma {:induction false} ResourcesAre(rules: seq<Rule>)
    ensures forall name :: name in ResourcesOf(rules) <==> exists rule <- rules :: name in rule.resources
  {
    if rules != [] {
      ResourcesAre(rules[..|rules| - 1]);
      assert rules == rules[..|rules| - 1] + [rules[|rules| - 1]];
    }
  }

  function Rank(r: Role): nat {
    match r
    case Admin => 2
    case Manager => 1
    case _ => 0
  }

  lemma LongerFinds(t: Tables, lower: char -> string, s: string, longer: string)
    requires s <= longer
    ensures forall d :: Found(t, lower, s, d) ==> Found(t, lower, longer, d)
    ensures Rank(RoleFor(t, lower, s)) <= Rank(RoleFor(t, lower, longer))
  {
    forall rule | rule in t.rules && AnyIn(lower, rule.labels, s) ensures AnyIn(lower, rule.labels, longer) {
      LongerMatches(lower, rule.labels, s, longer);
    }
    if AnyIn(lower, t.adminTerms, s) { LongerMatches(lower, t.adminTerms, s, longer); }
    if AnyIn(lower, t.managerTerms, s) { LongerMatches(lower, t.managerTerms, s, longer); }
    MatchedIsFound(t, lower, s);
    MatchedIsFound(t, lower, longer);
    assert Matching(t.rules, lower, s) != [] ==> Matching(t.rules, lower, longer) != [] by {
      if d :| Found(t, lower, s, d) { assert Found(t, lower, longer, d); }
    }
  }

  /** One more department never lowers the role: member, then manager, then admin. */
  lemma RoleNeverDrops(t: Tables, lower: char -> string, p: Person, departments: seq<string>, department: string)
    ensures Rank(ProfileOf(t, lower, p, departments).role) <=
            Rank(ProfileOf(t, lower, p, departments + [department]).role)
  {
    var s, longer := SearchText(p, departments), SearchText(p, departments + [department]);
    SearchTextGrows(p, departments, department);
    LowerKeepsPrefix(lower, s, longer);
    LongerFinds(t, lower, LowerBy(lower, s), LowerBy(lower, longer));
  }

  /** A finance manager whom one more department makes an admin, with no label of approvals in the text. */
  ghost predicate LosesApproval(t: Tables, lower: char -> string, before: string, after: string) {
    && RoleFor(t, lower, before) == Manager && RoleFor(t, lower, after) == Admin
    && Found(t, lower, before, Finance) && !Found(t, lower, after, Approval)
  }

  ghost predicate Loses(before: Profile, after: Profile, d: Domain) {
    d in before.domains && d !in after.domains
  }

  lemma LostDomain(t: Tables, lower: char -> string, s: string, longer: string, d: Domain)
    requires s <= longer
    ensures Loses(ProfileFor(t, lower, s), ProfileFor(t, lower, longer), d) <==>
            d == Approval && LosesApproval(t, lower, s, longer)
  {
    LongerFinds(t, lower, s, longer);
    ProfileDomains(t, lower, s);
    ProfileDomains(t, lower, longer);
  }

  /** One more department can take a domain away, and exactly then: the one it takes is "approval", which
      a finance manager has without a label and an admin has not. */
  lemma DomainIsLostIff(
    t: Tables, lower: char -> string, p: Person, departments: seq<string>, department: string, d: Domain)
    ensures Loses(ProfileOf(t, lower, p, departments), ProfileOf(t, lower, p, departments + [department]), d) <==>
            && d == Approval
            && LosesApproval(t, lower, LowerBy(lower, SearchText(p, departments)),
                             LowerBy(lower, SearchText(p, departments + [department])))
  {
    var s, longer := SearchText(p, departments), SearchText(p, departments + [department]);
    SearchTextGrows(p, departments, department);
    LowerKeepsPrefix(lower, s, longer);
    LostDomain(t, lower, LowerBy(lower, s), LowerBy(lower, longer), d);
  }

  /** What a user may ask never shrinks, whatever happens to the list: who loses "approval" gains "all". */
  lemma AccessNeverNarrows(
    t: Tables, lower: char -> string, p: Person, departments: seq<string>, department: string, question: string)
    requires QuestionAllowed(t, lower, question, ProfileOf(t, lower, p, departments).domains)
    ensures QuestionAllowed(t, lower, question, ProfileOf(t, lower, p, departments + [department]).domains)
  {
    var before, after := ProfileOf(t, lower, p, departments), ProfileOf(t, lower, p, departments + [department]);
    ProfileDomains(t, lower, LowerBy(lower, SearchText(p, departments + [department])));
    if All !in after.domains {
      forall d | d in before.domains ensures d in after.domains {
        DomainIsLostIff(t, lower, p, departments, department, d);
      }
    }
  }
}
