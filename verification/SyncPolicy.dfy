/** Sync policies: normalising what is stored, updating one, and which companies a tick goes through. */
module SyncPolicy {
  import opened Lists
  import opened Options
  import opened Text

  /** str() of what is neither text nor a list, which is never empty. */
  type Shown = s: string | s != "" witness "0"

  /** A JSON value as the normalisation meets it. A list is given by the str() of its elements; `Other` is
      a float or an object, with its int(), its truth and its str(). */
  datatype Value =
    | Null | Bool(b: bool) | Int(n: int) | Str(s: string) | Items(items: seq<string>)
    | Other(number: Option<int>, truthy: bool, text: Shown)

  predicate Truthy(v: Value) {
    match v
    case Null => false
    case Bool(b) => b
    case Int(n) => n != 0
    case Str(s) => s != ""
    case Items(items) => items != []
    case Other(_, truthy, _) => truthy
  }

  /** The keys of a policy dictionary; one that is absent is `None`. */
  datatype Raw = Raw(
    enabled: Option<Value>, interval: Option<Value>, limit: Option<Value>, eventLimit: Option<Value>,
    maxPages: Option<Value>, resourceTypes: Option<Value>, statuses: Option<Value>, extractItems: Option<Value>,
    documentMode: Option<Value>, bitableMode: Option<Value>, memoryMode: Option<Value>, vectorMode: Option<Value>,
    source: Option<Value>)

  datatype Policy = Policy(
    enabled: bool, interval: int, limit: int, eventLimit: int, maxPages: int, resourceTypes: seq<string>,
    statuses: seq<string>, extractItems: bool, documentMode: string, bitableMode: string, memoryMode: string,
    vectorMode: string, source: string)

  /** int() on text and str() on what carries no text of its own; the settings' own policy; the four fallback mode names
      and the fallback source. */
  datatype Context = Context(
    parse: string -> Option<int>, show: Value -> string, defaults: Policy,
    documentMode: string, bitableMode: string, memoryMode: string, vectorMode: string, source: string)

  /** str() of a truthy value is never empty, and the fallback names are not. */
  ghost predicate ValidContext(x: Context) {
    && (forall v: Value :: !v.Str? ==> x.show(v) != "")
    && x.documentMode != "" && x.bitableMode != "" && x.memoryMode != "" && x.vectorMode != "" && x.source != ""
  }

  function Over(base: Option<Value>, top: Option<Value>): Option<Value> {
    if top.Some? then top else base
  }

  /** {**base, **top}. */
  function Merged(base: Raw, top: Raw): Raw {
    Raw(Over(base.enabled, top.enabled), Over(base.interval, top.interval), Over(base.limit, top.limit),
        Over(base.eventLimit, top.eventLimit), Over(base.maxPages, top.maxPages),
        Over(base.resourceTypes, top.resourceTypes), Over(base.statuses, top.statuses),
        Over(base.extractItems, top.extractItems), Over(base.documentMode, top.documentMode),
        Over(base.bitableMode, top.bitableMode), Over(base.memoryMode, top.memoryMode),
        Over(base.vectorMode, top.vectorMode), Over(base.source, top.source))
  }

  /** A policy as the dictionary that is stored. */
  function AsRaw(p: Policy): Raw {
    Raw(Some(Bool(p.enabled)), Some(Int(p.interval)), Some(Int(p.limit)), Some(Int(p.eventLimit)),
        Some(Int(p.maxPages)), Some(Items(p.resourceTypes)), Some(Items(p.statuses)), Some(Bool(p.extractItems)),
        Some(Str(p.documentMode)), Some(Str(p.bitableMode)), Some(Str(p.memoryMode)), Some(Str(p.vectorMode)),
        Some(Str(p.source)))
  }

  function ToInt(x: Context, v: Value): Option<int> {
    match v
    case Bool(b) => Some(if b then 1 else 0)
    case Int(n) => Some(n)
    case Str(s) => x.parse(s)
    case Other(number, _, _) => number
    case _ => None
  }

  function Distance(a: int, b: int): int {
    if a < b then b - a else a - b
  }

  /** int(value), or the default where that fails. */
  function Number(x: Context, v: Option<Value>, otherwise: int): int {
    var given := if v.Some? then ToInt(x, v.value) else None;
    if given.Some? then given.value else otherwise
  }

  function Clamp(x: Context, v: Option<Value>, otherwise: int, low: int, high: int): (n: int)
    requires low <= high
    ensures low <= n <= high
    ensures forall m :: low <= m <= high ==>
              Distance(n, Number(x, v, otherwise)) <= Distance(m, Number(x, v, otherwise))
  {
    var number := Number(x, v, otherwise);
    if number < low then low else if number > high then high else number
  }

  /** text.split(","). */
  function Split(s: string): seq<string> {
    if s == "" then [""]
    else
      var before := Split(s[..|s| - 1]);
      if s[|s| - 1] == ',' then before + [""]
      else if before == [] then [[s[|s| - 1]]]
      else before[..|before| - 1] + [before[|before| - 1] + [s[|s| - 1]]]
  }

  function Names(v: Option<Value>): seq<string> {
    if v.None? then []
    else match v.value
         case Str(s) => Distinct(NonBlank(Split(s)))
         case Items(items) => Distinct(NonBlank(items))
         case _ => []
  }

  /** str(value). */
  function TextOf(x: Context, v: Value): string {
    match v
    case Str(s) => s
    case Other(_, _, text) => text
    case _ => x.show(v)
  }

  function Mode(x: Context, v: Option<Value>, otherwise: string): string {
    if v.None? || !Truthy(v.value) then otherwise else TextOf(x, v.value)
  }

  predicate IsTrue(v: Option<Value>) {
    v.Some? && Truthy(v.value)
  }

  /** normalize_v5_resource_sync_policy. */
  function Normalized(x: Context, raw: Raw): Policy {
    var data := Merged(AsRaw(x.defaults), raw);
    Policy(
      IsTrue(data.enabled),
      Clamp(x, data.interval, 900, 60, 86400),
      Clamp(x, data.limit, 10, 1, 100),
      Clamp(x, data.eventLimit, 20, 1, 200),
      Clamp(x, data.maxPages, 2, 1, 20),
      Names(data.resourceTypes),
      Names(data.statuses),
      IsTrue(data.extractItems),
      Mode(x, data.documentMode, x.documentMode),
      Mode(x, data.bitableMode, x.bitableMode),
      Mode(x, data.memoryMode, x.memoryMode),
      Mode(x, data.vectorMode, x.vectorMode),
      Mode(x, data.source, x.source))
  }

  // ---- what a normal policy is ----

  ghost predicate NormalNames(names: seq<string>) {
    NoRepeats(names) && forall name <- names :: name != "" && Trimmed(name)
  }

  /** In range, with clean lists and named modes. */
  ghost predicate Normal(p: Policy) {
    && 60 <= p.interval <= 86400 && 1 <= p.limit <= 100 && 1 <= p.eventLimit <= 200 && 1 <= p.maxPages <= 20
    && NormalNames(p.resourceTypes) && NormalNames(p.statuses)
    && p.documentMode != "" && p.bitableMode != "" && p.memoryMode != "" && p.vectorMode != "" && p.source != ""
  }

  lemma {:induction false} StripLeftStarts(s: string)
    ensures StripLeft(s) != "" ==> !IsSpace(StripLeft(s)[0])
  {
    if s != "" { StripLeftStarts(s[1..]); }
  }

  lemma {:induction false} StripRightEnds(s: string)
    ensures StripRight(s) <= s
    ensures StripRight(s) != "" ==> !IsSpace(StripRight(s)[|StripRight(s)| - 1])
  {
    if s != "" && IsSpace(s[|s| - 1]) { StripRightEnds(s[..|s| - 1]); }
  }

  lemma StrippedIsTrimmed(s: string)
    ensures Trimmed(Strip(s))
  {
    StripLeftStarts(s);
    StripRightEnds(StripLeft(s));
  }

  lemma {:induction false} CleanIsClean(items: seq<string>)
    ensures forall item <- NonBlank(items) :: item != "" && Trimmed(item)
  {
    if items != [] {
      CleanIsClean(items[..|items| - 1]);
      StrippedIsTrimmed(items[|items| - 1]);
    }
  }

  lemma {:induction false} CleanStays(items: seq<string>)
    requires forall item <- items :: item != "" && Trimmed(item)
    ensures NonBlank(items) == items
  {
    if items != [] {
      var front := items[..|items| - 1];
      forall item | item in front ensures item != "" && Trimmed(item) { assert item in items; }
      CleanStays(front);
      TrimmedIsFixed(items[|items| - 1]);
    }
  }

  lemma {:induction false} DistinctStays(items: seq<string>)
    requires NoRepeats(items)
    ensures Distinct(items) == items
  {
    if items != [] {
      var front := items[..|items| - 1];
      DistinctStays(front);
      assert forall i :: 0 <= i < |front| ==> items[i] != items[|items| - 1];
    }
  }

  lemma NamesAreNormal(v: Option<Value>)
    ensures NormalNames(Names(v))
  {
    if v.Some? && (v.value.Str? || v.value.Items?) {
      var items := if v.value.Str? then Split(v.value.s) else v.value.items;
      CleanIsClean(items);
      DistinctFacts(NonBlank(items));
    }
  }

  lemma NormalNamesStay(names: seq<string>)
    requires NormalNames(names)
    ensures Names(Some(Items(names))) == names
  {
    CleanStays(names);
    DistinctStays(names);
  }

  /** Whatever was stored, the policy in force is in range and clean. */
  lemma NormalizedIsNormal(x: Context, raw: Raw)
    requires ValidContext(x)
    ensures Normal(Normalized(x, raw))
  {
    var data := Merged(AsRaw(x.defaults), raw);
    NamesAreNormal(data.resourceTypes);
    NamesAreNormal(data.statuses);
  }

  /** `after` is a number of the range: the given one where it is in it, the nearer end where it is not, the
      policy's own when no value is given, and the fixed default when the value is not a number. */
  predicate ReadsNumber(v: Option<Value>, own: int, fixed: int, low: int, high: int, after: int) {
    && low <= after <= high
    && (v.Some? && v.value.Int? ==>
          after == if v.value.n < low then low else if v.value.n > high then high else v.value.n)
    && (v == Some(Null) || (v.Some? && v.value.Items?) ==> after == fixed)
    && (v.None? ==> after == if own < low then low else if own > high then high else own)
  }

  /** Python's truth of the value, or what is in force when none is given. */
  predicate IsOn(v: Option<Value>, own: bool) {
    match v
    case None => own
    case Some(Null) => false
    case Some(Bool(b)) => b
    case Some(Int(n)) => n != 0
    case Some(Str(s)) => |s| > 0
    case Some(Items(items)) => |items| > 0
    case Some(Other(_, truthy, _)) => truthy
  }

  /** A given text counts, an empty value gives the fallback, and nothing given leaves the policy's own. */
  predicate ReadsMode(v: Option<Value>, own: string, fallback: string, after: string) {
    && (v.Some? && v.value.Str? && v.value.s != "" ==> after == v.value.s)
    && (v.Some? && !IsOn(v, false) ==> after == fallback)
    && (v.None? ==> after == if own == "" then fallback else own)
  }

  /** Every key of the stored policy is read for its own column. */
  lemma NormalizedByColumns(x: Context, raw: Raw)
    ensures var p, own := Normalized(x, raw), x.defaults;
            && ReadsNumber(raw.interval, own.interval, 900, 60, 86400, p.interval)
            && ReadsNumber(raw.limit, own.limit, 10, 1, 100, p.limit)
            && ReadsNumber(raw.eventLimit, own.eventLimit, 20, 1, 200, p.eventLimit)
            && ReadsNumber(raw.maxPages, own.maxPages, 2, 1, 20, p.maxPages)
            && ReadsMode(raw.documentMode, own.documentMode, x.documentMode, p.documentMode)
            && ReadsMode(raw.bitableMode, own.bitableMode, x.bitableMode, p.bitableMode)
            && ReadsMode(raw.memoryMode, own.memoryMode, x.memoryMode, p.memoryMode)
            && ReadsMode(raw.vectorMode, own.vectorMode, x.vectorMode, p.vectorMode)
            && ReadsMode(raw.source, own.source, x.source, p.source)
            && p.enabled == IsOn(raw.enabled, own.enabled)
            && p.extractItems == IsOn(raw.extractItems, own.extractItems)
            && (raw.resourceTypes.Some? && raw.resourceTypes.value.Items? ==>
                  forall name :: name in p.resourceTypes <==>
                    name != "" && exists item <- raw.resourceTypes.value.items :: Strip(item) == name)
            && (raw.statuses.Some? && raw.statuses.value.Items? ==>
                  forall name :: name in p.statuses <==>
                    name != "" && exists item <- raw.statuses.value.items :: Strip(item) == name)
  {
    hide Names, Split;
    NumbersByColumns(x, raw);
    ModesByColumns(x, raw);
    if raw.resourceTypes.Some? { NamesByColumns(raw.resourceTypes.value); }
    if raw.statuses.Some? { NamesByColumns(raw.statuses.value); }
    hide ReadsNumber, ReadsMode, Clamp, Mode, Strip;
  }

  lemma NumbersByColumns(x: Context, raw: Raw)
    ensures var p, own := Normalized(x, raw), x.defaults;
            && ReadsNumber(raw.interval, own.interval, 900, 60, 86400, p.interval)
            && ReadsNumber(raw.limit, own.limit, 10, 1, 100, p.limit)
            && ReadsNumber(raw.eventLimit, own.eventLimit, 20, 1, 200, p.eventLimit)
            && ReadsNumber(raw.maxPages, own.maxPages, 2, 1, 20, p.maxPages)
  {
    hide Names, Mode, Split;
  }

  lemma ModesByColumns(x: Context, raw: Raw)
    ensures var p, own := Normalized(x, raw), x.defaults;
            && ReadsMode(raw.documentMode, own.documentMode, x.documentMode, p.documentMode)
            && ReadsMode(raw.bitableMode, own.bitableMode, x.bitableMode, p.bitableMode)
            && ReadsMode(raw.memoryMode, own.memoryMode, x.memoryMode, p.memoryMode)
            && ReadsMode(raw.vectorMode, own.vectorMode, x.vectorMode, p.vectorMode)
            && ReadsMode(raw.source, own.source, x.source, p.source)
  {
    hide Names, Clamp, Split;
  }

  lemma NamesByColumns(v: Value)
    ensures v.Items? ==> forall name :: name in Names(Some(v)) <==>
              name != "" && exists item <- v.items :: Strip(item) == name
  {
    if v.Items? {
      NonBlankIs(v.items);
      DistinctFacts(NonBlank(v.items));
    }
  }

  /** A normal policy is read back as it is. */
  lemma NormalIsFixed(x: Context, p: Policy)
    requires Normal(p)
    ensures Normalized(x, AsRaw(p)) == p
  {
    NormalNamesStay(p.resourceTypes);
    NormalNamesStay(p.statuses);
  }

  /** Normalising is idempotent, also when the settings' own policy has changed in between. */
  lemma NormalizingTwice(x: Context, later: Context, raw: Raw)
    requires ValidContext(x)
    ensures Normalized(later, AsRaw(Normalized(x, raw))) == Normalized(x, raw)
  {
    NormalizedIsNormal(x, raw);
    NormalIsFixed(later, Normalized(x, raw));
  }

  /** Whoever reads the normalised policy, now or later, reads what was written. */
  lemma ReadsBack(x: Context, raw: Raw)
    requires ValidContext(x)
    ensures Normal(Normalized(x, raw))
    ensures forall later: Context :: Normalized(later, AsRaw(Normalized(x, raw))) == Normalized(x, raw)
  {
    NormalizedIsNormal(x, raw);
    forall later: Context ensures Normalized(later, AsRaw(Normalized(x, raw))) == Normalized(x, raw) {
      NormalizingTwice(x, later, raw);
    }
  }

  // ---- the stored policies ----

  const NOTHING := Raw(None, None, None, None, None, None, None, None, None, None, None, None, None)

  const CONSOLE := "console"

  /** {**current, **data, "source": "console"}. */
  function Edited(current: Policy, data: Raw): Raw {
    Merged(AsRaw(current), data).(source := Some(Str(CONSOLE)))
  }

  /** An update replaces the columns it brings, keeps every other one of the policy in force, and is marked as
      made in the console. */
  lemma EditedByColumns(x: Context, current: Policy, data: Raw)
    requires Normal(current)
    ensures var p := Normalized(x, Edited(current, data));
            && p.source == "console"
            && ReadsNumber(data.interval, current.interval, 900, 60, 86400, p.interval)
            && ReadsNumber(data.limit, current.limit, 10, 1, 100, p.limit)
            && ReadsNumber(data.eventLimit, current.eventLimit, 20, 1, 200, p.eventLimit)
            && ReadsNumber(data.maxPages, current.maxPages, 2, 1, 20, p.maxPages)
            && ReadsMode(data.documentMode, current.documentMode, x.documentMode, p.documentMode)
            && ReadsMode(data.bitableMode, current.bitableMode, x.bitableMode, p.bitableMode)
            && ReadsMode(data.memoryMode, current.memoryMode, x.memoryMode, p.memoryMode)
            && ReadsMode(data.vectorMode, current.vectorMode, x.vectorMode, p.vectorMode)
            && p.enabled == IsOn(data.enabled, current.enabled)
            && p.extractItems == IsOn(data.extractItems, current.extractItems)
            && (data.resourceTypes.None? ==> p.resourceTypes == current.resourceTypes)
            && (data.statuses.None? ==> p.statuses == current.statuses)
  {
    EditedNumbers(x, current, data);
    EditedModes(x, current, data);
    EditedSwitches(x, current, data);
    EditedLists(x, current, data);
    hide Normalized, Normal, ReadsNumber, ReadsMode, IsOn;
  }

  lemma EditedSwitches(x: Context, current: Policy, data: Raw)
    ensures var p := Normalized(x, Edited(current, data));
            && p.enabled == IsOn(data.enabled, current.enabled)
            && p.extractItems == IsOn(data.extractItems, current.extractItems)
  {
    hide Names, Clamp, Mode;
  }

  lemma EditedLists(x: Context, current: Policy, data: Raw)
    requires NormalNames(current.resourceTypes) && NormalNames(current.statuses)
    ensures var p := Normalized(x, Edited(current, data));
            && (data.resourceTypes.None? ==> p.resourceTypes == current.resourceTypes)
            && (data.statuses.None? ==> p.statuses == current.statuses)
  {
    NormalNamesStay(current.resourceTypes);
    NormalNamesStay(current.statuses);
    hide Names, NormalNames, Clamp, Mode, IsTrue;
  }

  lemma EditedNumbers(x: Context, current: Policy, data: Raw)
    requires Normal(current)
    ensures var p := Normalized(x, Edited(current, data));
            && ReadsNumber(data.interval, current.interval, 900, 60, 86400, p.interval)
            && ReadsNumber(data.limit, current.limit, 10, 1, 100, p.limit)
            && ReadsNumber(data.eventLimit, current.eventLimit, 20, 1, 200, p.eventLimit)
            && ReadsNumber(data.maxPages, current.maxPages, 2, 1, 20, p.maxPages)
  {
    NumbersByColumns(x, Edited(current, data));
    hide Normalized, NormalNames;
  }

  lemma EditedModes(x: Context, current: Policy, data: Raw)
    requires Normal(current)
    ensures var p := Normalized(x, Edited(current, data));
            && p.source == "console"
            && ReadsMode(data.documentMode, current.documentMode, x.documentMode, p.documentMode)
            && ReadsMode(data.bitableMode, current.bitableMode, x.bitableMode, p.bitableMode)
            && ReadsMode(data.memoryMode, current.memoryMode, x.memoryMode, p.memoryMode)
            && ReadsMode(data.vectorMode, current.vectorMode, x.vectorMode, p.vectorMode)
  {
    assert CONSOLE != "";
    ModesByColumns(x, Edited(current, data));
    hide Normalized, NormalNames;
  }

  class PolicyTable {
    /** company_settings: a row per company, with the policy it holds, if any. */
    var rows: map<nat, Option<Raw>>

    function Stored(c: nat): Raw
      reads this
    {
      if c in rows && rows[c].Some? then rows[c].value else NOTHING
    }

    /** get_v5_resource_sync_policy. */
    function Read(x: Context, c: nat): Policy
      reads this
    {
      Normalized(x, Stored(c))
    }

    /** update_v5_resource_sync_policy: what it returns is what any later read returns, and every other
        company keeps its row. */
    method Update(x: Context, c: nat, data: Raw) returns (updated: Policy)
      requires ValidContext(x)
      modifies this
      ensures updated == Normalized(x, Edited(old(Read(x, c)), data))
      ensures Normal(updated)
      ensures forall later: Context :: Read(later, c) == updated
      ensures rows == old(rows)[c := Some(AsRaw(updated))]
    {
      hide Normalized, Normal;
      if c !in rows { rows := rows[c := None]; }
      var merged := Edited(Normalized(x, Stored(c)), data);
      updated := Normalized(x, merged);
      rows := rows[c := Some(AsRaw(updated))];
      ReadsBack(x, merged);
    }
  }

  // ---- which companies a tick goes through ----

  /** A row of company_settings. */
  datatype Row = Row(company: nat, policy: Option<Raw>)

  datatype Entry = Entry(company: nat, policy: Policy)

  function Configured(rows: seq<Row>): set<nat> {
    set row | row in rows && row.policy.Some? :: row.company
  }

  function StoredEntries(x: Context, rows: seq<Row>): seq<Entry> {
    if rows == [] then []
    else
      var front, last := StoredEntries(x, rows[..|rows| - 1]), rows[|rows| - 1];
      if last.policy.Some? && Normalized(x, last.policy.value).enabled then
        front + [Entry(last.company, Normalized(x, last.policy.value))]
      else front
  }

  function FallbackEntries(x: Context, active: seq<nat>, configured: set<nat>): seq<Entry> {
    if active == [] then []
    else
      var front, last := FallbackEntries(x, active[..|active| - 1], configured), active[|active| - 1];
      if last !in configured then front + [Entry(last, x.defaults)] else front
  }

  function Entries(x: Context, rows: seq<Row>, active: seq<nat>): seq<Entry> {
    StoredEntries(x, rows) + if x.defaults.enabled then FallbackEntries(x, active, Configured(rows)) else []
  }

  /** enabled_v5_resource_sync_policies. The settings' own policy is passed on as it is. */
  method EnabledPolicies(x: Context, rows: seq<Row>, active: seq<nat>) returns (policies: seq<Entry>)
    ensures policies == Entries(x, rows, active)
  {
    policies := [];
    var configured: set<nat> := {};
    for i := 0 to |rows|
      invariant policies == StoredEntries(x, rows[..i])
      invariant configured == Configured(rows[..i])
    {
      assert rows[..i + 1][..i] == rows[..i] && rows[..i + 1] == rows[..i] + [rows[i]];
      if rows[i].policy.Some? {
        configured := configured + {rows[i].company};
        var policy := Normalized(x, rows[i].policy.value);
        if policy.enabled { policies := policies + [Entry(rows[i].company, policy)]; }
      }
      assert configured == Configured(rows[..i + 1]);
    }
    assert rows[..|rows|] == rows;
    if x.defaults.enabled {
      ghost var stored := policies;
      for i := 0 to |active|
        invariant policies == stored + FallbackEntries(x, active[..i], configured)
      {
        assert active[..i + 1][..i] == active[..i];
        if active[i] !in configured { policies := policies + [Entry(active[i], x.defaults)]; }
      }
      assert active[..|active|] == active;
    }
  }

  lemma {:induction false} StoredEntriesAre(x: Context, rows: seq<Row>)
    ensures forall e :: e in StoredEntries(x, rows) <==>
              exists row <- rows :: row.policy.Some? && row.company == e.company &&
                                    e.policy == Normalized(x, row.policy.value) && e.policy.enabled
  {
    if rows != [] {
      StoredEntriesAre(x, rows[..|rows| - 1]);
      assert rows == rows[..|rows| - 1] + [rows[|rows| - 1]];
    }
  }

  lemma {:induction false} FallbackEntriesAre(x: Context, active: seq<nat>, configured: set<nat>)
    ensures forall e :: e in FallbackEntries(x, active, configured) <==>
              e.company in active && e.company !in configured && e.policy == x.defaults
  {
    if active != [] {
      FallbackEntriesAre(x, active[..|active| - 1], configured);
      assert active == active[..|active| - 1] + [active[|active| - 1]];
    }
  }

  /** A stored policy, also a disabled one, displaces the fallback: a company is gone through with its own
      policy when it has an enabled one, and with the settings' when it has none, is active, and the
      settings enable it. */
  lemma EntryIff(x: Context, rows: seq<Row>, active: seq<nat>, e: Entry)
    ensures e in Entries(x, rows, active) <==>
            || (exists row <- rows :: row.policy.Some? && row.company == e.company &&
                                      e.policy == Normalized(x, row.policy.value) && e.policy.enabled)
            || (e.company !in Configured(rows) && e.company in active && x.defaults.enabled && e.policy == x.defaults)
  {
    StoredEntriesAre(x, rows);
    FallbackEntriesAre(x, active, Configured(rows));
  }

  function Companies(entries: seq<Entry>): seq<nat> {
    seq(|entries|, i requires 0 <= i < |entries| => entries[i].company)
  }

  lemma CompaniesOf(a: seq<Entry>, b: seq<Entry>)
    ensures Companies(a + b) == Companies(a) + Companies(b)
    ensures forall c :: c in Companies(a) <==> exists e <- a :: e.company == c
  {
    forall c | exists e <- a :: e.company == c ensures c in Companies(a) {
      var i :| 0 <= i < |a| && a[i].company == c;
      assert Companies(a)[i] == c;
    }
  }

  lemma JoinedOnce(a: seq<Entry>, b: seq<Entry>)
    requires NoRepeats(Companies(a)) && NoRepeats(Companies(b))
    requires forall d, e | d in a && e in b :: d.company != e.company
    ensures NoRepeats(Companies(a + b))
  {
    CompaniesOf(a, b);
    CompaniesOf(b, []);
    RepeatsOfConcatenation(Companies(a), Companies(b));
  }

  lemma {:induction false} StoredOnce(x: Context, rows: seq<Row>)
    requires forall i, j :: 0 <= i < j < |rows| ==> rows[i].company != rows[j].company
    ensures NoRepeats(Companies(StoredEntries(x, rows)))
  {
    if rows != [] {
      var front, last := rows[..|rows| - 1], rows[|rows| - 1];
      StoredOnce(x, front);
      StoredEntriesAre(x, front);
      if last.policy.Some? {
        JoinedOnce(StoredEntries(x, front), [Entry(last.company, Normalized(x, last.policy.value))]);
      }
    }
  }

  lemma {:induction false} FallbackOnce(x: Context, active: seq<nat>, configured: set<nat>)
    requires NoRepeats(active)
    ensures NoRepeats(Companies(FallbackEntries(x, active, configured)))
  {
    if active != [] {
      var front, last := active[..|active| - 1], active[|active| - 1];
      FallbackOnce(x, front, configured);
      FallbackEntriesAre(x, front, configured);
      JoinedOnce(FallbackEntries(x, front, configured), [Entry(last, x.defaults)]);
    }
  }

  /** No company is gone through twice in a tick. */
  lemma EachCompanyOnce(x: Context, rows: seq<Row>, active: seq<nat>)
    requires forall i, j :: 0 <= i < j < |rows| ==> rows[i].company != rows[j].company
    requires NoRepeats(active)
    ensures NoRepeats(Companies(Entries(x, rows, active)))
  {
    StoredOnce(x, rows);
    FallbackOnce(x, active, Configured(rows));
    StoredEntriesAre(x, rows);
    FallbackEntriesAre(x, active, Configured(rows));
    JoinedOnce(StoredEntries(x, rows), if x.defaults.enabled then FallbackEntries(x, active, Configured(rows)) else []);
  }
}
