/** The keyed upsert of work events, and what an event holds after any sequence of calls. */
module WorkEvents {
  import opened Options

  /** A column or a request field, with Python's truth. */
  datatype Value = Null | Text(text: string) | Listing(items: seq<string>) | Object(entries: map<string, string>)

  predicate Truthy(v: Value) {
    match v
    case Null => false
    case Text(text) => text != ""
    case Listing(items) => items != []
    case Object(entries) => entries != map[]
  }

  function Or(given: Value, stored: Value): Value {
    if Truthy(given) then given else stored
  }

  /** The columns an update overwrites only with a truthy value. */
  datatype Sticky = Sticky(
    threadId: Value, resourceId: Value, sourceType: Value, sourceAccountId: Value, visibilityScope: Value,
    allowedUserIds: Value, allowedRoles: Value, allowedDepartments: Value, dataClassification: Value,
    businessDomain: Value, title: Value, contentText: Value, actors: Value, labels: Value, payload: Value,
    rawJson: Value, sensitivity: Value)

  datatype Field =
    | ThreadId | ResourceId | SourceType | SourceAccountId | VisibilityScope | AllowedUserIds | AllowedRoles
    | AllowedDepartments | DataClassification | BusinessDomain | Title | ContentText | Actors | Labels | Payload
    | RawJson | Sensitivity

  function Get(s: Sticky, f: Field): Value {
    match f
    case ThreadId => s.threadId
    case ResourceId => s.resourceId
    case SourceType => s.sourceType
    case SourceAccountId => s.sourceAccountId
    case VisibilityScope => s.visibilityScope
    case AllowedUserIds => s.allowedUserIds
    case AllowedRoles => s.allowedRoles
    case AllowedDepartments => s.allowedDepartments
    case DataClassification => s.dataClassification
    case BusinessDomain => s.businessDomain
    case Title => s.title
    case ContentText => s.contentText
    case Actors => s.actors
    case Labels => s.labels
    case Payload => s.payload
    case RawJson => s.rawJson
    case Sensitivity => s.sensitivity
  }

  /** The columns only the insert writes. */
  datatype Origin = Origin(
    company: nat, account: Option<nat>, source: string, eventType: string, externalId: Option<string>)

  datatype Event = Event(id: nat, origin: Origin, sticky: Sticky, occurredAt: int, importance: real, pending: bool)

  datatype Request = Request(origin: Origin, sticky: Sticky, occurredAt: Option<int>, importance: real)

  /** One call: the request, the clock, the id an insert would draw, and the chat resource the resource
      table has for the request's thread, `Null` when it has none. */
  datatype Call = Call(data: Request, now: int, id: nat, chat: Value)

  /** The redactions, the source-type normalisation and the vectorisation test. */
  datatype Services = Services(
    redactText: Value -> Value,
    redactPayload: Value -> Value,
    normalizeSourceType: Value -> Value,
    vectorizable: Value -> bool)

  /** _infer_resource_id_for_work_event. */
  function InferredResource(c: Call): Value {
    var given := c.data.sticky;
    if Truthy(given.resourceId) || c.data.origin.source != "feishu" || !Truthy(given.threadId) then given.resourceId
    else c.chat
  }

  /** The values a call offers to the sticky columns. */
  function Offered(env: Services, c: Call): Sticky {
    var given := c.data.sticky;
    given.(
      resourceId := Or(given.resourceId, InferredResource(c)),
      sourceType := env.normalizeSourceType(given.sourceType),
      contentText := if Truthy(given.contentText) then env.redactText(given.contentText) else Null,
      payload := env.redactPayload(given.payload),
      rawJson := env.redactPayload(Or(given.rawJson, given.payload)))
  }

  function OccurredAt(c: Call): int {
    if c.data.occurredAt.Some? then c.data.occurredAt.value else c.now
  }

  function Created(env: Services, c: Call): Event {
    var fields := Offered(env, c);
    Event(c.id, c.data.origin, fields, OccurredAt(c), c.data.importance, env.vectorizable(fields.payload))
  }

  function MergedSticky(given: Sticky, stored: Sticky): Sticky {
    Sticky(
      Or(given.threadId, stored.threadId), Or(given.resourceId, stored.resourceId),
      Or(given.sourceType, stored.sourceType), Or(given.sourceAccountId, stored.sourceAccountId),
      Or(given.visibilityScope, stored.visibilityScope), Or(given.allowedUserIds, stored.allowedUserIds),
      Or(given.allowedRoles, stored.allowedRoles), Or(given.allowedDepartments, stored.allowedDepartments),
      Or(given.dataClassification, stored.dataClassification), Or(given.businessDomain, stored.businessDomain),
      Or(given.title, stored.title), Or(given.contentText, stored.contentText), Or(given.actors, stored.actors),
      Or(given.labels, stored.labels), Or(given.payload, stored.payload), Or(given.rawJson, stored.rawJson),
      Or(given.sensitivity, stored.sensitivity))
  }

  function Merged(env: Services, e: Event, c: Call): Event {
    var sticky := MergedSticky(Offered(env, c), e.sticky);
    Event(e.id, e.origin, sticky, OccurredAt(c), c.data.importance, env.vectorizable(sticky.payload))
  }

  // ---- the table ----

  predicate HasKey(e: Event, source: string, externalId: string) {
    e.origin.source == source && e.origin.externalId == Some(externalId)
  }

  /** The row a select by source and external id returns. */
  function Find(events: seq<Event>, source: string, externalId: string): (i: Option<nat>)
    ensures i.Some? ==> i.value < |events| && HasKey(events[i.value], source, externalId)
    ensures i.None? ==> forall k :: 0 <= k < |events| ==> !HasKey(events[k], source, externalId)
  {
    if events == [] then None
    else if HasKey(events[|events| - 1], source, externalId) then Some(|events| - 1)
    else Find(events[..|events| - 1], source, externalId)
  }

  function Stored(events: seq<Event>, source: string, externalId: string): Option<Event> {
    var i := Find(events, source, externalId);
    if i.Some? then Some(events[i.value]) else None
  }

  /** uq_work_event_source_external; NULL external ids are distinct. */
  predicate KeysAreUnique(events: seq<Event>) {
    forall i, j :: 0 <= i < j < |events| && events[i].origin.externalId.Some? ==>
      !HasKey(events[j], events[i].origin.source, events[i].origin.externalId.value)
  }

  /** The row the upsert updates: it looks only for a truthy external id. */
  function Target(events: seq<Event>, o: Origin): Option<nat> {
    if o.externalId.Some? && o.externalId.value != "" then Find(events, o.source, o.externalId.value) else None
  }

  /** The insert that the unique constraint refuses. */
  predicate Refused(events: seq<Event>, o: Origin) {
    Target(events, o).None? && o.externalId.Some? && Find(events, o.source, o.externalId.value).Some?
  }

  /** The table after one call. */
  function After(env: Services, events: seq<Event>, c: Call): seq<Event> {
    var i := Target(events, c.data.origin);
    if i.Some? then events[i.value := Merged(env, events[i.value], c)]
    else if Refused(events, c.data.origin) then events
    else events + [Created(env, c)]
  }

  function Run(env: Services, calls: seq<Call>): seq<Event> {
    if calls == [] then [] else After(env, Run(env, calls[..|calls| - 1]), calls[|calls| - 1])
  }

  // ---- the classes ----

  /** A row: what only an insert writes, the columns an update overwrites with truthy values, held in one
      record, and the columns it always overwrites. */
  class WorkEvent {
    const id: nat
    const origin: Origin
    var sticky: Sticky
    var occurredAt: int
    var importance: real
    var pending: bool

    function Row(): Event
      reads this
    {
      Event(id, origin, sticky, occurredAt, importance, pending)
    }

    constructor (env: Services, c: Call)
      ensures Row() == Created(env, c)
    {
      var given := Offered(env, c);
      id, origin := c.id, c.data.origin;
      sticky := given;
      occurredAt, importance := OccurredAt(c), c.data.importance;
      pending := env.vectorizable(given.payload);
    }

    method Update(env: Services, c: Call)
      modifies this
      ensures Row() == Merged(env, old(Row()), c)
    {
      var given := Offered(env, c);
      sticky := sticky.(threadId := Or(given.threadId, sticky.threadId));
      sticky := sticky.(resourceId := Or(given.resourceId, sticky.resourceId));
      sticky := sticky.(sourceType := Or(given.sourceType, sticky.sourceType));
      sticky := sticky.(sourceAccountId := Or(given.sourceAccountId, sticky.sourceAccountId));
      sticky := sticky.(visibilityScope := Or(given.visibilityScope, sticky.visibilityScope));
      sticky := sticky.(allowedUserIds := Or(given.allowedUserIds, sticky.allowedUserIds));
      sticky := sticky.(allowedRoles := Or(given.allowedRoles, sticky.allowedRoles));
      sticky := sticky.(allowedDepartments := Or(given.allowedDepartments, sticky.allowedDepartments));
      sticky := sticky.(dataClassification := Or(given.dataClassification, sticky.dataClassification));
      sticky := sticky.(businessDomain := Or(given.businessDomain, sticky.businessDomain));
      sticky := sticky.(title := Or(given.title, sticky.title));
      sticky := sticky.(contentText := Or(given.contentText, sticky.contentText));
      occurredAt := OccurredAt(c);
      sticky := sticky.(actors := Or(given.actors, sticky.actors));
      sticky := sticky.(labels := Or(given.labels, sticky.labels));
      sticky := sticky.(payload := Or(given.payload, sticky.payload));
      sticky := sticky.(rawJson := Or(given.rawJson, sticky.rawJson));
      importance := c.data.importance;
      sticky := sticky.(sensitivity := Or(given.sensitivity, sticky.sensitivity));
      pending := env.vectorizable(sticky.payload);
    }
  }

  class EventTable {
    var rows: seq<WorkEvent>

    ghost predicate Valid()
      reads this
    {
      forall i, j :: 0 <= i < j < |rows| ==> rows[i] != rows[j]
    }

    function Contents(): (events: seq<Event>)
      reads this, rows
      ensures |events| == |rows|
    {
      seq(|rows|, i requires 0 <= i < |rows| reads this, rows => rows[i].Row())
    }

    /** upsert_work_event: not `ok` is the integrity error the flush raises. */
    method Upsert(env: Services, c: Call) returns (ok: bool)
      requires Valid()
      modifies this, rows
      ensures Valid() && fresh(set r | r in rows && r !in old(rows))
      ensures Contents() == After(env, old(Contents()), c)
      ensures ok <==> !Refused(old(Contents()), c.data.origin)
    {
      var target := Target(Contents(), c.data.origin);
      if target.Some? {
        rows[target.value].Update(env, c);
        return true;
      }
      if Refused(Contents(), c.data.origin) { return false; }
      var row := new WorkEvent(env, c);
      rows := rows + [row];
      return true;
    }
  }

  // ---- one event per key ----

  /** No call breaks the unique constraint, and an update keeps the row's id and origin. */
  lemma {:induction false} CallKeepsKeysUnique(env: Services, events: seq<Event>, c: Call)
    requires KeysAreUnique(events)
    ensures KeysAreUnique(After(env, events, c))
    ensures forall k :: 0 <= k < |events| ==>
              After(env, events, c)[k].id == events[k].id && After(env, events, c)[k].origin == events[k].origin
  {
    var after, o := After(env, events, c), c.data.origin;
    forall i, j | 0 <= i < j < |after| && after[i].origin.externalId.Some?
      ensures !HasKey(after[j], after[i].origin.source, after[i].origin.externalId.value)
    {
      if j < |events| {
        assert after[i].origin == events[i].origin && after[j].origin == events[j].origin;
      } else {
        assert after[i] == events[i] && after[j].origin == o;
        if HasKey(after[j], after[i].origin.source, after[i].origin.externalId.value) {
          assert HasKey(events[i], o.source, o.externalId.value);
        }
      }
    }
  }

  /** Over any sequence of calls there is at most one event for a source and an external id. */
  lemma {:induction false} OneEventPerKey(env: Services, calls: seq<Call>)
    ensures KeysAreUnique(Run(env, calls))
  {
    if calls != [] {
      OneEventPerKey(env, calls[..|calls| - 1]);
      CallKeepsKeysUnique(env, Run(env, calls[..|calls| - 1]), calls[|calls| - 1]);
    }
  }

  /** The lookup protects every id but the empty string, which it skips: the constraint raises exactly
      on a second event of a source with that id. */
  lemma RefusedIff(events: seq<Event>, o: Origin)
    ensures Refused(events, o) <==>
            o.externalId == Some("") && exists k :: 0 <= k < |events| && HasKey(events[k], o.source, "")
  {
  }

  // ---- an event is the fold of the calls with its key ----

  predicate Names(c: Call, source: string, externalId: string) {
    c.data.origin.source == source && c.data.origin.externalId == Some(externalId)
  }

  /** The calls for a key, in order. */
  function CallsFor(calls: seq<Call>, source: string, externalId: string): seq<Call> {
    if calls == [] then []
    else
      var rest := CallsFor(calls[..|calls| - 1], source, externalId);
      if Names(calls[|calls| - 1], source, externalId) then rest + [calls[|calls| - 1]] else rest
  }

  /** What a request has for a column: text and payloads redacted, the source type normalised, the raw record
      or else the payload, and the resource or else the chat a Feishu thread belongs to. */
  function Requested(env: Services, c: Call, f: Field): Value {
    var given := c.data.sticky;
    match f
    case ContentText => if Truthy(given.contentText) then env.redactText(given.contentText) else Null
    case Payload => env.redactPayload(given.payload)
    case RawJson => env.redactPayload(if Truthy(given.rawJson) then given.rawJson else given.payload)
    case SourceType => env.normalizeSourceType(given.sourceType)
    case ResourceId =>
      if !Truthy(given.resourceId) && c.data.origin.source == "feishu" && Truthy(given.threadId) then c.chat
      else given.resourceId
    case _ => Get(given, f)
  }

  /** The insert and the update are offered exactly that. */
  lemma OfferedIsRequested(env: Services, c: Call, f: Field)
    ensures Get(Offered(env, c), f) == Requested(env, c, f)
  {
  }

  function Values(env: Services, calls: seq<Call>, f: Field): seq<Value> {
    seq(|calls|, i requires 0 <= i < |calls| => Requested(env, calls[i], f))
  }

  predicate LastTruthyAt(values: seq<Value>, i: nat) {
    i < |values| && Truthy(values[i]) && forall j :: i < j < |values| ==> !Truthy(values[j])
  }

  /** The last truthy value; the first one when none is. */
  ghost predicate IsLastTruthy(values: seq<Value>, v: Value) {
    || (exists i: nat :: LastTruthyAt(values, i) && v == values[i])
    || (values != [] && v == values[0] && forall j :: 0 <= j < |values| ==> !Truthy(values[j]))
  }

  lemma LastTruthyIsOne(values: seq<Value>, a: Value, b: Value)
    requires IsLastTruthy(values, a) && IsLastTruthy(values, b)
    ensures a == b
  {
    if i: nat, k: nat :| LastTruthyAt(values, i) && a == values[i] && LastTruthyAt(values, k) && b == values[k] {
      assert i == k;
    }
  }

  lemma LastTruthyStep(values: seq<Value>, stored: Value, given: Value)
    requires IsLastTruthy(values, stored)
    ensures IsLastTruthy(values + [given], Or(given, stored))
  {
    var longer := values + [given];
    if Truthy(given) {
      assert LastTruthyAt(longer, |values|);
    } else if i: nat :| LastTruthyAt(values, i) && stored == values[i] {
      assert LastTruthyAt(longer, i);
    }
  }

  /** What an event must hold after the calls made for its key. */
  ghost predicate IsFoldOf(env: Services, e: Event, calls: seq<Call>)
    requires calls != []
  {
    && e.id == calls[0].id && e.origin == calls[0].data.origin
    && (var last := calls[|calls| - 1];
        && e.occurredAt == (if last.data.occurredAt.Some? then last.data.occurredAt.value else last.now)
        && e.importance == last.data.importance)
    && e.pending == env.vectorizable(e.sticky.payload)
    && forall f: Field :: IsLastTruthy(Values(env, calls, f), Get(e.sticky, f))
  }

  lemma SameFirstColumns(a: Sticky, b: Sticky)
    requires forall f: Field :: Get(a, f) == Get(b, f)
    ensures a.threadId == b.threadId && a.resourceId == b.resourceId && a.sourceType == b.sourceType
    ensures a.sourceAccountId == b.sourceAccountId && a.visibilityScope == b.visibilityScope
    ensures a.allowedUserIds == b.allowedUserIds
  {
    assert Get(a, ThreadId) == Get(b, ThreadId) && Get(a, ResourceId) == Get(b, ResourceId);
    assert Get(a, SourceType) == Get(b, SourceType) && Get(a, SourceAccountId) == Get(b, SourceAccountId);
    assert Get(a, VisibilityScope) == Get(b, VisibilityScope) && Get(a, AllowedUserIds) == Get(b, AllowedUserIds);
  }

  lemma SameMiddleColumns(a: Sticky, b: Sticky)
    requires forall f: Field :: Get(a, f) == Get(b, f)
    ensures a.allowedRoles == b.allowedRoles && a.allowedDepartments == b.allowedDepartments
    ensures a.dataClassification == b.dataClassification
    ensures a.businessDomain == b.businessDomain && a.title == b.title && a.contentText == b.contentText
  {
    assert Get(a, AllowedRoles) == Get(b, AllowedRoles) && Get(a, AllowedDepartments) == Get(b, AllowedDepartments);
    assert Get(a, DataClassification) == Get(b, DataClassification) && Get(a, BusinessDomain) == Get(b, BusinessDomain);
    assert Get(a, Title) == Get(b, Title) && Get(a, ContentText) == Get(b, ContentText);
  }

  lemma SameLastColumns(a: Sticky, b: Sticky)
    requires forall f: Field :: Get(a, f) == Get(b, f)
    ensures a.actors == b.actors && a.labels == b.labels && a.payload == b.payload
    ensures a.rawJson == b.rawJson && a.sensitivity == b.sensitivity
  {
    assert Get(a, Actors) == Get(b, Actors) && Get(a, Labels) == Get(b, Labels);
    assert Get(a, Payload) == Get(b, Payload) && Get(a, RawJson) == Get(b, RawJson);
    assert Get(a, Sensitivity) == Get(b, Sensitivity);
  }

  lemma SameColumns(a: Sticky, b: Sticky)
    requires forall f: Field :: Get(a, f) == Get(b, f)
    ensures a == b
  {
    hide Get;
    SameFirstColumns(a, b);
    SameMiddleColumns(a, b);
    SameLastColumns(a, b);
  }

  /** The calls determine the event. */
  lemma FoldIsOne(env: Services, a: Event, b: Event, calls: seq<Call>)
    requires calls != [] && IsFoldOf(env, a, calls) && IsFoldOf(env, b, calls)
    ensures a == b
  {
    forall f: Field ensures Get(a.sticky, f) == Get(b.sticky, f) {
      LastTruthyIsOne(Values(env, calls, f), Get(a.sticky, f), Get(b.sticky, f));
    }
    SameColumns(a.sticky, b.sticky);
  }

  lemma MergedByField(given: Sticky, stored: Sticky, f: Field)
    ensures Get(MergedSticky(given, stored), f) == Or(Get(given, f), Get(stored, f))
  {
  }

  lemma CreatedIsFold(env: Services, c: Call)
    ensures IsFoldOf(env, Created(env, c), [c])
  {
    forall f: Field ensures IsLastTruthy(Values(env, [c], f), Get(Offered(env, c), f)) {
      var values := Values(env, [c], f);
      OfferedIsRequested(env, c, f);
      assert values == [Requested(env, c, f)];
      if Truthy(values[0]) { assert LastTruthyAt(values, 0); }
    }
  }

  lemma MergedIsFold(env: Services, e: Event, calls: seq<Call>, c: Call)
    requires calls != [] && IsFoldOf(env, e, calls)
    ensures IsFoldOf(env, Merged(env, e, c), calls + [c])
  {
    var given := Offered(env, c);
    forall f: Field ensures IsLastTruthy(Values(env, calls + [c], f), Get(MergedSticky(given, e.sticky), f)) {
      MergedByField(given, e.sticky, f);
      OfferedIsRequested(env, c, f);
      LastTruthyStep(Values(env, calls, f), Get(e.sticky, f), Get(given, f));
      assert Values(env, calls + [c], f) == Values(env, calls, f) + [Requested(env, c, f)];
    }
  }

  lemma FindIsTheOnly(events: seq<Event>, source: string, externalId: string, k: nat)
    requires KeysAreUnique(events) && k < |events| && HasKey(events[k], source, externalId)
    ensures Find(events, source, externalId) == Some(k)
  {
    var i := Find(events, source, externalId).value;
    assert i == k;
  }

  /** A call for a key leaves the event of every other key as it was. */
  lemma OtherKeysStay(env: Services, events: seq<Event>, c: Call, source: string, externalId: string)
    requires KeysAreUnique(events) && !Names(c, source, externalId)
    ensures Stored(After(env, events, c), source, externalId) == Stored(events, source, externalId)
  {
    CallKeepsKeysUnique(env, events, c);
    var after, i := After(env, events, c), Find(events, source, externalId);
    if i.Some? {
      FindIsTheOnly(after, source, externalId, i.value);
    } else {
      var k := Find(after, source, externalId);
      if k.Some? { assert HasKey(after[k.value], source, externalId); }
    }
  }

  /** After a call for a key, its event is the old one merged, or a new one. */
  lemma NamedKeyIsWritten(env: Services, events: seq<Event>, c: Call, source: string, externalId: string)
    requires KeysAreUnique(events) && Names(c, source, externalId) && externalId != ""
    ensures Stored(After(env, events, c), source, externalId) ==
            (match Stored(events, source, externalId)
             case Some(e) => Some(Merged(env, e, c))
             case None => Some(Created(env, c)))
  {
    CallKeepsKeysUnique(env, events, c);
    var after, i := After(env, events, c), Find(events, source, externalId);
    FindIsTheOnly(after, source, externalId, if i.Some? then i.value else |events|);
  }

  /** Over any sequence of calls, the event of a non-empty external id exists exactly when some call named
      it, and it is the one fold of those calls: origin and id from the first, time and score from the last,
      every sticky column the last truthy value. */
  lemma EventIsTheFold(env: Services, calls: seq<Call>, source: string, externalId: string)
    requires externalId != ""
    ensures var stored, mine := Stored(Run(env, calls), source, externalId), CallsFor(calls, source, externalId);
            && (stored.Some? <==> mine != [])
            && (stored.Some? ==> IsFoldOf(env, stored.value, mine))
            && forall e: Event | mine != [] && IsFoldOf(env, e, mine) :: stored == Some(e)
  {
    EventIsFold(env, calls, source, externalId);
    var mine := CallsFor(calls, source, externalId);
    forall e: Event | mine != [] && IsFoldOf(env, e, mine)
      ensures Stored(Run(env, calls), source, externalId) == Some(e)
    {
      FoldIsOne(env, Stored(Run(env, calls), source, externalId).value, e, mine);
    }
  }

  lemma {:induction false} EventIsFold(env: Services, calls: seq<Call>, source: string, externalId: string)
    requires externalId != ""
    ensures var stored, mine := Stored(Run(env, calls), source, externalId), CallsFor(calls, source, externalId);
            && (stored.Some? <==> mine != [])
            && (stored.Some? ==> IsFoldOf(env, stored.value, mine))
  {
    if calls != [] {
      var rest, c := calls[..|calls| - 1], calls[|calls| - 1];
      EventIsFold(env, rest, source, externalId);
      OneEventPerKey(env, rest);
      if Names(c, source, externalId) {
        NamedKeyIsWritten(env, Run(env, rest), c, source, externalId);
        if CallsFor(rest, source, externalId) == [] {
          CreatedIsFold(env, c);
          assert CallsFor(calls, source, externalId) == [c];
        } else {
          MergedIsFold(env, Stored(Run(env, rest), source, externalId).value, CallsFor(rest, source, externalId), c);
        }
      } else {
        OtherKeysStay(env, Run(env, rest), c, source, externalId);
      }
    }
  }

  // ---- what is never stored ----

  /** Text, payload and raw record of an event come out of a redaction of what some call brought. */
  ghost predicate IsRedacted(env: Services, e: Event, calls: seq<Call>) {
    && (e.sticky.contentText == Null
        || exists c <- calls :: e.sticky.contentText == env.redactText(c.data.sticky.contentText))
    && (exists c <- calls :: e.sticky.payload == env.redactPayload(c.data.sticky.payload))
    && (exists c <- calls ::
          || e.sticky.rawJson == env.redactPayload(c.data.sticky.rawJson)
          || e.sticky.rawJson == env.redactPayload(c.data.sticky.payload))
  }

  lemma StaysRedacted(env: Services, e: Event, calls: seq<Call>, c: Call)
    requires IsRedacted(env, e, calls)
    ensures IsRedacted(env, e, calls + [c])
  {
    assert forall d <- calls :: d in calls + [c];
  }

  lemma WrittenIsRedacted(env: Services, e: Event, calls: seq<Call>, c: Call)
    ensures IsRedacted(env, Created(env, c), calls + [c])
    ensures IsRedacted(env, e, calls) ==> IsRedacted(env, Merged(env, e, c), calls + [c])
  {
    assert c in calls + [c] && forall d <- calls :: d in calls + [c];
  }

  /** Over any sequence of calls, whatever their keys, no event holds text, a payload or a raw record that
      has not been through a redaction. */
  lemma {:induction false} NothingUnredactedIsStored(env: Services, calls: seq<Call>)
    ensures forall e <- Run(env, calls) :: IsRedacted(env, e, calls)
  {
    hide IsRedacted, Created, Merged;
    if calls != [] {
      var front, c := calls[..|calls| - 1], calls[|calls| - 1];
      NothingUnredactedIsStored(env, front);
      assert calls == front + [c];
      forall e | e in Run(env, front) ensures IsRedacted(env, e, calls) { StaysRedacted(env, e, front, c); }
      var i := Target(Run(env, front), c.data.origin);
      if i.Some? {
        assert Run(env, front)[i.value] in Run(env, front);
        WrittenIsRedacted(env, Run(env, front)[i.value], front, c);
      } else {
        WrittenIsRedacted(env, Created(env, c), front, c);
      }
    }
  }

  // ---- repeating a call ----

  lemma MergeIsIdempotent(env: Services, e: Event, c: Call, again: Call)
    requires again.data == c.data && again.chat == c.chat
    ensures Merged(env, Merged(env, e, c), again) == Merged(env, e, c).(occurredAt := OccurredAt(again))
    ensures Merged(env, Created(env, c), again) == Created(env, c).(occurredAt := OccurredAt(again))
  {
  }

  /** The same request again, possibly later, leaves the table as the first call left it exactly when it
      has an external id and its time does not depend on the clock. The empty id is the exception: its
      repetition is refused whatever the time. */
  lemma RepeatChangesNothingIff(env: Services, events: seq<Event>, c: Call, again: Call)
    requires KeysAreUnique(events) && again.data == c.data && again.chat == c.chat
    ensures After(env, After(env, events, c), again) == After(env, events, c) <==>
            && c.data.origin.externalId.Some?
            && (c.data.origin.externalId == Some("") || c.data.occurredAt.Some? || again.now == c.now)
  {
    var first, o := After(env, events, c), c.data.origin;
    CallKeepsKeysUnique(env, events, c);
    if o.externalId.Some? && o.externalId.value != "" {
      var i := Find(events, o.source, o.externalId.value);
      var k := if i.Some? then i.value else |events|;
      FindIsTheOnly(first, o.source, o.externalId.value, k);
      MergeIsIdempotent(env, if i.Some? then events[k] else Created(env, c), c, again);
      assert After(env, first, again)[k] == first[k].(occurredAt := OccurredAt(again));
      assert first[k].occurredAt == OccurredAt(c);
    } else if o.externalId.Some? {
      RefusedIff(events, o);
      RefusedIff(first, o);
      if !Refused(events, o) { assert HasKey(first[|events|], o.source, ""); }
    }
  }
}
