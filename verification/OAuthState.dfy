/** The OAuth state of a user-identity authorization (user_identity_authorizations.py): a JSON object in
    unpadded base64url behind a prefix. */
module OAuthState {
  import opened Options
  import opened Text
  import opened JsonText
  import opened Uuids
  import Utf8
  import Base64Url

  const PREFIX := "user_identity:"

  datatype State = State(
    company: Uuid,
    openId: string,
    resourceType: string,
    provider: string,
    appConfig: Option<Uuid>)

  /** The room for nested calls that is left at json.loads: at least one. */
  type Room = n: nat | n >= 1 witness 1

  /** int() refuses longer literals. */
  const MAX_DIGITS := 4300

  /** What is left of Python: str() of a JSON value that is not a string, where it does not raise; its
      truth value; int(text, 16) off the hexadecimal digits; and the room for nesting. */
  datatype Python = Python(
    strOf: Json -> Option<string>,
    isTrue: Json -> bool,
    looseHex: string -> Option<Uuid>,
    room: Room) {
    function Limits(): Limits { JsonText.Limits(MAX_DIGITS, room) }
  }

  /** parse_user_identity_oauth_state returns a state or None, or an exception escapes from it. */
  datatype Parsed = Parsed(state: State) | NoState | Escapes

  /** The payload in key order. */
  function Payload(s: State): seq<(string, string)> {
    (if s.appConfig.Some? then [("app_config_id", UuidText(s.appConfig.value))] else []) +
    [("company_id", UuidText(s.company)),
     ("open_id", s.openId),
     ("provider", s.provider),
     ("resource_type", s.resourceType)]
  }

  /** UTF-8, base64url, and no padding. */
  function SealText(text: string): string {
    Base64Url.StripPadding(Base64Url.Encode(Utf8.Encode(text)))
  }

  function Seal(members: seq<(string, string)>): string {
    SealText(Dumps(members))
  }

  /** The way back to the text, on ASCII; None for each of the decoding errors the parser catches. */
  function UnsealText(encoded: string): Option<string> {
    var bytes := Base64Url.Decode(Base64Url.Repad(encoded));
    if bytes.None? then None else Utf8.Decode(bytes.value)
  }

  /** build_user_identity_oauth_state. */
  function Build(s: State): string {
    PREFIX + Seal(Payload(s))
  }

  function TextOf(py: Python, value: Json): Option<string> {
    if value.JString? then Some(value.text) else py.strOf(value)
  }

  predicate Truthy(py: Python, value: Json) {
    if value.JString? then value.text != "" else if value.JNull? then false else py.isTrue(value)
  }

  /** str(payload.get(key) or ""); None when str() raises. */
  function Field(py: Python, members: map<string, Json>, key: string): Option<string> {
    if key in members && Truthy(py, members[key]) then TextOf(py, members[key]) else Some("")
  }

  /** UUID(text), where there is a text. */
  function UuidIn(py: Python, text: Option<string>): Option<Uuid> {
    if text.Some? then ParseUuid(text.value, py.looseHex) else None
  }

  predicate HasConfig(py: Python, members: map<string, Json>) {
    "app_config_id" in members && Truthy(py, members["app_config_id"])
  }

  /** The two UUIDs, then the three texts. */
  function FromPayload(py: Python, members: map<string, Json>): Parsed {
    var companyText, configText := Field(py, members, "company_id"), Field(py, members, "app_config_id");
    var company, config := UuidIn(py, companyText), UuidIn(py, configText);
    if companyText.None? then Escapes
    else if company.None? then NoState
    else if configText.None? then Escapes
    else if HasConfig(py, members) && config.None? then NoState
    else
      var openId, resourceType, provider :=
        Field(py, members, "open_id"), Field(py, members, "resource_type"), Field(py, members, "provider");
      if openId.None? || resourceType.None? || provider.None? then Escapes
      else if Strip(openId.value) == "" || Strip(resourceType.value) == "" || Strip(provider.value) == "" then NoState
      else
        Parsed(State(company.value, Strip(openId.value), Strip(resourceType.value), Strip(provider.value),
                     if HasConfig(py, members) then config else None))
  }

  /** parse_user_identity_oauth_state. */
  function Parse(py: Python, state: string): Parsed {
    var text := Strip(state);
    if !(PREFIX <= text) then NoState
    else
      var encoded := text[|PREFIX|..];
      if !Base64Url.Ascii(encoded) then Escapes
      else
        var raw := UnsealText(encoded);
        if raw.None? then NoState
        else
          var payload := Loads(py.Limits(), raw.value);
          if payload.Overrun? then Escapes
          else if payload.NotJson? || !payload.json.JObject? then NoState
          else FromPayload(py, payload.json.members)
  }

  /** Any text comes back from its letters. */
  lemma UnsealTextUndoesSeal(text: string)
    ensures Base64Url.Letters(SealText(text)) && UnsealText(SealText(text)) == Some(text)
  {
    var bytes := Utf8.Encode(text);
    Base64Url.RepadUndoesStrip(bytes);
    Base64Url.DecodeUndoesEncode(bytes);
    Utf8.DecodeUndoesEncode(text);
  }

  /** The members come back as they were written, whatever the texts hold. */
  lemma UnsealUndoesSeal(py: Python, members: seq<(string, string)>)
    requires members != []
    ensures Base64Url.Letters(Seal(members))
    ensures UnsealText(Seal(members)) == Some(Dumps(members))
    ensures Loads(py.Limits(), Dumps(members)) == Loaded(JObject(Dictionary(map[], members)))
  {
    UnsealTextUndoesSeal(Dumps(members));
    LoadsUndoesDumps(py.Limits(), members);
  }

  lemma BuildIsTrimmed(letters: string)
    requires Base64Url.Letters(letters)
    ensures Strip(PREFIX + letters) == PREFIX + letters
  {
    var s := PREFIX + letters;
    assert s[|s| - 1] == ':' || s[|s| - 1] in letters;
    TrimmedIsFixed(s);
  }

  /** A sealed text is parsed as what json.loads makes of it. */
  lemma ParseSealed(py: Python, text: string)
    ensures Parse(py, PREFIX + SealText(text)) ==
            var payload := Loads(py.Limits(), text);
            if payload.Overrun? then Escapes
            else if payload.NotJson? || !payload.json.JObject? then NoState
            else FromPayload(py, payload.json.members)
  {
    var letters := SealText(text);
    UnsealTextUndoesSeal(text);
    Base64Url.LettersAreAscii(letters);
    BuildIsTrimmed(letters);
    assert (PREFIX + letters)[|PREFIX|..] == letters;
  }

  /** Reading back the four texts every payload ends with. */
  lemma FourMembers(found: map<string, Json>, company: string, openId: string, provider: string, resourceType: string)
    ensures Dictionary(found, [("company_id", company), ("open_id", openId), ("provider", provider),
                               ("resource_type", resourceType)]) ==
            found["company_id" := JString(company)]["open_id" := JString(openId)]
                 ["provider" := JString(provider)]["resource_type" := JString(resourceType)]
  {
    var m := [("company_id", company), ("open_id", openId), ("provider", provider), ("resource_type", resourceType)];
    var a := found["company_id" := JString(company)];
    var b := a["open_id" := JString(openId)];
    var c := b["provider" := JString(provider)];
    assert m[1..][1..] == m[2..] && m[2..][1..] == m[3..] && m[3..][1..] == [];
    assert Dictionary(c, m[3..]) == Dictionary(c["resource_type" := JString(resourceType)], []);
    assert Dictionary(b, m[2..]) == Dictionary(c, m[3..]);
    assert Dictionary(a, m[1..]) == Dictionary(b, m[2..]);
  }

  lemma KeysDiffer()
    ensures |"app_config_id"| == 13 && |"company_id"| == 10 && |"open_id"| == 7
    ensures |"provider"| == 8 && |"resource_type"| == 13 && "app_config_id"[0] == 'a' && "resource_type"[0] == 'r'
  {
  }

  /** The dictionary has each field under its key. */
  lemma PayloadFields(py: Python, s: State)
    ensures var d := Dictionary(map[], Payload(s));
            && Field(py, d, "company_id") == Some(UuidText(s.company))
            && Field(py, d, "open_id") == Some(s.openId)
            && Field(py, d, "provider") == Some(s.provider)
            && Field(py, d, "resource_type") == Some(s.resourceType)
            && ("app_config_id" in d <==> s.appConfig.Some?)
            && (s.appConfig.Some? ==> d["app_config_id"] == JString(UuidText(s.appConfig.value)))
  {
    KeysDiffer();
    UuidTextIsHexOrDash(s.company);
    var tail := [("company_id", UuidText(s.company)), ("open_id", s.openId),
                 ("provider", s.provider), ("resource_type", s.resourceType)];
    var start: map<string, Json> := map[];
    if s.appConfig.Some? {
      assert Payload(s)[1..] == tail && Payload(s)[0] == ("app_config_id", UuidText(s.appConfig.value));
      start := start["app_config_id" := JString(UuidText(s.appConfig.value))];
      assert Dictionary(map[], Payload(s)) == Dictionary(start, tail);
    } else {
      assert Payload(s) == tail;
    }
    FourMembers(start, UuidText(s.company), s.openId, s.provider, s.resourceType);
  }

  function Stripped(s: State): Parsed {
    if Strip(s.openId) == "" || Strip(s.resourceType) == "" || Strip(s.provider) == "" then NoState
    else Parsed(s.(openId := Strip(s.openId), resourceType := Strip(s.resourceType), provider := Strip(s.provider)))
  }

  /** A payload with the fields of a state. */
  predicate HasFields(py: Python, members: map<string, Json>, s: State) {
    && Field(py, members, "company_id") == Some(UuidText(s.company))
    && Field(py, members, "open_id") == Some(s.openId)
    && Field(py, members, "provider") == Some(s.provider)
    && Field(py, members, "resource_type") == Some(s.resourceType)
    && (HasConfig(py, members) <==> s.appConfig.Some?)
    && Field(py, members, "app_config_id") == Some(if s.appConfig.Some? then UuidText(s.appConfig.value) else "")
  }

  lemma BuiltHasFields(py: Python, s: State)
    ensures HasFields(py, Dictionary(map[], Payload(s)), s)
  {
    PayloadFields(py, s);
    if s.appConfig.Some? { UuidTextIsHexOrDash(s.appConfig.value); }
  }

  lemma StateOfFields(py: Python, members: map<string, Json>, s: State)
    requires HasFields(py, members, s)
    ensures FromPayload(py, members) == Stripped(s)
  {
    hide Strip, ParseUuid, UuidText, Field, HasConfig;
    ParseUndoesText(s.company, py.looseHex);
    if s.appConfig.Some? { ParseUndoesText(s.appConfig.value, py.looseHex); }
  }

  /** What parsing makes of any state that was built: the state with its three texts stripped, or
      nothing when one of them is blank. */
  lemma ParseOfBuild(py: Python, s: State)
    ensures Parse(py, Build(s)) == Stripped(s)
  {
    UnsealUndoesSeal(py, Payload(s));
    ParseSealed(py, Dumps(Payload(s)));
    BuiltHasFields(py, s);
    StateOfFields(py, Dictionary(map[], Payload(s)), s);
  }

  /** What travels: behind the prefix, letters only, and in them the JSON object with these keys. */
  lemma OnTheWire(py: Python, s: State)
    ensures var state := Build(s);
            && |state| >= 14 && state[..14] == "user_identity:" && Base64Url.Letters(state[14..])
            && UnsealText(state[14..]).Some?
            && Loads(py.Limits(), UnsealText(state[14..]).value) ==
               Loaded(JObject(
                 (if s.appConfig.Some? then map["app_config_id" := JString(UuidText(s.appConfig.value))] else map[])
                 ["company_id" := JString(UuidText(s.company))]["open_id" := JString(s.openId)]
                 ["provider" := JString(s.provider)]["resource_type" := JString(s.resourceType)]))
  {
    UnsealUndoesSeal(py, Payload(s));
    assert Build(s)[14..] == Seal(Payload(s));
    PayloadIsDictionary(s);
    hide Seal, Loads, UnsealText, Dumps;
  }

  lemma PayloadIsDictionary(s: State)
    ensures Dictionary(map[], Payload(s)) ==
            (if s.appConfig.Some? then map["app_config_id" := JString(UuidText(s.appConfig.value))] else map[])
            ["company_id" := JString(UuidText(s.company))]["open_id" := JString(s.openId)]
            ["provider" := JString(s.provider)]["resource_type" := JString(s.resourceType)]
  {
    hide UuidText;
    var tail := [("company_id", UuidText(s.company)), ("open_id", s.openId),
                 ("provider", s.provider), ("resource_type", s.resourceType)];
    var start: map<string, Json> := map[];
    if s.appConfig.Some? {
      assert Payload(s)[1..] == tail && Payload(s)[0] == ("app_config_id", UuidText(s.appConfig.value));
      start := start["app_config_id" := JString(UuidText(s.appConfig.value))];
      assert Dictionary(map[], Payload(s)) == Dictionary(start, tail);
    } else {
      assert Payload(s) == tail;
    }
    FourMembers(start, UuidText(s.company), s.openId, s.provider, s.resourceType);
  }

  /** The keys are written in order, each once: their first letters ascend. */
  lemma KeysAscend(s: State, i: nat, j: nat)
    requires i < j < |Payload(s)|
    ensures Payload(s)[i].0 != "" && Payload(s)[j].0 != "" && Payload(s)[i].0[0] < Payload(s)[j].0[0]
  {
  }

  /** A text that parsing hands back unchanged. */
  predicate Canonical(text: string) {
    text != "" && Strip(text) == text
  }

  /** parse(build(s)) is s exactly when the three texts are trimmed and not empty. */
  lemma RoundTripIff(py: Python, s: State)
    ensures Parse(py, Build(s)) == Parsed(s) <==>
            Canonical(s.openId) && Canonical(s.resourceType) && Canonical(s.provider)
  {
    ParseOfBuild(py, s);
  }

  /** Two such states are never built into the same text. */
  lemma BuildIsInjective(py: Python, s: State, u: State)
    requires Canonical(s.openId) && Canonical(s.resourceType) && Canonical(s.provider)
    requires Canonical(u.openId) && Canonical(u.resourceType) && Canonical(u.provider)
    requires Build(s) == Build(u)
    ensures s == u
  {
    RoundTripIff(py, s);
    RoundTripIff(py, u);
  }

  // ---- what parsing makes of any text ----

  /** The payload has a truthy value under the key, and this is its str(). */
  predicate Says(py: Python, members: map<string, Json>, key: string, text: string) {
    key in members &&
    match members[key]
    case JString(given) => given != "" && given == text
    case JNull => false
    case other => py.isTrue(other) && py.strOf(other) == Some(text)
  }

  /** The payload says all of the state: a company and, if anything, an app configuration that are UUIDs, and
      three texts that are the state's with blanks around them, none of them blank. */
  ghost predicate Describes(py: Python, members: map<string, Json>, s: State) {
    && (exists text :: Says(py, members, "company_id", text) && ParseUuid(text, py.looseHex) == Some(s.company))
    && (exists text :: Says(py, members, "open_id", text) && Strip(text) == s.openId != "")
    && (exists text :: Says(py, members, "resource_type", text) && Strip(text) == s.resourceType != "")
    && (exists text :: Says(py, members, "provider", text) && Strip(text) == s.provider != "")
    && (if "app_config_id" in members && Truthy(py, members["app_config_id"]) then
          exists text :: Says(py, members, "app_config_id", text) && ParseUuid(text, py.looseHex) == s.appConfig != None
        else s.appConfig == None)
  }

  lemma FieldIs(py: Python, members: map<string, Json>, key: string, text: string)
    ensures Says(py, members, key, text) ==> Field(py, members, key) == Some(text)
    ensures Field(py, members, key) == Some(text) && text != "" ==> Says(py, members, key, text)
  {
  }

  lemma NoUuidInNothing(loose: string -> Option<Uuid>)
    ensures ParseUuid("", loose) == None && Strip("") == ""
  {
  }

  lemma UuidOfField(py: Python, members: map<string, Json>, key: string, u: Uuid)
    ensures UuidIn(py, Field(py, members, key)) == Some(u) <==>
            exists text :: Says(py, members, key, text) && ParseUuid(text, py.looseHex) == Some(u)
  {
    hide Says, Field, ParseUuid;
    NoUuidInNothing(py.looseHex);
    forall text { FieldIs(py, members, key, text); }
    if UuidIn(py, Field(py, members, key)) == Some(u) {
      assert Says(py, members, key, Field(py, members, key).value);
    }
  }

  lemma TextOfField(py: Python, members: map<string, Json>, key: string, wanted: string)
    ensures (var field := Field(py, members, key); field.Some? && Strip(field.value) == wanted != "") <==>
            exists text :: Says(py, members, key, text) && Strip(text) == wanted != ""
  {
    hide Says, Field, Strip;
    NoUuidInNothing(py.looseHex);
    forall text { FieldIs(py, members, key, text); }
    var field := Field(py, members, key);
    if field.Some? && Strip(field.value) == wanted != "" {
      assert Says(py, members, key, field.value);
    }
  }

  /** A payload is parsed as a state exactly when it says that state. */
  lemma FromPayloadIff(py: Python, members: map<string, Json>, s: State)
    ensures FromPayload(py, members) == Parsed(s) <==> Describes(py, members, s)
  {
    UuidOfField(py, members, "company_id", s.company);
    if s.appConfig.Some? { UuidOfField(py, members, "app_config_id", s.appConfig.value); }
    TextOfField(py, members, "open_id", s.openId);
    TextOfField(py, members, "resource_type", s.resourceType);
    TextOfField(py, members, "provider", s.provider);
    hide Says, Field, Strip, ParseUuid, Truthy, UuidIn;
    if HasConfig(py, members) && s.appConfig.None? { assert !Describes(py, members, s); }
  }

  /** A text is parsed as a state exactly when, trimmed, it is the prefix and ASCII letters that decode to a
      JSON object which says that state. */
  lemma ParsedIff(py: Python, text: string, s: State)
    ensures Parse(py, text) == Parsed(s) <==>
            && "user_identity:" <= Strip(text)
            && var encoded := Strip(text)[14..];
               && Base64Url.Ascii(encoded) && UnsealText(encoded).Some?
               && var payload := Loads(py.Limits(), UnsealText(encoded).value);
                  payload.Loaded? && payload.json.JObject? && Describes(py, payload.json.members, s)
  {
    assert |PREFIX| == 14;
    hide Strip, Describes, Loads, UnsealText, FromPayload;
    if PREFIX <= Strip(text) && UnsealText(Strip(text)[14..]).Some? {
      var payload := Loads(py.Limits(), UnsealText(Strip(text)[14..]).value);
      if payload.Loaded? && payload.json.JObject? { FromPayloadIff(py, payload.json.members, s); }
    }
  }

  // ---- when an exception escapes ----

  /** Some str() of the payload that is reached raises. */
  predicate StrRaises(py: Python, members: map<string, Json>) {
    var company := Field(py, members, "company_id");
    || company.None?
    || (UuidIn(py, company).Some? &&
        var config := Field(py, members, "app_config_id");
        || config.None?
        || ((HasConfig(py, members) ==> UuidIn(py, config).Some?) &&
            exists key <- ["open_id", "resource_type", "provider"] :: Field(py, members, key).None?))
  }

  lemma StrRaisesIff(py: Python, members: map<string, Json>)
    ensures FromPayload(py, members) == Escapes <==> StrRaises(py, members)
  {
    var keys := ["open_id", "resource_type", "provider"];
    assert keys[0] in keys && keys[1] in keys && keys[2] in keys;
  }

  /** The parser catches decoding errors, JSON errors and the UUIDs' ValueErrors. An exception leaves it if
      and only if a character outside ASCII follows the prefix (ValueError), or the text needs an integer
      of more than 4300 digits (ValueError) or more nesting than there is room for (RecursionError), or
      str() of a value it reads raises. What a text needs is defined by reading it without limits. */
  lemma EscapesIff(py: Python, state: string)
    ensures Parse(py, state) == Escapes <==>
            && PREFIX <= Strip(state)
            && var encoded := Strip(state)[|PREFIX|..];
               || !Base64Url.Ascii(encoded)
               || (UnsealText(encoded).Some? &&
                   var raw := UnsealText(encoded).value;
                   || NeedOf(raw).digits > MAX_DIGITS || NeedOf(raw).depth > py.room
                   || (Loads(NoLimits, raw).Loaded? && Loads(NoLimits, raw).json.JObject? &&
                       StrRaises(py, Loads(NoLimits, raw).json.members)))
  {
    if PREFIX <= Strip(state) {
      var raw := UnsealText(Strip(state)[|PREFIX|..]);
      if raw.Some? {
        OverrunIff(py.Limits(), raw.value);
        var payload := Loads(NoLimits, raw.value);
        if payload.Loaded? && payload.json.JObject? { StrRaisesIff(py, payload.json.members); }
      }
    }
  }

  /** A state of ASCII characters that holds a number of more than 4300 digits. */
  lemma LongNumberEscapes(py: Python, digits: string)
    requires |digits| > MAX_DIGITS && Integer(digits)
    ensures Base64Url.Ascii(SealText(digits)) && Parse(py, PREFIX + SealText(digits)) == Escapes
  {
    UnsealTextUndoesSeal(digits);
    Base64Url.LettersAreAscii(SealText(digits));
    LongNumberNeeds(digits);
    OverrunIff(py.Limits(), digits);
    ParseSealed(py, digits);
  }

  /** A state of ASCII characters that opens more brackets than there is room for. */
  lemma DeepNestingEscapes(py: Python, n: nat)
    requires n > py.room
    ensures Base64Url.Ascii(SealText(Brackets(n))) && Parse(py, PREFIX + SealText(Brackets(n))) == Escapes
  {
    UnsealTextUndoesSeal(Brackets(n));
    Base64Url.LettersAreAscii(SealText(Brackets(n)));
    NestingNeeds(n);
    OverrunIff(py.Limits(), Brackets(n));
    ParseSealed(py, Brackets(n));
  }

  /** Whatever needs too much lets an exception out also behind an unpaired surrogate escape. */
  lemma EscapesBehindSurrogate(py: Python, rest: string)
    requires rest != "" && rest[0] != '"' && !IsBlank(rest[0])
    requires NeedOfValue(rest).digits > MAX_DIGITS || NeedOfValue(rest).depth >= py.room
    ensures var text := ['['] + (SURROGATE + ([','] + rest));
            Base64Url.Ascii(SealText(text)) && Parse(py, PREFIX + SealText(text)) == Escapes
  {
    var text := ['['] + (SURROGATE + ([','] + rest));
    NeedBehindSurrogate(rest);
    LastItemNeeds(rest);
    UnsealTextUndoesSeal(text);
    Base64Url.LettersAreAscii(SealText(text));
    OverrunIff(py.Limits(), text);
    ParseSealed(py, text);
  }

  /** Such as the list of one surrogate and one long number. */
  lemma SurrogateAndLongNumberEscape(py: Python, digits: string)
    requires |digits| > MAX_DIGITS && Integer(digits)
    ensures Parse(py, PREFIX + SealText(['['] + (SURROGATE + ([','] + (digits + "]"))))) == Escapes
  {
    assert digits[0] in digits;
    IntegerNeeds(digits, "]");
    EscapesBehindSurrogate(py, digits + "]");
  }
}
