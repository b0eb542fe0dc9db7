/** JSON text (RFC 8259) as Python's json module reads it, and as json.dumps writes an object of strings
    with ensure_ascii=False and separators (",", ":"). */
module JsonText {
  import opened Options

  datatype Json =
    | JNull
    | JBool(value: bool)
    | JNumber(text: string)
    | JString(text: string)
    | JArray(items: seq<Json>)
    | JObject(members: map<string, Json>)

  /** What is read and what is left, or JSONDecodeError, or an exception of another class. */
  datatype Step<T> = Bad | Raises | Good(value: T, rest: string)

  /** What the interpreter still allows: so many digits in an integer literal (ValueError), so many nested
      arrays and objects (RecursionError). */
  datatype Limits = NoLimits | Limits(digits: nat, depth: nat) {
    predicate CanOpen() { NoLimits? || depth > 0 }

    /** What is allowed inside an array or an object. */
    function Inside(): Limits
      requires CanOpen()
    {
      if NoLimits? then this else Limits(digits, depth - 1)
    }
  }

  predicate IsBlank(c: char) {
    c == ' ' || c == '\t' || c == '\n' || c == '\r'
  }

  function SkipBlanks(s: string): (r: string)
    ensures |r| <= |s|
  {
    if s != "" && IsBlank(s[0]) then SkipBlanks(s[1..]) else s
  }

  // ---- strings (section 7 of RFC 8259) ----

  type Nibble = n: int | 0 <= n < 16

  function HexValue(c: char): Option<Nibble> {
    if '0' <= c <= '9' then Some(c as int - '0' as int)
    else if 'a' <= c <= 'f' then Some(c as int - 'a' as int + 10)
    else if 'A' <= c <= 'F' then Some(c as int - 'A' as int + 10)
    else None
  }

  function HexDigit(n: Nibble): char {
    if n < 10 then ('0' as int + n) as char else ('a' as int + n - 10) as char
  }

  function Hex2(c: char, d: char): (r: Option<int>)
    ensures r.Some? ==> 0 <= r.value < 0x100
  {
    var high, low := HexValue(c), HexValue(d);
    if high.None? || low.None? then None else Some(high.value * 16 + low.value)
  }

  /** The number of the first four characters, in hexadecimal. */
  function Hex4(s: string): (r: Option<int>)
    ensures r.Some? ==> |s| >= 4 && 0 <= r.value < 0x10000
  {
    if |s| < 4 then None
    else
      var high, low := Hex2(s[0], s[1]), Hex2(s[2], s[3]);
      if high.None? || low.None? then None else Some(high.value * 0x100 + low.value)
  }

  function SimpleEscape(c: char): Option<char> {
    match c
    case '"' => Some('"')
    case '\\' => Some('\\')
    case '/' => Some('/')
    case 'b' => Some('\U{8}')
    case 'f' => Some('\U{C}')
    case 'n' => Some('\n')
    case 'r' => Some('\r')
    case 't' => Some('\t')
    case _ => None
  }

  function Prepend(c: char, rest: Step<string>): (r: Step<string>)
    ensures r.Good? <==> rest.Good?
    ensures r.Good? ==> r.rest == rest.rest
  {
    if rest.Good? then Good([c] + rest.value, rest.rest) else Bad
  }

  /** The string whose opening quote has just been read. Control characters are errors. */
  function ScanString(s: string): (r: Step<string>)
    ensures r.Good? ==> |r.rest| < |s|
    decreases |s|
  {
    if s == "" then Bad
    else if s[0] == '"' then Good("", s[1..])
    else if s[0] == '\\' then ScanEscape(s[1..])
    else if s[0] < ' ' then Bad
    else Prepend(s[0], ScanString(s[1..]))
  }

  /** What follows a backslash. Two \u escapes of a surrogate pair are one character; an unpaired one is
      accepted as well, and read as U+FFFD, since a text here holds no surrogates. */
  function ScanEscape(s: string): (r: Step<string>)
    ensures r.Good? ==> |r.rest| < |s|
    decreases |s|
  {
    if s == "" then Bad
    else if SimpleEscape(s[0]).Some? then Prepend(SimpleEscape(s[0]).value, ScanString(s[1..]))
    else if s[0] != 'u' || Hex4(s[1..]).None? then Bad
    else
      var n := Hex4(s[1..]).value;
      if n < 0xD800 || n >= 0xE000 then Prepend(n as char, ScanString(s[5..]))
      else if n < 0xDC00 && |s| >= 7 && s[5..7] == "\\u" &&
              Hex4(s[7..]).Some? && 0xDC00 <= Hex4(s[7..]).value < 0xE000 then
        Prepend((0x10000 + (n - 0xD800) * 0x400 + (Hex4(s[7..]).value - 0xDC00)) as char, ScanString(s[11..]))
      else Prepend('\U{FFFD}', ScanString(s[5..]))
  }

  // ---- numbers and words ----

  function DigitsAt(s: string, i: nat): (n: nat)
    requires i <= |s|
    ensures i + n <= |s|
    decreases |s| - i
  {
    if i < |s| && '0' <= s[i] <= '9' then 1 + DigitsAt(s, i + 1) else 0
  }

  /** The length of the number at the start of s, or 0. */
  function NumberLength(s: string): (n: nat)
    ensures n <= |s|
  {
    var start := if s != "" && s[0] == '-' then 1 else 0;
    var whole := if start < |s| && s[start] == '0' then 1 else DigitsAt(s, start);
    if whole == 0 then 0
    else
      var i := start + whole;
      var fraction := if i < |s| && s[i] == '.' && DigitsAt(s, i + 1) > 0 then 1 + DigitsAt(s, i + 1) else 0;
      var j := i + fraction;
      var sign := if j + 1 < |s| && (s[j] == 'e' || s[j] == 'E') && (s[j + 1] == '+' || s[j + 1] == '-') then 1 else 0;
      var exponent :=
        if j < |s| && (s[j] == 'e' || s[j] == 'E') && DigitsAt(s, j + 1 + sign) > 0 then
          1 + sign + DigitsAt(s, j + 1 + sign)
        else 0;
      j + exponent
  }

  function Word(s: string, word: string, value: Json): Step<Json> {
    if word <= s then Good(value, s[|word|..]) else Bad
  }

  /** The digits of the integer literal at the start of s; 0 when it has a fraction or an exponent. */
  function IntegerDigits(s: string): nat {
    var start := if s != "" && s[0] == '-' then 1 else 0;
    var whole := if start < |s| && s[start] == '0' then 1 else DigitsAt(s, start);
    if NumberLength(s) == start + whole then whole else 0
  }

  function ParseScalar(l: Limits, s: string): (r: Step<Json>)
    ensures r.Good? ==> |r.rest| < |s|
    ensures l.NoLimits? ==> !r.Raises?
  {
    if s == "" then Bad
    else match s[0]
         case 'n' => Word(s, "null", JNull)
         case 't' => Word(s, "true", JBool(true))
         case 'f' => Word(s, "false", JBool(false))
         case 'N' => Word(s, "NaN", JNumber("NaN"))
         case 'I' => Word(s, "Infinity", JNumber("Infinity"))
         case _ =>
           var n := NumberLength(s);
           if n == 0 then Word(s, "-Infinity", JNumber("-Infinity"))
           else if l.Limits? && IntegerDigits(s) > l.digits then Raises
           else Good(JNumber(s[..n]), s[n..])
  }

  // ---- values ----

  function ParseValue(l: Limits, s: string): (r: Step<Json>)
    ensures r.Good? ==> |r.rest| < |s|
    ensures l.NoLimits? ==> !r.Raises?
    decreases |s|, 1
  {
    if s == "" then Bad
    else if s[0] == '"' then
      var text := ScanString(s[1..]);
      if text.Good? then Good(JString(text.value), text.rest) else Bad
    else if s[0] == '{' then
      var t := SkipBlanks(s[1..]);
      if !l.CanOpen() then Raises
      else if t != "" && t[0] == '}' then Good(JObject(map[]), t[1..])
      else ParseMembers(l.Inside(), t, map[])
    else if s[0] == '[' then
      var t := SkipBlanks(s[1..]);
      if !l.CanOpen() then Raises
      else if t != "" && t[0] == ']' then Good(JArray([]), t[1..])
      else ParseItems(l.Inside(), t, [])
    else ParseScalar(l, s)
  }

  function ParseMembers(l: Limits, s: string, found: map<string, Json>): (r: Step<Json>)
    ensures r.Good? ==> |r.rest| < |s|
    ensures l.NoLimits? ==> !r.Raises?
    decreases |s|, 0
  {
    var key := MemberKey(s);
    if key.Bad? then Bad
    else
      var value := ParseValue(l, key.rest);
      if value.Bad? then Bad
      else if value.Raises? then Raises
      else
        var next := SkipBlanks(value.rest);
        var members := found[key.value := value.value];
        if next == "" then Bad
        else if next[0] == '}' then Good(JObject(members), next[1..])
        else if next[0] == ',' then ParseMembers(l, SkipBlanks(next[1..]), members)
        else Bad
  }

  /** A member up to its value: the key, and the text at the value. */
  function MemberKey(s: string): (r: Step<string>)
    ensures !r.Raises?
    ensures r.Good? ==> |r.rest| < |s|
  {
    if s == "" || s[0] != '"' then Bad
    else
      var key := ScanString(s[1..]);
      if !key.Good? then Bad
      else
        var colon := SkipBlanks(key.rest);
        if colon == "" || colon[0] != ':' then Bad else Good(key.value, SkipBlanks(colon[1..]))
  }

  function ParseItems(l: Limits, s: string, found: seq<Json>): (r: Step<Json>)
    ensures r.Good? ==> |r.rest| < |s|
    ensures l.NoLimits? ==> !r.Raises?
    decreases |s|, 2
  {
    var value := ParseValue(l, s);
    if value.Bad? then Bad
    else if value.Raises? then Raises
    else
      var next := SkipBlanks(value.rest);
      if next == "" then Bad
      else if next[0] == ']' then Good(JArray(found + [value.value]), next[1..])
      else if next[0] == ',' then ParseItems(l, SkipBlanks(next[1..]), found + [value.value])
      else Bad
  }

  /** JSONDecodeError, another exception, or the value. */
  datatype Loaded = NotJson | Overrun | Loaded(json: Json)

  /** json.loads. */
  function Loads(l: Limits, s: string): Loaded {
    if s != "" && s[0] == '\U{FEFF}' then NotJson
    else
      var value := ParseValue(l, SkipBlanks(s));
      if value.Raises? then Overrun
      else if value.Good? && SkipBlanks(value.rest) == "" then Loaded(value.value)
      else NotJson
  }

  // ---- what a text asks of the interpreter ----

  /** The most digits of an integer literal, and the deepest nesting, that reading a text without limits
      meets before it ends or finds an error. */
  datatype Need = Need(digits: nat, depth: nat) {
    predicate Exceeds(l: Limits) { l.Limits? && (digits > l.digits || depth > l.depth) }

    function And(other: Need): Need {
      Need(if digits < other.digits then other.digits else digits, if depth < other.depth then other.depth else depth)
    }

    function Within(): Need { Need(digits, depth + 1) }
  }

  const LITTLE := Need(0, 0)

  function NeedOfValue(s: string): Need
    decreases |s|, 1
  {
    if s == "" || s[0] == '"' then LITTLE
    else if s[0] == '{' then
      var t := SkipBlanks(s[1..]);
      if t != "" && t[0] == '}' then LITTLE.Within() else NeedOfMembers(t).Within()
    else if s[0] == '[' then
      var t := SkipBlanks(s[1..]);
      if t != "" && t[0] == ']' then LITTLE.Within() else NeedOfItems(t).Within()
    else if s[0] in {'n', 't', 'f', 'N', 'I'} then LITTLE
    else Need(IntegerDigits(s), 0)
  }

  function NeedOfMembers(s: string): Need
    decreases |s|, 0
  {
    var key := MemberKey(s);
    if key.Bad? then LITTLE
    else
      var need, value := NeedOfValue(key.rest), ParseValue(NoLimits, key.rest);
      if value.Bad? then need
      else
        var next := SkipBlanks(value.rest);
        if next != "" && next[0] == ',' then need.And(NeedOfMembers(SkipBlanks(next[1..]))) else need
  }

  function NeedOfItems(s: string): Need
    decreases |s|, 2
  {
    var need, value := NeedOfValue(s), ParseValue(NoLimits, s);
    if value.Bad? then need
    else
      var next := SkipBlanks(value.rest);
      if next != "" && next[0] == ',' then need.And(NeedOfItems(SkipBlanks(next[1..]))) else need
  }

  /** Within the limits a value is read as without any, and beyond them reading it raises. */
  lemma {:induction false} ValueNeeds(l: Limits, s: string)
    requires l.Limits?
    ensures ParseValue(l, s) == if NeedOfValue(s).Exceeds(l) then Raises else ParseValue(NoLimits, s)
    decreases |s|, 1
  {
    if s != "" && s[0] == '{' {
      var t := SkipBlanks(s[1..]);
      if l.CanOpen() && !(t != "" && t[0] == '}') { MembersNeed(l.Inside(), t, map[]); }
    } else if s != "" && s[0] == '[' {
      var t := SkipBlanks(s[1..]);
      if l.CanOpen() && !(t != "" && t[0] == ']') { ItemsNeed(l.Inside(), t, []); }
    }
  }

  lemma {:induction false} MembersNeed(l: Limits, s: string, found: map<string, Json>)
    requires l.Limits?
    ensures ParseMembers(l, s, found) ==
            if NeedOfMembers(s).Exceeds(l) then Raises else ParseMembers(NoLimits, s, found)
    decreases |s|, 0
  {
    var key := MemberKey(s);
    if key.Good? {
      ValueNeeds(l, key.rest);
      var value := ParseValue(NoLimits, key.rest);
      if value.Good? {
        var next := SkipBlanks(value.rest);
        if next != "" && next[0] == ',' { MembersNeed(l, SkipBlanks(next[1..]), found[key.value := value.value]); }
      }
    }
  }

  lemma {:induction false} ItemsNeed(l: Limits, s: string, found: seq<Json>)
    requires l.Limits?
    ensures ParseItems(l, s, found) == if NeedOfItems(s).Exceeds(l) then Raises else ParseItems(NoLimits, s, found)
    decreases |s|, 2
  {
    ValueNeeds(l, s);
    var value := ParseValue(NoLimits, s);
    if value.Good? {
      var next := SkipBlanks(value.rest);
      if next != "" && next[0] == ',' { ItemsNeed(l, SkipBlanks(next[1..]), found + [value.value]); }
    }
  }

  function NeedOf(s: string): Need {
    if s != "" && s[0] == '\U{FEFF}' then LITTLE else NeedOfValue(SkipBlanks(s))
  }

  /** json.loads raises something else than JSONDecodeError exactly when the text needs more than the
      limits, and within them it reads what it would read without. */
  lemma OverrunIff(l: Limits, s: string)
    requires l.Limits?
    ensures Loads(l, s) == Overrun <==> NeedOf(s).Exceeds(l)
    ensures !NeedOf(s).Exceeds(l) ==> Loads(l, s) == Loads(NoLimits, s)
  {
    ValueNeeds(l, SkipBlanks(s));
  }

  /** A written integer. */
  predicate Integer(digits: string) {
    digits != "" && digits[0] != '0' && forall c <- digits :: '0' <= c <= '9'
  }

  lemma {:induction false} AllDigits(digits: string, tail: string, i: nat)
    requires i <= |digits| && forall c <- digits :: '0' <= c <= '9'
    requires tail == "" || tail[0] == ']'
    ensures DigitsAt(digits + tail, i) == |digits| - i
    decreases |digits| - i
  {
    if i < |digits| {
      assert digits[i] in digits;
      AllDigits(digits, tail, i + 1);
    }
  }

  /** An integer needs its digits, and nothing else. */
  lemma IntegerNeeds(digits: string, tail: string)
    requires Integer(digits) && (tail == "" || tail[0] == ']')
    ensures NeedOfValue(digits + tail) == Need(|digits|, 0) && SkipBlanks(digits + tail) == digits + tail
  {
    assert digits[0] in digits;
    AllDigits(digits, tail, 0);
  }

  lemma LongNumberNeeds(digits: string)
    requires Integer(digits)
    ensures NeedOf(digits) == Need(|digits|, 0)
  {
    assert digits + "" == digits && digits[0] in digits;
    IntegerNeeds(digits, "");
  }

  const SURROGATE := "\"\\ud800\""

  lemma SurrogateIsRead(tail: string)
    ensures ParseValue(NoLimits, SURROGATE + tail) == Good(JString("\U{FFFD}"), tail)
    ensures NeedOfValue(SURROGATE + tail) == LITTLE && SkipBlanks(SURROGATE + tail) == SURROGATE + tail
  {
    var s := SURROGATE + tail;
    assert s[0] == '"' && s[1] == '\\' && s[2] == 'u' && s[3] == 'd' && s[4] == '8' && s[5] == '0' && s[6] == '0';
    assert s[7] == '"' && s[8..] == tail;
    var a, b := s[1..], s[2..];
    assert a[1..] == b && b[1..] == s[3..] && b[5..] == s[7..] && s[7..][1..] == tail;
    assert Hex4(s[3..]) == Some(0xD800);
    if |b| >= 7 { assert b[5..7][0] == '"' && "\\u"[0] == '\\'; }
    assert ScanString(s[7..]) == Good("", tail);
    assert ScanEscape(b) == Prepend('\U{FFFD}', ScanString(s[7..]));
    assert ScanString(a) == ScanEscape(b);
    assert ['\U{FFFD}'] + "" == "\U{FFFD}";
  }

  lemma ItemBehindSurrogate(rest: string)
    requires rest != "" && !IsBlank(rest[0])
    ensures NeedOfItems(SURROGATE + ([','] + rest)) == NeedOfItems(rest)
  {
    var tail := [','] + rest;
    SurrogateIsRead(tail);
    assert tail[1..] == rest && SkipBlanks(tail) == tail && SkipBlanks(rest) == rest;
    hide NeedOfValue, ParseValue, SkipBlanks;
  }

  /** An unpaired surrogate does not keep the reading from what comes after it. */
  lemma NeedBehindSurrogate(rest: string)
    requires rest != "" && !IsBlank(rest[0])
    ensures NeedOf(['['] + (SURROGATE + ([','] + rest))) == NeedOfItems(rest).Within()
  {
    var t := SURROGATE + ([','] + rest);
    var s := ['['] + t;
    ItemBehindSurrogate(rest);
    assert t[0] == '"' && s[1..] == t;
    assert SkipBlanks(t) == t && SkipBlanks(s) == s;
    assert NeedOfValue(s) == NeedOfItems(t).Within() by { hide NeedOfItems, ParseItems, ParseValue; }
  }

  lemma LastItemNeeds(s: string)
    requires s != "" && s[0] != '"'
    ensures NeedOfItems(s).digits >= NeedOfValue(s).digits && NeedOfItems(s).depth >= NeedOfValue(s).depth
  {
  }

  function Brackets(n: nat): string {
    if n == 0 then "" else ['['] + Brackets(n - 1)
  }

  lemma OneBracketMore(rest: string)
    requires rest == "" || rest[0] == '['
    requires ParseValue(NoLimits, rest) == Bad
    ensures NeedOfValue(['['] + rest) == NeedOfValue(rest).Within()
    ensures ParseValue(NoLimits, ['['] + rest) == Bad && NeedOf(['['] + rest) == NeedOfValue(['['] + rest)
  {
    var s := ['['] + rest;
    assert s[1..] == rest && SkipBlanks(rest) == rest && SkipBlanks(s) == s;
    assert NeedOfItems(rest) == NeedOfValue(rest);
    assert ParseItems(NoLimits, rest, []) == Bad;
  }

  /** Opening brackets need as much room as there are of them, though nothing closes them. */
  lemma {:induction false} NestingNeeds(n: nat)
    ensures NeedOfValue(Brackets(n)) == Need(0, n) && NeedOf(Brackets(n)) == Need(0, n)
    ensures ParseValue(NoLimits, Brackets(n)) == Bad
  {
    if n > 0 {
      NestingNeeds(n - 1);
      OneBracketMore(Brackets(n - 1));
    }
  }

  // ---- writing ----

  function EscapeChar(c: char): string {
    if c == '"' then "\\\""
    else if c == '\\' then "\\\\"
    else if c == '\n' then "\\n"
    else if c == '\r' then "\\r"
    else if c == '\t' then "\\t"
    else if c == '\U{C}' then "\\f"
    else if c == '\U{8}' then "\\b"
    else if c < ' ' then ['\\', 'u', '0', '0', HexDigit(c as int / 16), HexDigit(c as int % 16)]
    else [c]
  }

  function EscapeAll(s: string): string {
    if s == "" then "" else EscapeChar(s[0]) + EscapeAll(s[1..])
  }

  function DumpString(s: string): string {
    ['"'] + EscapeAll(s) + ['"']
  }

  function DumpMembers(members: seq<(string, string)>): string {
    if members == [] then ""
    else
      DumpString(members[0].0) + ([':'] + (DumpString(members[0].1) +
      (if |members| == 1 then "" else [','] + DumpMembers(members[1..]))))
  }

  /** json.dumps of an object of strings, its members in the order given. */
  function Dumps(members: seq<(string, string)>): string {
    ['{'] + DumpMembers(members) + ['}']
  }

  /** The dictionary the members make; a later one of the same name wins. */
  function Dictionary(found: map<string, Json>, members: seq<(string, string)>): map<string, Json>
    decreases |members|
  {
    if members == [] then found
    else Dictionary(found[members[0].0 := JString(members[0].1)], members[1..])
  }

  /** Text that needs no escape. */
  predicate Unescaped(s: string) {
    forall i | 0 <= i < |s| :: s[i] >= ' ' && s[i] != '"' && s[i] != '\\'
  }

  lemma {:induction false} UnescapedStays(s: string)
    requires Unescaped(s)
    ensures EscapeAll(s) == s
  {
    if s != "" {
      UnescapedStays(s[1..]);
      assert EscapeChar(s[0]) == [s[0]];
    }
  }

  /** The members without blanks, every character as it is. */
  function CompactText(members: seq<(string, string)>): string {
    if members == [] then ""
    else
      "\"" + members[0].0 + "\":\"" + members[0].1 + "\"" +
      (if |members| == 1 then "" else "," + CompactText(members[1..]))
  }

  /** An object is written that way whenever JSON does not demand an escape, in whatever script. */
  lemma {:induction false} WrittenCompactly(members: seq<(string, string)>)
    requires forall i | 0 <= i < |members| :: Unescaped(members[i].0) && Unescaped(members[i].1)
    ensures DumpMembers(members) == CompactText(members)
  {
    hide Unescaped, EscapeAll;
    if members != [] {
      UnescapedStays(members[0].0);
      UnescapedStays(members[0].1);
      WrittenCompactly(members[1..]);
      assert "\":\"" == ['"'] + [':'] + ['"'];
    }
  }

  // ---- reading undoes writing ----

  lemma HexDigitValue(n: Nibble)
    ensures HexValue(HexDigit(n)) == Some(n)
  {
  }

  lemma ScanEscapedControl(c: char, tail: string)
    requires c < ' '
    ensures ScanEscape(['u', '0', '0', HexDigit(c as int / 16), HexDigit(c as int % 16)] + tail) ==
            Prepend(c, ScanString(tail))
  {
    var s := ['u', '0', '0', HexDigit(c as int / 16), HexDigit(c as int % 16)] + tail;
    HexDigitValue(c as int / 16);
    HexDigitValue(c as int % 16);
    assert s[1] == '0' && s[2] == '0' && s[3] == HexDigit(c as int / 16) && s[4] == HexDigit(c as int % 16);
    assert Hex4(s[1..]) == Some(c as int);
    assert s[5..] == tail;
  }

  lemma ScanEscapedChar(c: char, tail: string)
    ensures ScanString(EscapeChar(c) + tail) == Prepend(c, ScanString(tail))
  {
    var s := EscapeChar(c) + tail;
    if c in ['"', '\\', '\n', '\r', '\t', '\U{C}', '\U{8}'] {
      assert s[0] == '\\' && s[1] == EscapeChar(c)[1];
      assert s[1..][1..] == tail;
      assert SimpleEscape(s[1..][0]) == Some(c);
    } else if c < ' ' {
      assert s[0] == '\\';
      assert s[1..] == ['u', '0', '0', HexDigit(c as int / 16), HexDigit(c as int % 16)] + tail;
      ScanEscapedControl(c, tail);
    } else {
      assert s[0] == c && s[1..] == tail;
    }
  }

  /** A written string is read back, up to its closing quote. */
  lemma {:induction false} ScanUndoesEscape(s: string, tail: string)
    ensures ScanString(EscapeAll(s) + ['"'] + tail) == Good(s, tail)
  {
    if s == "" {
      assert EscapeAll(s) + ['"'] + tail == ['"'] + tail;
      assert (['"'] + tail)[1..] == tail;
    } else {
      ScanEscapedChar(s[0], EscapeAll(s[1..]) + ['"'] + tail);
      assert EscapeAll(s) + ['"'] + tail == EscapeChar(s[0]) + (EscapeAll(s[1..]) + ['"'] + tail);
      ScanUndoesEscape(s[1..], tail);
      assert [s[0]] + s[1..] == s;
    }
  }

  lemma NoBlanksToSkip(s: string)
    requires s != "" && !IsBlank(s[0])
    ensures SkipBlanks(s) == s
  {
  }

  /** A written string is a value. */
  lemma ReadText(text: string, tail: string)
    ensures ScanString((DumpString(text) + tail)[1..]) == Good(text, tail)
    ensures forall l: Limits :: ParseValue(l, DumpString(text) + tail) == Good(JString(text), tail)
  {
    var s := DumpString(text) + tail;
    assert s[0] == '"' && s[1..] == EscapeAll(text) + ['"'] + tail;
    ScanUndoesEscape(text, tail);
  }

  /** One written member is read, and the reading goes on with what follows it. */
  lemma ReadMember(l: Limits, key: string, text: string, found: map<string, Json>, tail: string)
    requires tail != "" && !IsBlank(tail[0])
    ensures ParseMembers(l, DumpString(key) + ([':'] + (DumpString(text) + tail)), found) ==
            var members := found[key := JString(text)];
            if tail[0] == '}' then Good(JObject(members), tail[1..])
            else if tail[0] == ',' then ParseMembers(l, SkipBlanks(tail[1..]), members)
            else Bad
  {
    var atText := DumpString(text) + tail;
    var atColon := [':'] + atText;
    ReadText(key, atColon);
    ReadText(text, tail);
    NoBlanksToSkip(atColon);
    assert atColon[1..] == atText && atText[0] == '"';
    NoBlanksToSkip(atText);
    NoBlanksToSkip(tail);
  }

  lemma Assoc(a: string, b: string, c: string)
    ensures (a + b) + c == a + (b + c)
  {
  }

  lemma DumpMembersSplit(members: seq<(string, string)>, tail: string)
    requires members != []
    ensures DumpMembers(members) + tail ==
            DumpString(members[0].0) + ([':'] + (DumpString(members[0].1) +
              (if |members| == 1 then tail else [','] + (DumpMembers(members[1..]) + tail))))
  {
    var key, text := DumpString(members[0].0), DumpString(members[0].1);
    var more := if |members| == 1 then "" else [','] + DumpMembers(members[1..]);
    Assoc(key, [':'] + (text + more), tail);
    Assoc([':'], text + more, tail);
    Assoc(text, more, tail);
    if |members| == 1 {
      assert "" + tail == tail;
    } else {
      Assoc([','], DumpMembers(members[1..]), tail);
    }
  }

  lemma {:induction false} ReadMembers(
    l: Limits, members: seq<(string, string)>, found: map<string, Json>, tail: string)
    requires members != []
    ensures ParseMembers(l, DumpMembers(members) + (['}'] + tail), found) ==
            Good(JObject(Dictionary(found, members)), tail)
    decreases |members|
  {
    var (key, text) := members[0];
    DumpMembersSplit(members, ['}'] + tail);
    if |members| == 1 {
      ReadMember(l, key, text, found, ['}'] + tail);
      assert (['}'] + tail)[1..] == tail;
    } else {
      var rest := DumpMembers(members[1..]) + (['}'] + tail);
      ReadMember(l, key, text, found, [','] + rest);
      assert ([','] + rest)[1..] == rest;
      DumpMembersSplit(members[1..], ['}'] + tail);
      NoBlanksToSkip(rest);
      ReadMembers(l, members[1..], found[key := JString(text)], tail);
    }
  }

  lemma ReadObject(l: Limits, inner: string)
    requires inner != "" && inner[0] == '"' && l.CanOpen()
    ensures ParseValue(l, SkipBlanks(['{'] + inner)) == ParseMembers(l.Inside(), inner, map[])
  {
    NoBlanksToSkip(['{'] + inner);
    NoBlanksToSkip(inner);
    assert (['{'] + inner)[1..] == inner;
  }

  /** json.loads undoes json.dumps: any texts at all come back as the dictionary of the members. */
  lemma LoadsUndoesDumps(l: Limits, members: seq<(string, string)>)
    requires members != [] && l.CanOpen()
    ensures Loads(l, Dumps(members)) == Loaded(JObject(Dictionary(map[], members)))
  {
    var inner := DumpMembers(members) + (['}'] + "");
    assert Dumps(members) == ['{'] + inner;
    ReadObject(l, inner);
    ReadMembers(l.Inside(), members, map[], "");
  }
}
