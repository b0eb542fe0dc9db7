/** The grammar of JSON text (RFC 8259, and the three words Python adds), as trees with a text and a value;
    json.loads reads exactly the texts of the grammar, and reads their values. */
module JsonGrammar {
  import opened Options
  import opened JsonText

  // ---- strings ----

  /** A character as it is, an escape of one letter, or a \u escape of four hexadecimal digits. */
  datatype Piece = Plain(c: char) | Letter(letter: char) | Unit(hex: string)

  ghost predicate PieceOk(p: Piece) {
    match p
    case Plain(c) => c != '"' && c != '\\' && c >= ' '
    case Letter(letter) => SimpleEscape(letter).Some?
    case Unit(hex) => |hex| == 4 && Hex4(hex).Some?
  }

  ghost predicate PiecesOk(ps: seq<Piece>) {
    forall i | 0 <= i < |ps| :: PieceOk(ps[i])
  }

  function PieceText(p: Piece): string {
    match p
    case Plain(c) => [c]
    case Letter(letter) => ['\\', letter]
    case Unit(hex) => ['\\', 'u'] + hex
  }

  function PiecesText(ps: seq<Piece>): string {
    if ps == [] then "" else PieceText(ps[0]) + PiecesText(ps[1..])
  }

  predicate High(n: int) { 0xD800 <= n < 0xDC00 }

  predicate Low(n: int) { 0xDC00 <= n < 0xE000 }

  predicate StartsWithLow(ps: seq<Piece>) {
    ps != [] && ps[0].Unit? && Hex4(ps[0].hex).Some? && Low(Hex4(ps[0].hex).value)
  }

  /** The characters: a high and a low surrogate in a row are one, an unpaired one stands as U+FFFD. */
  ghost function PiecesValue(ps: seq<Piece>): string
    requires PiecesOk(ps)
    decreases |ps|
  {
    if ps == [] then ""
    else
      match ps[0]
      case Plain(c) => [c] + PiecesValue(ps[1..])
      case Letter(letter) => [SimpleEscape(letter).value] + PiecesValue(ps[1..])
      case Unit(hex) =>
        var n := Hex4(hex).value;
        if High(n) && StartsWithLow(ps[1..]) then
          [(0x10000 + (n - 0xD800) * 0x400 + (Hex4(ps[1].hex).value - 0xDC00)) as char] + PiecesValue(ps[2..])
        else [if High(n) || Low(n) then '\U{FFFD}' else n as char] + PiecesValue(ps[1..])
  }

  // ---- numbers and words ----

  predicate Digits(s: string) {
    s != "" && forall c <- s :: '0' <= c <= '9'
  }

  /** -? (0 | digit1-9 digit*) (. digit+)? ((e|E) (+|-)? digit+)? */
  datatype Number = Number(minus: bool, whole: string, fraction: string, mark: string, exponent: string)

  predicate NumberOk(n: Number) {
    && Digits(n.whole) && (n.whole[0] == '0' ==> n.whole == "0")
    && (n.fraction != "" ==> Digits(n.fraction))
    && (n.exponent == "" <==> n.mark == "")
    && (n.exponent != "" ==> Digits(n.exponent) && n.mark in {"e", "E", "e+", "E+", "e-", "E-"})
  }

  function NumberText(n: Number): string {
    MinusText(n) + n.whole + FractionText(n) + ExponentText(n)
  }

  function MinusText(n: Number): string {
    if n.minus then "-" else ""
  }

  function FractionText(n: Number): string {
    if n.fraction != "" then "." + n.fraction else ""
  }

  function ExponentText(n: Number): string {
    n.mark + n.exponent
  }

  datatype Word = Null | True | False | NaN | Infinity | MinusInfinity

  function WordText(w: Word): string {
    match w
    case Null => "null"
    case True => "true"
    case False => "false"
    case NaN => "NaN"
    case Infinity => "Infinity"
    case MinusInfinity => "-Infinity"
  }

  function WordValue(w: Word): Json {
    match w
    case Null => JNull
    case True => JBool(true)
    case False => JBool(false)
    case _ => JNumber(WordText(w))
  }

  // ---- values ----

  datatype Tree =
    | Spelled(w: Word)
    | Numeral(n: Number)
    | Quoted(ps: seq<Piece>)
    | EmptyArray(blanks: string)
    | Array(elements: Elements)
    | EmptyObject(blanks: string)
    | Object(entries: Entries)

  /** A value of an array with the blanks around it, and those after it. */
  datatype Elements =
    | Last(lead: string, value: Tree, trail: string)
    | More(lead: string, value: Tree, trail: string, rest: Elements)

  /** A member of an object with the blanks around its parts, and those after it. */
  datatype Entries =
    | LastEntry(lead: string, key: seq<Piece>, before: string, behind: string, value: Tree, trail: string)
    | MoreEntries(
        lead: string, key: seq<Piece>, before: string, behind: string, value: Tree, trail: string, rest: Entries)

  predicate Blanks(s: string) {
    forall c <- s :: IsBlank(c)
  }

  ghost predicate TreeOk(t: Tree) {
    match t
    case Spelled(_) => true
    case Numeral(n) => NumberOk(n)
    case Quoted(ps) => PiecesOk(ps)
    case EmptyArray(blanks) => Blanks(blanks)
    case Array(elements) => ElementsOk(elements)
    case EmptyObject(blanks) => Blanks(blanks)
    case Object(entries) => EntriesOk(entries)
  }

  ghost predicate ElementsOk(e: Elements) {
    Blanks(e.lead) && TreeOk(e.value) && Blanks(e.trail) && (e.More? ==> ElementsOk(e.rest))
  }

  ghost predicate EntriesOk(e: Entries) {
    && Blanks(e.lead) && PiecesOk(e.key) && Blanks(e.before) && Blanks(e.behind) && TreeOk(e.value) && Blanks(e.trail)
    && (e.MoreEntries? ==> EntriesOk(e.rest))
  }

  function QuotedText(ps: seq<Piece>): string {
    ['"'] + (PiecesText(ps) + ['"'])
  }

  function TreeText(t: Tree): string {
    match t
    case Spelled(w) => WordText(w)
    case Numeral(n) => NumberText(n)
    case Quoted(ps) => QuotedText(ps)
    case EmptyArray(blanks) => ['['] + (blanks + [']'])
    case Array(elements) => ['['] + (elements.lead + ElementsText(elements))
    case EmptyObject(blanks) => ['{'] + (blanks + ['}'])
    case Object(entries) => ['{'] + (entries.lead + EntriesText(entries))
  }

  /** From the first value on, with the closing bracket. */
  function ElementsText(e: Elements): string {
    TreeText(e.value) + (e.trail + if e.Last? then [']'] else [','] + (e.rest.lead + ElementsText(e.rest)))
  }

  /** From the first key on, with the closing brace. */
  function EntriesText(e: Entries): string {
    QuotedText(e.key) + (e.before + ([':'] + (e.behind + (TreeText(e.value) +
      (e.trail + if e.LastEntry? then ['}'] else [','] + (e.rest.lead + EntriesText(e.rest)))))))
  }

  ghost function TreeValue(t: Tree): Json
    requires TreeOk(t)
  {
    match t
    case Spelled(w) => WordValue(w)
    case Numeral(n) => JNumber(NumberText(n))
    case Quoted(ps) => JString(PiecesValue(ps))
    case EmptyArray(_) => JArray([])
    case Array(elements) => JArray(ElementsValue([], elements))
    case EmptyObject(_) => JObject(map[])
    case Object(entries) => JObject(EntriesValue(map[], entries))
  }

  ghost function ElementsValue(found: seq<Json>, e: Elements): seq<Json>
    requires ElementsOk(e)
    decreases e
  {
    var more := found + [TreeValue(e.value)];
    if e.Last? then more else ElementsValue(more, e.rest)
  }

  /** Of members of one name the last counts. */
  ghost function EntriesValue(found: map<string, Json>, e: Entries): map<string, Json>
    requires EntriesOk(e)
    decreases e
  {
    var more := found[PiecesValue(e.key) := TreeValue(e.value)];
    if e.LastEntry? then more else EntriesValue(more, e.rest)
  }

  // ---- strings are scanned as their pieces ----

  lemma Hex4OfFour(hex: string, tail: string)
    requires |hex| == 4
    ensures Hex4(hex + tail) == Hex4(hex) && (hex + tail)[4..] == tail
  {
  }

  lemma ScanPlain(c: char, after: string)
    requires PieceOk(Plain(c))
    ensures ScanString([c] + after) == Prepend(c, ScanString(after))
  {
    hide ScanEscape, Prepend;
    assert ([c] + after)[1..] == after;
  }

  lemma ScanLetter(letter: char, after: string)
    requires PieceOk(Letter(letter))
    ensures ScanString(['\\', letter] + after) == Prepend(SimpleEscape(letter).value, ScanString(after))
  {
    hide Prepend, Hex4;
    var s := ['\\', letter] + after;
    var b := s[1..];
    assert b[0] == letter && b[1..] == after;
    assert ScanEscape(b) == Prepend(SimpleEscape(letter).value, ScanString(b[1..]));
    assert s[0] == '\\';
  }

  /** What ScanEscape sees of the text behind a \u escape: the number of a second one. */
  function SecondUnit(after: string): Option<int> {
    if |after| >= 6 && after[0] == '\\' && after[1] == 'u' && Hex4(after[2..]).Some? && Low(Hex4(after[2..]).value) then
      Hex4(after[2..])
    else None
  }

  lemma EscapeIs(hex: string, after: string)
    requires |hex| == 4 && Hex4(hex).Some?
    ensures var n, b := Hex4(hex).value, ['u'] + hex + after;
            ScanEscape(b) ==
            if High(n) && SecondUnit(after).Some? then
              Prepend((0x10000 + (n - 0xD800) * 0x400 + (SecondUnit(after).value - 0xDC00)) as char,
                      ScanString(after[6..]))
            else Prepend(if High(n) || Low(n) then '\U{FFFD}' else n as char, ScanString(after))
  {
    hide Prepend, ScanString;
    var b := ['u'] + hex + after;
    assert b[0] == 'u' && b[1..] == hex + after && b[5..] == after;
    Hex4OfFour(hex, after);
    if |b| >= 7 {
      assert b[5..7] == [after[0], after[1]] && b[7..] == after[2..];
      if |b| >= 11 { assert b[11..] == after[6..]; }
    }
    hide Hex4;
  }

  lemma ScanUnit(hex: string, after: string)
    requires |hex| == 4 && Hex4(hex).Some?
    ensures ScanString(['\\', 'u'] + hex + after) == ScanEscape(['u'] + hex + after)
  {
    hide ScanEscape, Hex4;
    var s := ['\\', 'u'] + hex + after;
    assert s[1..] == ['u'] + hex + after && s[0] == '\\';
  }

  lemma NoUnitFirst(p: Piece, more: string)
    requires PieceOk(p) && !p.Unit?
    ensures SecondUnit(PieceText(p) + more) == None
  {
    hide Hex4;
    var s := PieceText(p) + more;
    match p
    case Plain(c) => assert s[0] == c;
    case Letter(letter) => assert s[1] == letter;
  }

  lemma UnitFirst(hex: string, more: string)
    requires PieceOk(Unit(hex))
    ensures var after := PieceText(Unit(hex)) + more;
            && SecondUnit(after) == (if Low(Hex4(hex).value) then Hex4(hex) else None)
            && |after| >= 6 && after[6..] == more
  {
    var after := PieceText(Unit(hex)) + more;
    assert after[2..] == hex + more && after[6..] == more;
    Hex4OfFour(hex, more);
    hide Hex4;
  }

  lemma PutFirst(first: Piece, ps: seq<Piece>, tail: string)
    requires PieceOk(first) && PiecesOk(ps)
    ensures PiecesOk([first] + ps)
    ensures PieceText(first) + (PiecesText(ps) + (['"'] + tail)) == PiecesText([first] + ps) + (['"'] + tail)
  {
    assert ([first] + ps)[1..] == ps;
  }

  /** What the text of pieces starts with, followed by a closing quote. */
  lemma SecondUnitOfPieces(ps: seq<Piece>, tail: string)
    requires PiecesOk(ps)
    ensures var after := PiecesText(ps) + (['"'] + tail);
            && SecondUnit(after) == (if StartsWithLow(ps) then Hex4(ps[0].hex) else None)
            && (StartsWithLow(ps) ==> after[6..] == PiecesText(ps[1..]) + (['"'] + tail))
  {
    if ps == [] {
      assert (PiecesText(ps) + (['"'] + tail))[0] == '"';
    } else {
      var more := PiecesText(ps[1..]) + (['"'] + tail);
      PutFirst(ps[0], ps[1..], tail);
      assert [ps[0]] + ps[1..] == ps;
      hide Hex4, SecondUnit, PieceText, PiecesText;
      if ps[0].Unit? { UnitFirst(ps[0].hex, more); } else { NoUnitFirst(ps[0], more); }
    }
  }

  lemma ScanQuote(tail: string)
    ensures ScanString(['"'] + tail) == Good("", tail)
  {
    assert (['"'] + tail)[1..] == tail;
  }

  /** A first piece that is a \\u escape, before pieces that are scanned. */
  lemma ScanUnitFirst(hex: string, ps: seq<Piece>, tail: string)
    requires PieceOk(Unit(hex)) && PiecesOk(ps)
    requires ScanString(PiecesText(ps) + (['"'] + tail)) == Good(PiecesValue(ps), tail)
    requires StartsWithLow(ps) ==>
               ScanString(PiecesText(ps[1..]) + (['"'] + tail)) == Good(PiecesValue(ps[1..]), tail)
    ensures ScanString(['\\', 'u'] + hex + (PiecesText(ps) + (['"'] + tail))) ==
            Good(PiecesValue([Unit(hex)] + ps), tail)
  {
    hide ScanString, ScanEscape, Hex4, SecondUnit, PiecesText;
    var all := [Unit(hex)] + ps;
    assert all[1..] == ps && (ps != [] ==> all[2..] == ps[1..]);
    ScanUnit(hex, PiecesText(ps) + (['"'] + tail));
    EscapeIs(hex, PiecesText(ps) + (['"'] + tail));
    SecondUnitOfPieces(ps, tail);
  }

  lemma {:induction false} ScanPieces(ps: seq<Piece>, tail: string)
    requires PiecesOk(ps)
    ensures ScanString(PiecesText(ps) + (['"'] + tail)) == Good(PiecesValue(ps), tail)
    decreases |ps|
  {
    ScanQuote(tail);
    hide ScanString, ScanEscape, Hex4, SecondUnit;
    var s := PiecesText(ps) + (['"'] + tail);
    if ps == [] {
      assert s == ['"'] + tail;
    } else {
      var more := ps[1..];
      assert ps == [ps[0]] + more;
      var after := PiecesText(more) + (['"'] + tail);
      ScanPieces(more, tail);
      PutFirst(ps[0], more, tail);
      hide PiecesText;
      match ps[0]
      case Plain(c) => ScanPlain(c, after);
      case Letter(letter) => ScanLetter(letter, after);
      case Unit(hex) =>
        if more != [] { ScanPieces(more[1..], tail); }
        ScanUnitFirst(hex, more, tail);
    }
  }

  /** And what is scanned consists of pieces. */
  lemma {:induction false} PiecesOfScan(s: string) returns (ps: seq<Piece>)
    requires ScanString(s).Good?
    ensures PiecesOk(ps) && s == PiecesText(ps) + (['"'] + ScanString(s).rest)
    ensures PiecesValue(ps) == ScanString(s).value
  {
    var tail;
    ps, tail := SplitIntoPieces(s);
    ScanPieces(ps, tail);
  }

  lemma {:induction false} SplitIntoPieces(s: string) returns (ps: seq<Piece>, tail: string)
    requires ScanString(s).Good?
    ensures PiecesOk(ps) && s == PiecesText(ps) + (['"'] + tail)
    decreases |s|
  {
    if s[0] == '"' {
      ps, tail := [], s[1..];
      assert s == ['"'] + tail;
    } else {
      var first, after := FirstPiece(s);
      ps, tail := SplitIntoPieces(after);
      PutFirst(first, ps, tail);
      ps := [first] + ps;
    }
  }

  lemma FirstPiece(s: string) returns (first: Piece, after: string)
    requires ScanString(s).Good? && s[0] != '"'
    ensures PieceOk(first) && s == PieceText(first) + after && ScanString(after).Good? && |after| < |s|
  {
    if s[0] != '\\' {
      first, after := Plain(s[0]), s[1..];
      assert s == [s[0]] + after;
      ScanPlain(s[0], after);
    } else if s[1] != 'u' {
      first, after := Letter(s[1]), s[2..];
      assert s == ['\\', s[1]] + after && s[1..][1..] == after;
      assert ScanString(s) == ScanEscape(s[1..]);
      ScanLetter(s[1], after);
    } else {
      HexOfUnit(s);
      first, after := Unit(s[2..6]), s[6..];
      assert s == ['\\', 'u'] + s[2..6] + after;
      hide ScanEscape, Hex4, SecondUnit;
      ScanUnit(s[2..6], after);
      EscapeIs(s[2..6], after);
      if !ScanString(after).Good? { SecondUnitScans(after); }
    }
  }

  lemma HexOfUnit(s: string)
    requires |s| >= 2 && s[0] == '\\' && s[1] == 'u' && ScanString(s).Good?
    ensures |s| >= 6 && Hex4(s[2..6]).Some?
  {
    assert ScanString(s) == ScanEscape(s[1..]);
    assert s[1..][1..] == s[2..] && Hex4(s[2..]).Some?;
  }

  /** A second unit does not keep the text behind it from being scanned. */
  lemma SecondUnitScans(after: string)
    requires SecondUnit(after).Some? && ScanString(after[6..]).Good?
    ensures ScanString(after).Good?
  {
    var hex, more := after[2..6], after[6..];
    assert after[2..] == hex + more && after == ['\\', 'u'] + hex + more;
    Hex4OfFour(hex, more);
    hide ScanEscape, Hex4;
    ScanUnit(hex, more);
    EscapeIs(hex, more);
  }

  // ---- numbers ----

  /** What may follow a value: the end, a blank, a comma or a closing bracket. */
  predicate Ends(tail: string) {
    tail == "" || IsBlank(tail[0]) || tail[0] == ',' || tail[0] == ']' || tail[0] == '}'
  }

  predicate NoDigit(s: string) {
    s == "" || !('0' <= s[0] <= '9')
  }

  lemma {:induction false} DigitsRun(front: string, digits: string, back: string, i: nat)
    requires i <= |digits| && (forall c <- digits :: '0' <= c <= '9') && NoDigit(back)
    ensures DigitsAt(front + digits + back, |front| + i) == |digits| - i
    decreases |digits| - i
  {
    var s := front + digits + back;
    if i < |digits| {
      assert s[|front| + i] == digits[i] && digits[i] in digits;
      DigitsRun(front, digits, back, i + 1);
    } else if back != "" {
      assert s[|front| + i] == back[0];
    }
  }

  /** The three parts of a number, read from where each starts. */
  lemma WholeRead(n: Number, back: string)
    requires NumberOk(n) && NoDigit(back)
    ensures var minus := MinusText(n);
            var s := minus + n.whole + back;
            && (s[0] == '-' <==> n.minus)
            && DigitsAt(s, |minus|) == |n.whole| && |minus| < |s| && (s[|minus|] == '0' ==> |n.whole| == 1)
  {
    var minus := MinusText(n);
    var s := minus + n.whole + back;
    DigitsRun(minus, n.whole, back, 0);
    assert n.whole[0] in n.whole && s[|minus|] == n.whole[0];
  }

  /** NumberLength, part by part. */
  function FractionLength(s: string, i: nat): nat
    requires i <= |s|
  {
    if i < |s| && s[i] == '.' && DigitsAt(s, i + 1) > 0 then 1 + DigitsAt(s, i + 1) else 0
  }

  function ExponentLength(s: string, j: nat): nat
    requires j <= |s|
  {
    var sign := if j + 1 < |s| && (s[j] == 'e' || s[j] == 'E') && (s[j + 1] == '+' || s[j + 1] == '-') then 1 else 0;
    if j < |s| && (s[j] == 'e' || s[j] == 'E') && DigitsAt(s, j + 1 + sign) > 0 then
      1 + sign + DigitsAt(s, j + 1 + sign)
    else 0
  }

  lemma FractionRead(front: string, n: Number, back: string)
    requires NumberOk(n) && NoDigit(back) && (back == "" || back[0] != '.')
    ensures FractionLength(front + FractionText(n) + back, |front|) == |FractionText(n)|
  {
    var s := front + FractionText(n) + back;
    if n.fraction != "" {
      DigitsRun(front + ".", n.fraction, back, 0);
      assert (front + ".") + n.fraction + back == s && s[|front|] == '.';
    } else if back != "" {
      assert s[|front|] == back[0];
    }
  }

  lemma ExponentRead(front: string, n: Number, back: string)
    requires NumberOk(n) && NoDigit(back) && (back == "" || (back[0] != 'e' && back[0] != 'E'))
    ensures ExponentLength(front + ExponentText(n) + back, |front|) == |ExponentText(n)|
  {
    var s := front + ExponentText(n) + back;
    if n.exponent != "" {
      DigitsRun(front + n.mark, n.exponent, back, 0);
      assert (front + n.mark) + n.exponent + back == s;
      assert s[|front|] == n.mark[0];
      if |n.mark| == 1 {
        assert s[|front| + 1] == n.exponent[0] && n.exponent[0] in n.exponent;
      } else {
        assert |n.mark| == 2 && s[|front| + 1] == n.mark[1];
      }
    } else if back != "" {
      assert s[|front|] == back[0];
    }
  }

  /** The whole part of the number at the start of s: where it begins, and how long it is. */
  function Start(s: string): nat {
    if s != "" && s[0] == '-' then 1 else 0
  }

  function WholeLength(s: string): (n: nat)
    ensures n > 0 ==> Start(s) + n <= |s|
  {
    if Start(s) < |s| && s[Start(s)] == '0' then 1 else if Start(s) <= |s| then DigitsAt(s, Start(s)) else 0
  }

  lemma LengthByParts(s: string)
    ensures NumberLength(s) == if WholeLength(s) == 0 then 0
                               else
                                 var i := Start(s) + WholeLength(s);
                                 if i + FractionLength(s, i) <= |s| then
                                   i + FractionLength(s, i) + ExponentLength(s, i + FractionLength(s, i))
                                 else 0
  {
  }

  lemma NumberEdges(n: Number, tail: string)
    requires NumberOk(n) && Ends(tail)
    ensures NoDigit(tail) && NoDigit(ExponentText(n) + tail) && NoDigit(FractionText(n) + ExponentText(n) + tail)
    ensures ExponentText(n) + tail == "" || (ExponentText(n) + tail)[0] != '.'
    ensures tail == "" || (tail[0] != 'e' && tail[0] != 'E')
    ensures '0' <= n.whole[0] <= '9'
  {
    assert n.whole[0] in n.whole;
  }

  lemma WholeInText(n: Number, tail: string)
    requires NumberOk(n) && Ends(tail)
    ensures var s := NumberText(n) + tail;
            Start(s) == |MinusText(n)| && WholeLength(s) == |n.whole| && s[0] == if n.minus then '-' else n.whole[0]
  {
    NumberEdges(n, tail);
    hide DigitsAt, FractionText, ExponentText, NoDigit, Ends;
    var back := FractionText(n) + ExponentText(n) + tail;
    assert NumberText(n) + tail == MinusText(n) + n.whole + back;
    WholeRead(n, back);
  }

  lemma FractionInText(n: Number, tail: string)
    requires NumberOk(n) && Ends(tail)
    ensures FractionLength(NumberText(n) + tail, |MinusText(n)| + |n.whole|) == |FractionText(n)|
  {
    NumberEdges(n, tail);
    hide FractionLength, FractionText, ExponentText, NoDigit, Ends, NumberOk;
    var front, back := MinusText(n) + n.whole, ExponentText(n) + tail;
    assert NumberText(n) + tail == front + FractionText(n) + back;
    FractionRead(front, n, back);
  }

  lemma ExponentInText(n: Number, tail: string)
    requires NumberOk(n) && Ends(tail)
    ensures ExponentLength(NumberText(n) + tail, |MinusText(n)| + |n.whole| + |FractionText(n)|) == |ExponentText(n)|
  {
    NumberEdges(n, tail);
    hide ExponentLength, FractionText, ExponentText, NoDigit, Ends, NumberOk;
    var front := MinusText(n) + n.whole + FractionText(n);
    assert NumberText(n) + tail == front + ExponentText(n) + tail;
    ExponentRead(front, n, tail);
  }

  /** A number is read to its end. */
  lemma NumberRead(n: Number, tail: string)
    requires NumberOk(n) && Ends(tail)
    ensures NumberLength(NumberText(n) + tail) == |NumberText(n)|
    ensures NumberText(n)[0] == '-' || '0' <= NumberText(n)[0] <= '9'
  {
    NumberEdges(n, tail);
    WholeInText(n, tail);
    FractionInText(n, tail);
    ExponentInText(n, tail);
    LengthByParts(NumberText(n) + tail);
    assert (NumberText(n) + tail)[0] == NumberText(n)[0];
    hide NumberLength, Start, WholeLength, FractionLength, ExponentLength, FractionText, ExponentText, NumberOk, Ends;
  }

  predicate OnlyDigits(s: string) {
    forall c <- s :: '0' <= c <= '9'
  }

  lemma {:induction false} DigitsAre(s: string, i: nat)
    requires i <= |s|
    ensures OnlyDigits(s[i..i + DigitsAt(s, i)])
    decreases |s| - i
  {
    if i < |s| && '0' <= s[i] <= '9' {
      DigitsAre(s, i + 1);
      var n := i + 1 + DigitsAt(s, i + 1);
      assert DigitsAt(s, i) == n - i;
      hide DigitsAt;
      assert s[i..n] == [s[i]] + s[i + 1..n];
    }
  }

  lemma FractionOf(s: string, i: nat) returns (fraction: string)
    requires i <= |s|
    ensures i + FractionLength(s, i) <= |s|
    ensures s[i..i + FractionLength(s, i)] == (if fraction != "" then "." + fraction else "")
    ensures fraction != "" ==> Digits(fraction)
  {
    fraction := "";
    if FractionLength(s, i) > 0 {
      DigitsAre(s, i + 1);
      fraction := s[i + 1..i + 1 + DigitsAt(s, i + 1)];
      assert s[i..i + FractionLength(s, i)] == [s[i]] + fraction;
    }
  }

  lemma ExponentOf(s: string, j: nat) returns (mark: string, exponent: string)
    requires j <= |s|
    ensures j + ExponentLength(s, j) <= |s|
    ensures s[j..j + ExponentLength(s, j)] == mark + exponent
    ensures (exponent == "" <==> mark == "") && (exponent != "" ==> Digits(exponent))
    ensures exponent != "" ==> mark in {"e", "E", "e+", "E+", "e-", "E-"}
  {
    mark, exponent := "", "";
    if ExponentLength(s, j) > 0 {
      var sign := if j + 1 < |s| && (s[j + 1] == '+' || s[j + 1] == '-') then 1 else 0;
      var k := j + 1 + sign;
      DigitsAre(s, k);
      mark, exponent := s[j..k], s[k..k + DigitsAt(s, k)];
      assert s[j..j + ExponentLength(s, j)] == mark + exponent;
      if sign == 1 { assert mark == [s[j], s[j + 1]]; } else { assert mark == [s[j]]; }
    }
  }

  lemma WholeOf(s: string)
    requires WholeLength(s) > 0
    ensures var whole := s[Start(s)..Start(s) + WholeLength(s)];
            Digits(whole) && (whole[0] == '0' ==> whole == "0")
    ensures s[..Start(s)] == (if Start(s) == 1 then "-" else "")
  {
    DigitsAre(s, Start(s));
  }

  lemma Assembled(s: string, start: nat, i: nat, j: nat, k: nat, n: Number)
    requires start <= i <= j <= k <= |s|
    requires s[..start] == MinusText(n) && s[start..i] == n.whole
    requires s[i..j] == FractionText(n) && s[j..k] == ExponentText(n)
    ensures s[..k] == NumberText(n)
  {
    hide FractionText, ExponentText, MinusText;
  }

  /** And what is read as a number is one. */
  lemma NumberOfLength(s: string) returns (n: Number)
    requires NumberLength(s) > 0
    ensures NumberOk(n) && s[..NumberLength(s)] == NumberText(n)
  {
    LengthByParts(s);
    WholeOf(s);
    hide NumberLength, DigitsAt, FractionLength, ExponentLength, WholeLength, Digits, NumberText, Start;
    var start, i := Start(s), Start(s) + WholeLength(s);
    var fraction := FractionOf(s, i);
    var j := i + FractionLength(s, i);
    var mark, exponent := ExponentOf(s, j);
    n := Number(start == 1, s[start..i], fraction, mark, exponent);
    Assembled(s, start, i, j, j + ExponentLength(s, j), n);
  }

  // ---- values are read as their trees ----

  lemma {:induction false} SkipOver(blanks: string, s: string)
    requires Blanks(blanks) && (s == "" || !IsBlank(s[0]))
    ensures SkipBlanks(blanks + s) == s
  {
    if blanks == "" {
      assert blanks + s == s;
    } else {
      assert blanks[0] in blanks && (blanks + s)[1..] == blanks[1..] + s;
      SkipOver(blanks[1..], s);
    }
  }

  lemma {:induction false} SplitBlanks(s: string) returns (blanks: string)
    ensures Blanks(blanks) && s == blanks + SkipBlanks(s)
    ensures SkipBlanks(s) == "" || !IsBlank(SkipBlanks(s)[0])
  {
    if s != "" && IsBlank(s[0]) {
      var more := SplitBlanks(s[1..]);
      blanks := [s[0]] + more;
      assert s == [s[0]] + s[1..];
      hide SkipBlanks;
    } else {
      blanks := "";
    }
  }

  /** How a value may begin: not with a blank, a comma or a closing bracket. */
  predicate Begins(s: string) {
    s != "" && !IsBlank(s[0]) && s[0] != ',' && s[0] != ']' && s[0] != '}' && s[0] != '\U{FEFF}'
  }

  lemma NumberBegins(n: Number, tail: string)
    requires NumberOk(n)
    ensures NumberText(n) != "" && (NumberText(n)[0] == '-' || '0' <= NumberText(n)[0] <= '9')
  {
    NumberRead(n, "");
  }

  lemma TreeBegins(t: Tree)
    requires TreeOk(t)
    ensures Begins(TreeText(t))
  {
    if t.Numeral? { NumberBegins(t.n, ""); }
  }

  lemma ReadWord(w: Word, tail: string)
    ensures ParseValue(NoLimits, WordText(w) + tail) == Good(WordValue(w), tail)
  {
    var s, word := WordText(w) + tail, WordText(w);
    assert s[..|word|] == word && s[|word|..] == tail && s[0] == word[0];
    if w.MinusInfinity? {
      assert s[1] == 'I';
      assert NumberLength(s) == 0;
    }
  }

  lemma ReadNumeral(n: Number, tail: string)
    requires NumberOk(n) && Ends(tail)
    ensures ParseValue(NoLimits, NumberText(n) + tail) == Good(JNumber(NumberText(n)), tail)
  {
    NumberRead(n, tail);
    var s := NumberText(n) + tail;
    assert s[0] == NumberText(n)[0] && s[..|NumberText(n)|] == NumberText(n) && s[|NumberText(n)|..] == tail;
    hide NumberLength, NumberText, NumberOk, Ends;
    assert ParseValue(NoLimits, s) == ParseScalar(NoLimits, s);
  }

  lemma Requoted(text: string, tail: string)
    ensures var s := ['"'] + (text + ['"']) + tail;
            s[0] == '"' && s[1..] == text + (['"'] + tail)
  {
  }

  lemma ReadQuoted(ps: seq<Piece>, tail: string)
    requires PiecesOk(ps)
    ensures (QuotedText(ps) + tail)[0] == '"'
    ensures ScanString((QuotedText(ps) + tail)[1..]) == Good(PiecesValue(ps), tail)
  {
    ScanPieces(ps, tail);
    hide ScanString, PiecesText, PiecesValue, PiecesOk;
    Requoted(PiecesText(ps), tail);
  }

  lemma FirstOf(a: string, b: string)
    requires Begins(a)
    ensures Begins(a + b)
  {
  }

  lemma ElementsBegin(e: Elements, tail: string)
    requires ElementsOk(e)
    ensures Begins(ElementsText(e) + tail)
  {
    TreeBegins(e.value);
    hide TreeText, TreeOk;
    assert (ElementsText(e) + tail)[0] == TreeText(e.value)[0];
  }

  lemma EntriesBegin(e: Entries, tail: string)
    ensures EntriesText(e) + tail != "" && (EntriesText(e) + tail)[0] == '"'
  {
  }

  /** What follows a value: blanks, then `sign`, which is a comma or a closing bracket. */
  lemma NextSign(trail: string, sign: char, back: string)
    requires Blanks(trail) && (sign == ',' || sign == ']' || sign == '}')
    ensures var s := trail + ([sign] + back);
            Ends(s) && SkipBlanks(s) != "" && SkipBlanks(s)[0] == sign && SkipBlanks(s)[1..] == back
  {
    SkipOver(trail, [sign] + back);
    if trail != "" { assert trail[0] in trail; }
  }

  function ElementsBack(e: Elements, tail: string): string {
    if e.Last? then e.trail + ([']'] + tail) else e.trail + ([','] + (e.rest.lead + (ElementsText(e.rest) + tail)))
  }

  lemma ElementsSplit(e: Elements, tail: string)
    ensures ElementsText(e) + tail == TreeText(e.value) + ElementsBack(e, tail)
  {
    hide TreeText;
  }

  lemma ElementsNext(e: Elements, tail: string)
    requires ElementsOk(e)
    ensures Ends(ElementsBack(e, tail))
    ensures var next := SkipBlanks(ElementsBack(e, tail));
            && next != ""
            && (if e.Last? then next[0] == ']' && next[1..] == tail
                else next[0] == ',' && SkipBlanks(next[1..]) == ElementsText(e.rest) + tail)
  {
    hide TreeOk, ElementsText, Blanks, SkipBlanks, Ends;
    if e.Last? {
      NextSign(e.trail, ']', tail);
    } else {
      NextSign(e.trail, ',', e.rest.lead + (ElementsText(e.rest) + tail));
      ElementsBegin(e.rest, tail);
      SkipOver(e.rest.lead, ElementsText(e.rest) + tail);
    }
  }

  function EntriesBack(e: Entries, tail: string): string {
    if e.LastEntry? then e.trail + (['}'] + tail)
    else e.trail + ([','] + (e.rest.lead + (EntriesText(e.rest) + tail)))
  }

  lemma EntriesSplit(e: Entries, tail: string)
    ensures EntriesText(e) + tail ==
            QuotedText(e.key) + (e.before + ([':'] + (e.behind + (TreeText(e.value) + EntriesBack(e, tail)))))
  {
    hide TreeText, QuotedText;
  }

  lemma EntriesKey(e: Entries, tail: string)
    requires EntriesOk(e)
    ensures MemberKey(EntriesText(e) + tail) == Good(PiecesValue(e.key), TreeText(e.value) + EntriesBack(e, tail))
  {
    hide TreeText, TreeOk, EntriesText, EntriesBack, PiecesText, PiecesValue, QuotedText;
    hide Blanks, SkipBlanks, ScanString;
    var back := TreeText(e.value) + EntriesBack(e, tail);
    var colon := [':'] + (e.behind + back);
    EntriesSplit(e, tail);
    ReadQuoted(e.key, e.before + colon);
    SkipOver(e.before, colon);
    assert colon[1..] == e.behind + back;
    TreeBegins(e.value);
    FirstOf(TreeText(e.value), EntriesBack(e, tail));
    SkipOver(e.behind, back);
  }

  lemma EntriesNext(e: Entries, tail: string)
    requires EntriesOk(e)
    ensures Ends(EntriesBack(e, tail))
    ensures var next := SkipBlanks(EntriesBack(e, tail));
            && next != ""
            && (if e.LastEntry? then next[0] == '}' && next[1..] == tail
                else next[0] == ',' && SkipBlanks(next[1..]) == EntriesText(e.rest) + tail)
  {
    hide TreeOk, PiecesOk, EntriesText, Blanks, SkipBlanks, Ends;
    if e.LastEntry? {
      NextSign(e.trail, '}', tail);
    } else {
      NextSign(e.trail, ',', e.rest.lead + (EntriesText(e.rest) + tail));
      EntriesBegin(e.rest, tail);
      SkipOver(e.rest.lead, EntriesText(e.rest) + tail);
    }
  }

  /** The text of a tree is read as its value, whatever may follow it. */
  lemma {:induction false} ReadTree(t: Tree, tail: string)
    requires TreeOk(t) && (t.Numeral? ==> Ends(tail))
    ensures ParseValue(NoLimits, TreeText(t) + tail) == Good(TreeValue(t), tail)
    decreases t
  {
    hide ParseScalar, ScanString, WordText, NumberText, PiecesText, PiecesValue, SkipBlanks, Blanks;
    var s := TreeText(t) + tail;
    match t
    case Spelled(w) => ReadWord(w, tail);
    case Numeral(n) => ReadNumeral(n, tail);
    case Quoted(ps) => ReadQuoted(ps, tail);
    case EmptyArray(blanks) =>
      assert s[1..] == blanks + ([']'] + tail);
      SkipOver(blanks, [']'] + tail);
    case EmptyObject(blanks) =>
      assert s[1..] == blanks + (['}'] + tail);
      SkipOver(blanks, ['}'] + tail);
    case Array(elements) =>
      assert s[1..] == elements.lead + (ElementsText(elements) + tail);
      ElementsBegin(elements, tail);
      SkipOver(elements.lead, ElementsText(elements) + tail);
      ReadElements(elements, [], tail);
    case Object(entries) =>
      assert s[1..] == entries.lead + (EntriesText(entries) + tail);
      EntriesBegin(entries, tail);
      SkipOver(entries.lead, EntriesText(entries) + tail);
      ReadEntries(entries, map[], tail);
  }

  lemma {:induction false} ReadElements(e: Elements, found: seq<Json>, tail: string)
    requires ElementsOk(e)
    ensures ParseItems(NoLimits, ElementsText(e) + tail, found) == Good(JArray(ElementsValue(found, e)), tail)
    decreases e
  {
    hide TreeText, TreeValue, TreeOk, SkipBlanks, Blanks, ElementsBack, ParseValue;
    ElementsSplit(e, tail);
    ElementsNext(e, tail);
    ReadTree(e.value, ElementsBack(e, tail));
    if e.More? { ReadElements(e.rest, found + [TreeValue(e.value)], tail); }
  }

  lemma {:induction false} ReadEntries(e: Entries, found: map<string, Json>, tail: string)
    requires EntriesOk(e)
    ensures ParseMembers(NoLimits, EntriesText(e) + tail, found) == Good(JObject(EntriesValue(found, e)), tail)
    decreases e
  {
    hide TreeText, TreeValue, TreeOk, SkipBlanks, Blanks, EntriesBack, MemberKey, ParseValue, PiecesValue, PiecesOk;
    EntriesKey(e, tail);
    EntriesNext(e, tail);
    ReadTree(e.value, EntriesBack(e, tail));
    if e.MoreEntries? { ReadEntries(e.rest, found[PiecesValue(e.key) := TreeValue(e.value)], tail); }
  }

  // ---- and whatever is read is the text of a tree ----

  /** A scalar that is read is a word, or a number followed by what is not read. */
  lemma SplitScalar(s: string) returns (t: Tree, tail: string)
    requires s != "" && ParseScalar(NoLimits, s).Good?
    ensures TreeOk(t) && s == TreeText(t) + tail && ParseScalar(NoLimits, s) == Good(TreeValue(t), tail)
  {
    var n := NumberLength(s);
    if n > 0 && s[0] !in {'n', 't', 'f', 'N', 'I'} {
      var number := NumberOfLength(s);
      t, tail := Numeral(number), s[n..];
      hide NumberLength, NumberText, NumberOk;
    } else {
      var w := match s[0]
               case 'n' => Null
               case 't' => True
               case 'f' => False
               case 'N' => NaN
               case 'I' => Infinity
               case _ => MinusInfinity;
      t, tail := Spelled(w), s[|WordText(w)|..];
      hide NumberLength;
    }
  }

  lemma {:induction false} SplitTree(s: string) returns (t: Tree, tail: string)
    requires ParseValue(NoLimits, s).Good?
    ensures TreeOk(t) && s == TreeText(t) + tail && ParseValue(NoLimits, s) == Good(TreeValue(t), tail)
    decreases |s|, 1
  {
    hide ParseScalar, ScanString, WordText, NumberText, PiecesText, PiecesValue, SkipBlanks, Blanks;
    if s[0] == '"' {
      var ps := PiecesOfScan(s[1..]);
      t, tail := Quoted(ps), ScanString(s[1..]).rest;
      assert s == ['"'] + s[1..];
    } else if s[0] == '{' || s[0] == '[' {
      t, tail := SplitBracket(s);
    } else {
      t, tail := SplitScalar(s);
    }
  }

  lemma {:induction false} SplitBracket(s: string) returns (t: Tree, tail: string)
    requires ParseValue(NoLimits, s).Good? && (s[0] == '{' || s[0] == '[')
    ensures TreeOk(t) && s == TreeText(t) + tail && ParseValue(NoLimits, s) == Good(TreeValue(t), tail)
    decreases |s|, 0
  {
    hide ParseScalar, ScanString, ElementsText, EntriesText, SkipBlanks, Blanks, ParseItems, ParseMembers;
    var inner := SkipBlanks(s[1..]);
    var blanks := SplitBlanks(s[1..]);
    assert s == [s[0]] + s[1..];
    if s[0] == '[' && inner != "" && inner[0] == ']' {
      t, tail := EmptyArray(blanks), inner[1..];
      assert inner == [']'] + tail;
    } else if s[0] == '{' && inner != "" && inner[0] == '}' {
      t, tail := EmptyObject(blanks), inner[1..];
      assert inner == ['}'] + tail;
    } else if s[0] == '[' {
      var elements;
      elements, tail := SplitElements(inner, [], blanks);
      t := Array(elements);
    } else {
      var entries;
      entries, tail := SplitEntries(inner, map[], blanks);
      t := Object(entries);
    }
    assert s == TreeText(t) + tail;
    ReadTree(t, tail);
  }

  lemma {:induction false} SplitElements(s: string, found: seq<Json>, lead: string) returns (e: Elements, tail: string)
    requires ParseItems(NoLimits, s, found).Good? && Blanks(lead)
    ensures ElementsOk(e) && e.lead == lead && s == ElementsText(e) + tail
    decreases |s|, 2
  {
    hide ParseValue, TreeText, TreeOk, TreeValue, SkipBlanks, Blanks;
    var value, after := SplitTree(s);
    var trail := SplitBlanks(after);
    var next := SkipBlanks(after);
    assert next == [next[0]] + next[1..];
    if next[0] == ']' {
      tail := next[1..];
      e := Last(lead, value, trail);
      ElementsSplit(e, tail);
    } else {
      var blanks := SplitBlanks(next[1..]);
      var rest;
      rest, tail := SplitElements(SkipBlanks(next[1..]), found + [TreeValue(value)], blanks);
      e := More(lead, value, trail, rest);
      ElementsSplit(e, tail);
    }
  }

  lemma SplitKey(s: string) returns (key: seq<Piece>, before: string, behind: string)
    requires MemberKey(s).Good?
    ensures PiecesOk(key) && Blanks(before) && Blanks(behind) && MemberKey(s).value == PiecesValue(key)
    ensures s == QuotedText(key) + (before + ([':'] + (behind + MemberKey(s).rest)))
  {
    hide ScanString, PiecesText, PiecesValue, PiecesOk, SkipBlanks, Blanks;
    key := PiecesOfScan(s[1..]);
    var rest := ScanString(s[1..]).rest;
    before := SplitBlanks(rest);
    var colon := SkipBlanks(rest);
    behind := SplitBlanks(colon[1..]);
    assert s == ['"'] + s[1..] && colon == [':'] + colon[1..];
  }

  lemma {:induction false} SplitEntries(s: string, found: map<string, Json>, lead: string)
    returns (e: Entries, tail: string)
    requires ParseMembers(NoLimits, s, found).Good? && Blanks(lead)
    ensures EntriesOk(e) && e.lead == lead && s == EntriesText(e) + tail
    decreases |s|, 2
  {
    hide ParseValue, TreeText, TreeOk, TreeValue, SkipBlanks, Blanks, MemberKey, QuotedText, PiecesValue, PiecesOk;
    var key, before, behind := SplitKey(s);
    var value, after := SplitTree(MemberKey(s).rest);
    var trail := SplitBlanks(after);
    var next := SkipBlanks(after);
    assert next == [next[0]] + next[1..];
    if next[0] == '}' {
      tail := next[1..];
      e := LastEntry(lead, key, before, behind, value, trail);
      EntriesSplit(e, tail);
    } else {
      var blanks := SplitBlanks(next[1..]);
      var rest;
      rest, tail := SplitEntries(SkipBlanks(next[1..]), found[PiecesValue(key) := TreeValue(value)], blanks);
      e := MoreEntries(lead, key, before, behind, value, trail, rest);
      EntriesSplit(e, tail);
    }
  }

  // ---- json.loads ----

  /** The text is one of the grammar, with blanks around it, and this is its value. */
  ghost predicate Denotes(s: string, v: Json) {
    exists lead, t, trail ::
      Blanks(lead) && TreeOk(t) && Blanks(trail) && s == lead + (TreeText(t) + trail) && v == TreeValue(t)
  }

  /** Without limits json.loads accepts exactly the texts of the grammar, and gives their values; a text has
      one value at the most. */
  lemma LoadsIffDenotes(s: string, v: Json)
    ensures Loads(NoLimits, s) == Loaded(v) <==> Denotes(s, v)
  {
    if lead, t, trail :| Blanks(lead) && TreeOk(t) && Blanks(trail) &&
                         s == lead + (TreeText(t) + trail) && v == TreeValue(t) {
      LoadsTree(lead, t, trail);
    }
    if Loads(NoLimits, s) == Loaded(v) {
      var lead := SplitBlanks(s);
      var t, tail := SplitTree(SkipBlanks(s));
      var trail := SplitBlanks(tail);
      assert tail == trail;
      assert s == lead + (TreeText(t) + trail);
      hide TreeText, TreeOk, TreeValue, ParseValue, SkipBlanks, Blanks;
    }
  }

  lemma LoadsTree(lead: string, t: Tree, trail: string)
    requires Blanks(lead) && TreeOk(t) && Blanks(trail)
    ensures Loads(NoLimits, lead + (TreeText(t) + trail)) == Loaded(TreeValue(t))
  {
    var s := lead + (TreeText(t) + trail);
    TreeBegins(t);
    FirstOf(TreeText(t), trail);
    SkipOver(lead, TreeText(t) + trail);
    SkipOver(trail, "");
    assert trail + "" == trail;
    if trail != "" { assert trail[0] in trail; }
    ReadTree(t, trail);
    if lead != "" { assert lead[0] in lead && s[0] == lead[0]; } else { assert s == TreeText(t) + trail; }
    hide TreeText, TreeOk, TreeValue, ParseValue, SkipBlanks;
  }

  // ---- what a text needs ----

  /** The digits of the longest integer, and how deep arrays and objects nest. */
  function TreeNeed(t: Tree): Need {
    match t
    case Spelled(_) => Need(0, 0)
    case Numeral(n) => Need(if n.fraction == "" && n.exponent == "" then |n.whole| else 0, 0)
    case Quoted(_) => Need(0, 0)
    case EmptyArray(_) => Need(0, 1)
    case Array(elements) => Need(ElementsNeed(elements).digits, ElementsNeed(elements).depth + 1)
    case EmptyObject(_) => Need(0, 1)
    case Object(entries) => Need(EntriesNeed(entries).digits, EntriesNeed(entries).depth + 1)
  }

  function Larger(a: Need, b: Need): Need {
    Need(if a.digits >= b.digits then a.digits else b.digits, if a.depth >= b.depth then a.depth else b.depth)
  }

  function ElementsNeed(e: Elements): Need {
    if e.Last? then TreeNeed(e.value) else Larger(TreeNeed(e.value), ElementsNeed(e.rest))
  }

  function EntriesNeed(e: Entries): Need {
    if e.LastEntry? then TreeNeed(e.value) else Larger(TreeNeed(e.value), EntriesNeed(e.rest))
  }

  lemma NeedOfWord(w: Word, tail: string)
    ensures NeedOfValue(WordText(w) + tail) == Need(0, 0)
  {
    var s := WordText(w) + tail;
    assert s[0] == WordText(w)[0];
    if w.MinusInfinity? { assert s[1] == 'I'; }
  }

  lemma NeedOfNumeral(n: Number, tail: string)
    requires NumberOk(n) && Ends(tail)
    ensures NeedOfValue(NumberText(n) + tail) == TreeNeed(Numeral(n))
  {
    var s := NumberText(n) + tail;
    NumberRead(n, tail);
    WholeInText(n, tail);
    assert IntegerDigits(s) == if NumberLength(s) == Start(s) + WholeLength(s) then WholeLength(s) else 0;
    NumberEdges(n, tail);
    assert |FractionText(n)| + |ExponentText(n)| == 0 <==> n.fraction == "" && n.exponent == "";
    hide NumberLength, Ends, DigitsAt;
  }

  lemma {:induction false} NeedOfTree(t: Tree, tail: string)
    requires TreeOk(t) && (t.Numeral? ==> Ends(tail))
    ensures NeedOfValue(TreeText(t) + tail) == TreeNeed(t)
    decreases t
  {
    hide WordText, NumberText, PiecesText, SkipBlanks, Blanks, NeedOfItems, NeedOfMembers, IntegerDigits;
    var s := TreeText(t) + tail;
    match t
    case Spelled(w) => NeedOfWord(w, tail);
    case Numeral(n) => NeedOfNumeral(n, tail);
    case Quoted(ps) =>
    case EmptyArray(blanks) =>
      assert s[1..] == blanks + ([']'] + tail);
      SkipOver(blanks, [']'] + tail);
    case EmptyObject(blanks) =>
      assert s[1..] == blanks + (['}'] + tail);
      SkipOver(blanks, ['}'] + tail);
    case Array(elements) =>
      assert s[1..] == elements.lead + (ElementsText(elements) + tail);
      ElementsBegin(elements, tail);
      SkipOver(elements.lead, ElementsText(elements) + tail);
      NeedOfElements(elements, tail);
    case Object(entries) =>
      assert s[1..] == entries.lead + (EntriesText(entries) + tail);
      EntriesBegin(entries, tail);
      SkipOver(entries.lead, EntriesText(entries) + tail);
      NeedOfEntries(entries, tail);
  }

  lemma {:induction false} NeedOfElements(e: Elements, tail: string)
    requires ElementsOk(e)
    ensures NeedOfItems(ElementsText(e) + tail) == ElementsNeed(e)
    decreases e
  {
    hide TreeText, TreeValue, TreeOk, TreeNeed, SkipBlanks, Blanks, ElementsBack, ParseValue, NeedOfValue;
    ElementsSplit(e, tail);
    ElementsNext(e, tail);
    ReadTree(e.value, ElementsBack(e, tail));
    NeedOfTree(e.value, ElementsBack(e, tail));
    if e.More? { NeedOfElements(e.rest, tail); }
  }

  lemma {:induction false} NeedOfEntries(e: Entries, tail: string)
    requires EntriesOk(e)
    ensures NeedOfMembers(EntriesText(e) + tail) == EntriesNeed(e)
    decreases e
  {
    hide TreeText, TreeValue, TreeOk, TreeNeed, SkipBlanks, Blanks, EntriesBack, MemberKey, ParseValue, PiecesValue;
    hide NeedOfValue, PiecesOk;
    EntriesKey(e, tail);
    EntriesNext(e, tail);
    ReadTree(e.value, EntriesBack(e, tail));
    NeedOfTree(e.value, EntriesBack(e, tail));
    if e.MoreEntries? { NeedOfEntries(e.rest, tail); }
  }

  /** Reading a text of the grammar raises exactly when one of its integers has more digits, or it nests
      deeper, than the limits allow; within them it gives the value. */
  lemma GrammarRaisesIff(l: Limits, lead: string, t: Tree, trail: string)
    requires l.Limits? && Blanks(lead) && TreeOk(t) && Blanks(trail)
    ensures Loads(l, lead + (TreeText(t) + trail)) ==
            if TreeNeed(t).digits > l.digits || TreeNeed(t).depth > l.depth then Overrun else Loaded(TreeValue(t))
  {
    var s := lead + (TreeText(t) + trail);
    LoadsTree(lead, t, trail);
    TreeBegins(t);
    FirstOf(TreeText(t), trail);
    SkipOver(lead, TreeText(t) + trail);
    if trail != "" { assert trail[0] in trail; }
    NeedOfTree(t, trail);
    OverrunIff(l, s);
    if lead != "" { assert lead[0] in lead && s[0] == lead[0]; } else { assert s == TreeText(t) + trail; }
    hide TreeText, TreeOk, TreeValue, TreeNeed, NeedOfValue, ParseValue, SkipBlanks;
  }
}
