/** str(uuid) and UUID(text). */
module Uuids {
  import opened Options
  import opened JsonText

  /** A UUID as its 32 hexadecimal digits. */
  type Uuid = d: seq<Nibble> | |d| == 32 witness seq(32, _ => 0)

  function HexText(d: seq<Nibble>): (s: string)
    ensures |s| == |d|
  {
    if d == [] then "" else [HexDigit(d[0])] + HexText(d[1..])
  }

  /** str(uuid): groups of 8, 4, 4, 4 and 12 digits. */
  function UuidText(u: Uuid): string {
    HexText(u[..8]) + (['-'] + (HexText(u[8..12]) + (['-'] + (HexText(u[12..16]) + (['-'] +
    (HexText(u[16..20]) + (['-'] + HexText(u[20..]))))))))
  }

  /** text.replace(part, ""). */
  function Remove(s: string, part: string): string
    requires part != ""
  {
    if s == "" then ""
    else if part <= s then Remove(s[|part|..], part)
    else [s[0]] + Remove(s[1..], part)
  }

  predicate IsBrace(c: char) {
    c == '{' || c == '}'
  }

  function StripBraces(s: string): string {
    if s == "" then ""
    else if IsBrace(s[0]) then StripBraces(s[1..])
    else if IsBrace(s[|s| - 1]) then StripBraces(s[..|s| - 1])
    else s
  }

  function HexDigits(s: string): (r: Option<seq<Nibble>>)
    ensures r.Some? ==> |r.value| == |s|
  {
    if s == "" then Some([])
    else
      var first, rest := HexValue(s[0]), HexDigits(s[1..]);
      if first.None? || rest.None? then None else Some([first.value] + rest.value)
  }

  /** UUID(text); None for ValueError. `loose` stands for what int(text, 16) makes of 32 characters that
      are not all hexadecimal digits (signs, underscores, other scripts' digits). */
  function ParseUuid(text: string, loose: string -> Option<Uuid>): Option<Uuid> {
    var hex := Remove(StripBraces(Remove(Remove(text, "urn:"), "uuid:")), "-");
    if |hex| != 32 then None
    else if HexDigits(hex).Some? then Some(HexDigits(hex).value)
    else loose(hex)
  }

  lemma {:induction false} HexDigitsOfHexText(d: seq<Nibble>)
    ensures HexDigits(HexText(d)) == Some(d)
  {
    if d != [] {
      HexDigitValue(d[0]);
      HexDigitsOfHexText(d[1..]);
      assert [d[0]] + d[1..] == d;
    }
  }

  /** The characters of a written UUID. */
  predicate HexOrDash(s: string) {
    forall c <- s :: c == '-' || HexValue(c).Some?
  }

  lemma {:induction false} HexTextIsHex(d: seq<Nibble>)
    ensures forall c <- HexText(d) :: HexValue(c).Some? && c != '-'
  {
    if d != [] {
      HexDigitValue(d[0]);
      HexTextIsHex(d[1..]);
    }
  }

  lemma {:induction false} RemoveForeign(s: string, part: string)
    requires HexOrDash(s) && part != "" && HexValue(part[0]).None? && part[0] != '-'
    ensures Remove(s, part) == s
  {
    if s != "" {
      assert s[0] in s && s[0] != part[0];
      RemoveForeign(s[1..], part);
    }
  }

  lemma RemoveKeepsOther(c: char, tail: string)
    requires c != '-'
    ensures Remove([c] + tail, "-") == [c] + Remove(tail, "-")
  {
    assert ([c] + tail)[1..] == tail;
  }

  lemma {:induction false} RemoveDashesOfHex(d: seq<Nibble>, tail: string)
    ensures Remove(HexText(d) + tail, "-") == HexText(d) + Remove(tail, "-")
  {
    if d == [] {
      assert HexText(d) + tail == tail;
      assert "" + Remove(tail, "-") == Remove(tail, "-");
    } else {
      RemoveDashesOfHex(d[1..], tail);
      HexDigitValue(d[0]);
      var digit, rest := HexDigit(d[0]), HexText(d[1..]);
      assert HexText(d) + tail == [digit] + (rest + tail);
      RemoveKeepsOther(digit, rest + tail);
      assert [digit] + (rest + Remove(tail, "-")) == HexText(d) + Remove(tail, "-");
    }
  }

  lemma RemoveDash(tail: string)
    ensures Remove(['-'] + tail, "-") == Remove(tail, "-")
  {
    assert (['-'] + tail)[1..] == tail;
  }

  lemma {:induction false} HexTextConcat(a: seq<Nibble>, b: seq<Nibble>)
    ensures HexText(a + b) == HexText(a) + HexText(b)
  {
    if a == [] {
      assert a + b == b;
    } else {
      HexTextConcat(a[1..], b);
      assert (a + b)[1..] == a[1..] + b;
    }
  }

  lemma RemoveDashesOfGroup(d: seq<Nibble>, tail: string)
    ensures Remove(HexText(d) + (['-'] + tail), "-") == HexText(d) + Remove(tail, "-")
  {
    RemoveDashesOfHex(d, ['-'] + tail);
    RemoveDash(tail);
  }

  lemma GroupJoins(d: seq<Nibble>, rest: seq<Nibble>, tail: string)
    requires Remove(tail, "-") == HexText(rest)
    ensures Remove(HexText(d) + (['-'] + tail), "-") == HexText(d + rest)
  {
    RemoveDashesOfGroup(d, tail);
    HexTextConcat(d, rest);
  }

  lemma LastGroup(e: seq<Nibble>)
    ensures Remove(HexText(e), "-") == HexText(e)
  {
    RemoveDashesOfHex(e, "");
    assert HexText(e) + "" == HexText(e) && HexText(e) + Remove("", "-") == HexText(e);
  }

  lemma RemoveDashesOfGroups(a: seq<Nibble>, b: seq<Nibble>, c: seq<Nibble>, d: seq<Nibble>, e: seq<Nibble>)
    ensures Remove(HexText(a) + (['-'] + (HexText(b) + (['-'] + (HexText(c) + (['-'] +
                   (HexText(d) + (['-'] + HexText(e)))))))), "-") == HexText(a + (b + (c + (d + e))))
  {
    var t4 := HexText(e);
    var t3 := HexText(d) + (['-'] + t4);
    var t2 := HexText(c) + (['-'] + t3);
    var t1 := HexText(b) + (['-'] + t2);
    LastGroup(e);
    GroupJoins(d, e, t4);
    GroupJoins(c, d + e, t3);
    GroupJoins(b, c + (d + e), t2);
    GroupJoins(a, b + (c + (d + e)), t1);
  }

  lemma RemoveDashesOfUuid(u: Uuid)
    ensures Remove(UuidText(u), "-") == HexText(u)
  {
    hide HexText, Remove;
    RemoveDashesOfGroups(u[..8], u[8..12], u[12..16], u[16..20], u[20..]);
    assert u == u[..8] + (u[8..12] + (u[12..16] + (u[16..20] + u[20..])));
  }

  lemma UuidTextIsHexOrDash(u: Uuid)
    ensures HexOrDash(UuidText(u)) && UuidText(u) != ""
    ensures !IsBrace(UuidText(u)[0]) && !IsBrace(UuidText(u)[|UuidText(u)| - 1])
  {
    HexTextIsHex(u[..8]);
    HexTextIsHex(u[8..12]);
    HexTextIsHex(u[12..16]);
    HexTextIsHex(u[16..20]);
    HexTextIsHex(u[20..]);
    var t := UuidText(u);
    assert t[0] in t && t[|t| - 1] in t;
  }

  /** UUID(str(u)) is u, for every UUID. */
  lemma ParseUndoesText(u: Uuid, loose: string -> Option<Uuid>)
    ensures ParseUuid(UuidText(u), loose) == Some(u)
  {
    var t := UuidText(u);
    UuidTextIsHexOrDash(u);
    RemoveForeign(t, "urn:");
    RemoveForeign(t, "uuid:");
    RemoveDashesOfUuid(u);
    HexDigitsOfHexText(u);
  }

  predicate LowerHex(c: char) {
    '0' <= c <= '9' || 'a' <= c <= 'f'
  }

  lemma {:induction false} HexTextAt(d: seq<Nibble>, i: nat)
    requires i < |d|
    ensures HexText(d)[i] == (if d[i] < 10 then ('0' as int + d[i]) as char else ('a' as int + d[i] - 10) as char)
    ensures LowerHex(HexText(d)[i])
  {
    if i > 0 { HexTextAt(d[1..], i - 1); }
  }

  /** The canonical form (section 3 of RFC 4122): 32 lower-case digits in groups of 8, 4, 4, 4 and 12. */
  lemma CanonicalText(u: Uuid, i: nat)
    requires i < 36
    ensures |UuidText(u)| == 36
    ensures if i in {8, 13, 18, 23} then UuidText(u)[i] == '-' else LowerHex(UuidText(u)[i])
  {
    var groups := [u[..8], u[8..12], u[12..16], u[16..20], u[20..]];
    if i < 8 { HexTextAt(groups[0], i); }
    else if 8 < i < 13 { HexTextAt(groups[1], i - 9); }
    else if 13 < i < 18 { HexTextAt(groups[2], i - 14); }
    else if 18 < i < 23 { HexTextAt(groups[3], i - 19); }
    else if 23 < i { HexTextAt(groups[4], i - 24); }
  }
}
