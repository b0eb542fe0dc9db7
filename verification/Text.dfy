/** An optional value, used wherever the program has a nullable column or returns None. */
module Options {
  datatype Option<+T> = None | Some(value: T)
}

/** The string operations the services share, on sequences of Unicode scalar values. */
module Text {

  /** What str.strip() removes. */
  predicate IsSpace(c: char) {
    || '\t' <= c <= '\r'
    || '\U{1C}' <= c <= ' '
    || c == '\U{85}' || c == '\U{A0}' || c == '\U{1680}'
    || '\U{2000}' <= c <= '\U{200A}'
    || c == '\U{2028}' || c == '\U{2029}' || c == '\U{202F}' || c == '\U{205F}' || c == '\U{3000}'
  }

  function StripLeft(s: string): string {
    if s != "" && IsSpace(s[0]) then StripLeft(s[1..]) else s
  }

  function StripRight(s: string): string {
    if s != "" && IsSpace(s[|s| - 1]) then StripRight(s[..|s| - 1]) else s
  }

  function Strip(s: string): string {
    StripRight(StripLeft(s))
  }

  /** The stripped items that are not empty. */
  function NonBlank(items: seq<string>): seq<string> {
    if items == [] then []
    else
      var last := Strip(items[|items| - 1]);
      NonBlank(items[..|items| - 1]) + (if last != "" then [last] else [])
  }

  lemma {:induction false} NonBlankIs(items: seq<string>)
    ensures forall name :: name in NonBlank(items) <==> name != "" && exists item <- items :: Strip(item) == name
  {
    hide Strip;
    if items != [] {
      NonBlankIs(items[..|items| - 1]);
      assert items == items[..|items| - 1] + [items[|items| - 1]];
    }
  }

  /** A string that strip() leaves alone. */
  predicate Trimmed(s: string) {
    s != "" ==> !IsSpace(s[0]) && !IsSpace(s[|s| - 1])
  }

  lemma TrimmedIsFixed(s: string)
    requires Trimmed(s)
    ensures Strip(s) == s
  {
  }

  /** Lower-casing for comparison with the ASCII keys of the type tables: the ASCII capitals,
      and the Kelvin sign, the one other character whose lower case is an ASCII letter. */
  function LowerChar(c: char): char {
    if 'A' <= c <= 'Z' then (c as int + 32) as char
    else if c == '\U{212A}' then 'k'
    else c
  }

  function Lower(s: string): (r: string)
    ensures |r| == |s|
  {
    seq(|s|, i requires 0 <= i < |s| => LowerChar(s[i]))
  }

  /** Python's `part in s`. */
  predicate Contains(s: string, part: string) {
    part <= s || (s != "" && Contains(s[1..], part))
  }

  lemma {:induction false} TooShortToContain(s: string, part: string)
    requires |s| < |part|
    ensures !Contains(s, part)
  {
    if s != "" {
      TooShortToContain(s[1..], part);
    }
  }

  /** Longer parts are harder to find: a string that contains `front + part` contains `part`. */
  lemma {:induction false} ContainsSuffixOfPart(s: string, front: string, part: string)
    requires Contains(s, front + part)
    ensures Contains(s, part)
  {
    if front + part <= s {
      if front != "" {
        assert front[1..] + part <= s[1..] by {
          assert (front + part)[1..] == front[1..] + part;
        }
        ContainsSuffixOfPart(s[1..], front[1..], part);
      } else {
        assert front + part == part;
      }
    } else {
      ContainsSuffixOfPart(s[1..], front, part);
    }
  }

  lemma {:induction false} ContainsAfter(front: string, s: string, part: string)
    requires Contains(s, part)
    ensures Contains(front + s, part)
  {
    if front == "" {
      assert front + s == s;
    } else {
      ContainsAfter(front[1..], s, part);
      assert (front + s)[1..] == front[1..] + s;
    }
  }

  lemma {:induction false} ContainsBefore(s: string, back: string, part: string)
    requires Contains(s, part)
    ensures Contains(s + back, part)
  {
    if part <= s {
      assert part <= s + back;
    } else {
      ContainsBefore(s[1..], back, part);
      assert (s + back)[1..] == s[1..] + back;
    }
  }

  lemma {:induction false} ContainsSplit(s: string, part: string) returns (front: string, back: string)
    requires Contains(s, part)
    ensures s == front + part + back
  {
    if part <= s {
      front, back := "", s[|part|..];
    } else {
      front, back := ContainsSplit(s[1..], part);
      front := [s[0]] + front;
    }
  }

  lemma ContainsBetween(front: string, part: string, back: string)
    ensures Contains(front + part + back, part)
  {
    assert Contains(part, part);
    ContainsAfter(front, part, part);
    ContainsBefore(front + part, back, part);
  }
}
