/** Base 64 with the URL-safe alphabet (section 5 of RFC 4648), as Python's base64 module writes and
    reads it, and the two steps around it: stripping "=" and putting it back. */
module Base64Url {
  import opened Options
  import opened Utf8

  type Sextet = n: int | 0 <= n < 64

  function Letter(n: Sextet): char {
    if n < 26 then ('A' as int + n) as char
    else if n < 52 then ('a' as int + n - 26) as char
    else if n < 62 then ('0' as int + n - 52) as char
    else if n == 62 then '-'
    else '_'
  }

  /** urlsafe_b64encode. */
  function Encode(b: seq<Byte>): string {
    if |b| == 0 then ""
    else if |b| == 1 then [Letter(b[0] / 4), Letter(b[0] % 4 * 16), '=', '=']
    else if |b| == 2 then [Letter(b[0] / 4), Letter(b[0] % 4 * 16 + b[1] / 16), Letter(b[1] % 16 * 4), '=']
    else
      [Letter(b[0] / 4), Letter(b[0] % 4 * 16 + b[1] / 16), Letter(b[1] % 16 * 4 + b[2] / 64), Letter(b[2] % 64)]
      + Encode(b[3..])
  }

  /** rstrip("="). */
  function StripPadding(s: string): string {
    if s != "" && s[|s| - 1] == '=' then StripPadding(s[..|s| - 1]) else s
  }

  /** s + "=" * (-len(s) % 4). */
  function Repad(s: string): string {
    s + seq((4 - |s| % 4) % 4, _ => '=')
  }

  predicate Ascii(s: string) {
    forall c <- s :: c < '\U{80}'
  }

  /** The reader's table; "-" and "_" are translated first, so both spellings of 62 and 63 are read. */
  function ValueOf(c: char): Option<Sextet> {
    if 'A' <= c <= 'Z' then Some(c as int - 'A' as int)
    else if 'a' <= c <= 'z' then Some(c as int - 'a' as int + 26)
    else if '0' <= c <= '9' then Some(c as int - '0' as int + 52)
    else if c == '-' || c == '+' then Some(62)
    else if c == '_' || c == '/' then Some(63)
    else None
  }

  /** binascii.a2b_base64, not strict: characters outside the alphabet are passed over, a completed pad
      sequence ends the reading, and an unfinished group is an error. `place` is the position in the
      group of four, `left` the bits carried over, `pads` the pads seen since the last letter. */
  function Read(s: string, place: int, left: int, pads: int): Option<seq<Byte>>
    requires 0 <= place < 4 && 0 <= pads
    requires place == 1 ==> 0 <= left < 64
    requires place == 2 ==> 0 <= left < 16
    requires place == 3 ==> 0 <= left < 4
    decreases |s|
  {
    if s == "" then (if place == 0 then Some([]) else None)
    else if s[0] == '=' then
      if place >= 2 && place + pads + 1 >= 4 then Some([])
      else Read(s[1..], place, left, if place >= 2 then pads + 1 else pads)
    else
      var value := ValueOf(s[0]);
      if value.None? then Read(s[1..], place, left, pads)
      else
        var v := value.value;
        match place
        case 0 => Read(s[1..], 1, v, 0)
        case 1 => Emit(left * 4 + v / 16, Read(s[1..], 2, v % 16, 0))
        case 2 => Emit(left * 16 + v / 4, Read(s[1..], 3, v % 4, 0))
        case _ => Emit(left * 64 + v, Read(s[1..], 0, 0, 0))
  }

  function Emit(b: Byte, rest: Option<seq<Byte>>): Option<seq<Byte>> {
    if rest.Some? then Some([b] + rest.value) else None
  }

  /** urlsafe_b64decode of an ASCII text; None for binascii.Error. */
  function Decode(s: string): Option<seq<Byte>> {
    Read(s, 0, 0, 0)
  }

  lemma ValueOfLetter(n: Sextet)
    ensures ValueOf(Letter(n)) == Some(n) && Letter(n) != '=' && Letter(n) < '\U{80}'
  {
  }

  /** One full group of four letters reads as its three bytes. */
  lemma ReadGroup(v0: Sextet, v1: Sextet, v2: Sextet, v3: Sextet, tail: string)
    ensures Read([Letter(v0), Letter(v1), Letter(v2), Letter(v3)] + tail, 0, 0, 0) ==
            Emit(v0 * 4 + v1 / 16, Emit(v1 % 16 * 16 + v2 / 4, Emit(v2 % 4 * 64 + v3, Decode(tail))))
  {
    ValueOfLetter(v0);
    ValueOfLetter(v1);
    ValueOfLetter(v2);
    ValueOfLetter(v3);
    var s0 := [Letter(v0), Letter(v1), Letter(v2), Letter(v3)] + tail;
    var s1 := [Letter(v1), Letter(v2), Letter(v3)] + tail;
    var s2 := [Letter(v2), Letter(v3)] + tail;
    var s3 := [Letter(v3)] + tail;
    assert s0[1..] == s1 && s1[1..] == s2 && s2[1..] == s3 && s3[1..] == tail;
    assert Read(s3, 3, v2 % 4, 0) == Emit(v2 % 4 * 64 + v3, Read(tail, 0, 0, 0));
    assert Read(s2, 2, v1 % 16, 0) == Emit(v1 % 16 * 16 + v2 / 4, Read(s3, 3, v2 % 4, 0));
    assert Read(s1, 1, v0, 0) == Emit(v0 * 4 + v1 / 16, Read(s2, 2, v1 % 16, 0));
  }

  lemma ReadOneByte(b: Byte)
    ensures Decode(Encode([b])) == Some([b])
  {
    var v0, v1 := b / 4, b % 4 * 16;
    ValueOfLetter(v0);
    ValueOfLetter(v1);
    var s := [Letter(v0), Letter(v1), '=', '='];
    assert s[1..] == [Letter(v1), '=', '='] && s[1..][1..] == ['=', '='] && ['=', '='][1..] == ['='];
    assert v1 % 16 == 0;
    assert Read(['='], 2, 0, 1) == Some([]);
    assert Read(['=', '='], 2, 0, 0) == Some([]);
    assert Read([Letter(v1), '=', '='], 1, v0, 0) == Emit(v0 * 4 + v1 / 16, Some([]));
    assert Encode([b]) == s && Read(s, 0, 0, 0) == Read(s[1..], 1, v0, 0) && v0 * 4 + v1 / 16 == b;
    assert [b] + [] == [b];
  }

  lemma ReadTwoBytes(b: Byte, c: Byte)
    ensures Decode(Encode([b, c])) == Some([b, c])
  {
    var v0, v1, v2 := b / 4, b % 4 * 16 + c / 16, c % 16 * 4;
    ValueOfLetter(v0);
    ValueOfLetter(v1);
    ValueOfLetter(v2);
    var s := [Letter(v0), Letter(v1), Letter(v2), '='];
    assert s[1..] == [Letter(v1), Letter(v2), '='] && s[1..][1..] == [Letter(v2), '='];
    assert [Letter(v2), '='][1..] == ['='];
    assert v2 % 4 == 0;
    assert Read(['='], 3, 0, 0) == Some([]);
    assert Read([Letter(v2), '='], 2, v1 % 16, 0) == Emit(v1 % 16 * 16 + v2 / 4, Some([]));
    assert Read([Letter(v1), Letter(v2), '='], 1, v0, 0) ==
           Emit(v0 * 4 + v1 / 16, Read([Letter(v2), '='], 2, v1 % 16, 0));
    assert Encode([b, c]) == s && Read(s, 0, 0, 0) == Read(s[1..], 1, v0, 0);
    assert v0 * 4 + v1 / 16 == b && v1 % 16 * 16 + v2 / 4 == c;
    assert [c] + [] == [c] && [b] + [c] == [b, c];
  }

  /** Reading undoes writing, for every sequence of bytes. */
  lemma {:induction false} DecodeUndoesEncode(b: seq<Byte>)
    ensures Decode(Encode(b)) == Some(b)
  {
    if |b| == 1 {
      ReadOneByte(b[0]);
      assert b == [b[0]];
    } else if |b| == 2 {
      ReadTwoBytes(b[0], b[1]);
      assert b == [b[0], b[1]];
    } else if |b| >= 3 {
      var v0, v1, v2, v3 := b[0] / 4, b[0] % 4 * 16 + b[1] / 16, b[1] % 16 * 4 + b[2] / 64, b[2] % 64;
      ReadGroup(v0, v1, v2, v3, Encode(b[3..]));
      DecodeUndoesEncode(b[3..]);
      assert v0 * 4 + v1 / 16 == b[0] && v1 % 16 * 16 + v2 / 4 == b[1] && v2 % 4 * 64 + v3 == b[2];
      assert [b[0]] + ([b[1]] + ([b[2]] + b[3..])) == b;
    }
  }

  predicate Letters(s: string) {
    forall c <- s :: ValueOf(c).Some?
  }

  lemma LettersAreAscii(s: string)
    requires Letters(s)
    ensures Ascii(s) && '=' !in s
  {
  }

  lemma StripOnePad(s: string)
    ensures StripPadding(s + ['=']) == StripPadding(s)
  {
    assert (s + ['='])[..|s|] == s;
  }

  lemma {:induction false} StripAfterLetters(front: string, tail: string)
    requires front != "" && front[|front| - 1] != '='
    ensures StripPadding(front + tail) == front + StripPadding(tail)
  {
    if tail == "" {
      assert front + tail == front;
    } else {
      var n := |tail| - 1;
      assert (front + tail)[..|front + tail| - 1] == front + tail[..n];
      StripAfterLetters(front, tail[..n]);
    }
  }

  /** Three letters and one pad, or two and two. */
  lemma StripLastGroup(letters: string)
    requires Letters(letters) && 2 <= |letters| <= 3
    ensures StripPadding(Repad(letters)) == letters && |Repad(letters)| == 4
  {
    LettersAreAscii(letters);
    assert letters[|letters| - 1] in letters;
    StripOnePad(letters);
    StripOnePad(letters + ['=']);
    if |letters| == 3 {
      assert Repad(letters) == letters + ['='];
    } else {
      assert Repad(letters) == letters + ['='] + ['='];
    }
  }

  lemma RepadAfterGroup(group: string, rest: string)
    requires |group| == 4
    ensures Repad(group + rest) == group + Repad(rest)
  {
  }

  /** The letters of an encoding: the text without its pads. */
  function EncodedLetters(b: seq<Byte>): (s: string)
    ensures Letters(s)
  {
    if |b| == 0 then ""
    else
      ValueOfLetter(b[0] / 4);
      ValueOfLetter(b[0] % 4 * 16);
      if |b| == 1 then [Letter(b[0] / 4), Letter(b[0] % 4 * 16)]
      else
        ValueOfLetter(b[0] % 4 * 16 + b[1] / 16);
        ValueOfLetter(b[1] % 16 * 4);
        if |b| == 2 then [Letter(b[0] / 4), Letter(b[0] % 4 * 16 + b[1] / 16), Letter(b[1] % 16 * 4)]
        else
          ValueOfLetter(b[1] % 16 * 4 + b[2] / 64);
          ValueOfLetter(b[2] % 64);
          [Letter(b[0] / 4), Letter(b[0] % 4 * 16 + b[1] / 16), Letter(b[1] % 16 * 4 + b[2] / 64), Letter(b[2] % 64)]
          + EncodedLetters(b[3..])
  }

  /** Stripping the pads leaves the letters, and padding to a multiple of four puts back exactly what was
      stripped, whatever the number of bytes. */
  lemma {:induction false} RepadUndoesStrip(b: seq<Byte>)
    ensures StripPadding(Encode(b)) == EncodedLetters(b)
    ensures Repad(StripPadding(Encode(b))) == Encode(b)
  {
    var letters := EncodedLetters(b);
    if 1 <= |b| <= 2 {
      StripLastGroup(letters);
      assert Encode(b) == Repad(letters);
    } else if |b| >= 3 {
      var group := letters[..4];
      assert letters == group + EncodedLetters(b[3..]) && Encode(b) == group + Encode(b[3..]);
      assert group[3] in letters;
      LettersAreAscii(letters);
      RepadUndoesStrip(b[3..]);
      StripAfterLetters(group, Encode(b[3..]));
      RepadAfterGroup(group, EncodedLetters(b[3..]));
    }
  }

  /** What is not of the alphabet is passed over, wherever it stands. */
  lemma {:induction false} JunkIsPassedOver(a: string, junk: char, b: string, place: int, left: int, pads: int)
    requires ValueOf(junk) == None && junk != '='
    requires 0 <= place < 4 && 0 <= pads
    requires place == 1 ==> 0 <= left < 64
    requires place == 2 ==> 0 <= left < 16
    requires place == 3 ==> 0 <= left < 4
    ensures Read(a + [junk] + b, place, left, pads) == Read(a + b, place, left, pads)
    decreases |a|
  {
    var s, t := a + [junk] + b, a + b;
    if a == "" {
      assert s[1..] == t;
    } else {
      assert s[1..] == a[1..] + [junk] + b && t[1..] == a[1..] + b;
      if a[0] == '=' {
        JunkIsPassedOver(a[1..], junk, b, place, left, if place >= 2 then pads + 1 else pads);
      } else if ValueOf(a[0]).None? {
        JunkIsPassedOver(a[1..], junk, b, place, left, pads);
      } else {
        var v := ValueOf(a[0]).value;
        match place
        case 0 => JunkIsPassedOver(a[1..], junk, b, 1, v, 0);
        case 1 => JunkIsPassedOver(a[1..], junk, b, 2, v % 16, 0);
        case 2 => JunkIsPassedOver(a[1..], junk, b, 3, v % 4, 0);
        case _ => JunkIsPassedOver(a[1..], junk, b, 0, 0, 0);
      }
    }
  }

  /** The alphabet (table 2 of RFC 4648): A to Z, a to z, 0 to 9, "-" and "_". */
  lemma Alphabet(n: Sextet)
    ensures Letter(0) == 'A' && Letter(25) == 'Z' && Letter(26) == 'a' && Letter(51) == 'z'
    ensures Letter(52) == '0' && Letter(61) == '9' && Letter(62) == '-' && Letter(63) == '_'
    ensures n < 61 && n != 25 && n != 51 ==> Letter(n + 1) as int == Letter(n) as int + 1
  {
  }

  /** The test vectors of section 10 of RFC 4648 for the three lengths of a group: f, fo and foo. */
  lemma TestVectors()
    ensures Encode([0x66]) == "Zg==" && Encode([0x66, 0x6F]) == "Zm8=" && Encode([0x66, 0x6F, 0x6F]) == "Zm9v"
  {
    assert [0x66 as Byte, 0x6F, 0x6F][3..] == [];
  }
}
