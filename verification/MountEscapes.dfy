/** Decoding of mount-table paths: four whole-text replacement passes against one left-to-right decoder. */
module MountEscapes {

  predicate HasPrefix(s: string, pattern: string) {
    pattern <= s
  }

  /** Rust's `str::replace`: non-overlapping matches from the left. */
  function Replace(s: string, pattern: string, to: char): string
    requires pattern != ""
  {
    if s == "" then ""
    else if HasPrefix(s, pattern) then [to] + Replace(s[|pattern|..], pattern, to)
    else [s[0]] + Replace(s[1..], pattern, to)
  }

  const SPACE := "\\040"
  const TAB := "\\011"
  const NEWLINE := "\\012"
  const BACKSLASH := "\\134"

  function Unescape(s: string): string {
    Replace(Replace(Replace(Replace(s, SPACE, ' '), TAB, '\t'), NEWLINE, '\n'), BACKSLASH, '\\')
  }

  /** One pass: each escape is decoded where it stands and its result never looked at again. */
  function Decode(s: string): string {
    if s == "" then ""
    else if HasPrefix(s, SPACE) then " " + Decode(s[4..])
    else if HasPrefix(s, TAB) then "\t" + Decode(s[4..])
    else if HasPrefix(s, NEWLINE) then "\n" + Decode(s[4..])
    else if HasPrefix(s, BACKSLASH) then "\\" + Decode(s[4..])
    else [s[0]] + Decode(s[1..])
  }

  /** How the kernel writes a path into the mount table. */
  function EscapeChar(c: char): string {
    if c == ' ' then SPACE else if c == '\t' then TAB else if c == '\n' then NEWLINE
    else if c == '\\' then BACKSLASH else [c]
  }

  function Escape(s: string): string {
    if s == "" then "" else EscapeChar(s[0]) + Escape(s[1..])
  }

  // ---------------------------------------------------------------- passes against each other

  /** An escape: a backslash and three digits. */
  predicate IsEscape(e: string) {
    |e| == 4 && e[0] == '\\' && forall i | 1 <= i < 4 :: '0' <= e[i] <= '7'
  }

  lemma PassPlain(c: char, s: string, e: string, to: char)
    requires IsEscape(e) && c != '\\'
    ensures Replace([c] + s, e, to) == [c] + Replace(s, e, to)
  {
    assert ([c] + s)[0] == c && ([c] + s)[1..] == s;
  }

  /** A pass for one escape leaves a different escape at the front alone. */
  lemma PassOther(other: string, s: string, e: string, to: char)
    requires IsEscape(e) && IsEscape(other) && other != e
    ensures Replace(other + s, e, to) == other + Replace(s, e, to)
  {
    var t := other + s;
    assert !HasPrefix(t, e) by { assert t[..4] == other; }
    var rest := other[1..] + s;
    assert t[1..] == rest;
    assert rest == [other[1]] + ([other[2]] + ([other[3]] + s));
    PassPlain(other[1], [other[2]] + ([other[3]] + s), e, to);
    PassPlain(other[2], [other[3]] + s, e, to);
    PassPlain(other[3], s, e, to);
    assert other == [other[0]] + [other[1]] + [other[2]] + [other[3]];
  }

  lemma PassOwn(s: string, e: string, to: char)
    requires IsEscape(e)
    ensures Replace(e + s, e, to) == [to] + Replace(s, e, to)
  {
    assert (e + s)[4..] == s;
  }

  /** Digits at the front of a pass's result were there before it. */
  lemma {:induction false} DigitsAreOld(digits: string, s: string, e: string, to: char)
    requires IsEscape(e) && !('0' <= to <= '7') && to != '\\'
    requires forall i | 0 <= i < |digits| :: '0' <= digits[i] <= '7'
    requires HasPrefix(Replace(s, e, to), digits)
    ensures HasPrefix(s, digits)
  {
    if digits != "" {
      assert Replace(s, e, to)[0] == digits[0];
      assert s != "" && !HasPrefix(s, e);
      assert Replace(s, e, to)[1..] == Replace(s[1..], e, to);
      DigitsAreOld(digits[1..], s[1..], e, to);
      assert s == [s[0]] + s[1..];
    }
  }

  /** A lone backslash passes through, and its pass creates no escape out of it. */
  lemma PassLoneBackslash(s: string, e: string, to: char, f: string)
    requires IsEscape(e) && IsEscape(f) && !('0' <= to <= '7') && to != '\\'
    requires !HasPrefix("\\" + s, e) && !HasPrefix("\\" + s, f)
    ensures Replace("\\" + s, e, to) == "\\" + Replace(s, e, to)
    ensures !HasPrefix("\\" + Replace(s, e, to), f)
  {
    assert ("\\" + s)[1..] == s;
    EscapePrefix(s, f);
    EscapePrefix(Replace(s, e, to), f);
    if HasPrefix(Replace(s, e, to), f[1..]) {
      DigitsAreOld(f[1..], s, e, to);
    }
  }

  lemma EscapePrefix(s: string, f: string)
    requires IsEscape(f)
    ensures HasPrefix("\\" + s, f) <==> HasPrefix(s, f[1..])
  {
    assert f == "\\" + f[1..];
    assert ("\\" + s)[1..] == s;
  }

  lemma UnescapePlain(c: char, s: string)
    requires c != '\\'
    ensures Unescape([c] + s) == [c] + Unescape(s)
  {
    PassPlain(c, s, SPACE, ' ');
    var s1 := Replace(s, SPACE, ' ');
    PassPlain(c, s1, TAB, '\t');
    var s2 := Replace(s1, TAB, '\t');
    PassPlain(c, s2, NEWLINE, '\n');
    PassPlain(c, Replace(s2, NEWLINE, '\n'), BACKSLASH, '\\');
  }

  lemma UnescapeSpace(s: string)
    ensures Unescape(SPACE + s) == " " + Unescape(s)
  {
    PassOwn(s, SPACE, ' ');
    var s1 := Replace(s, SPACE, ' ');
    PassPlain(' ', s1, TAB, '\t');
    var s2 := Replace(s1, TAB, '\t');
    PassPlain(' ', s2, NEWLINE, '\n');
    PassPlain(' ', Replace(s2, NEWLINE, '\n'), BACKSLASH, '\\');
  }

  lemma UnescapeTab(s: string)
    ensures Unescape(TAB + s) == "\t" + Unescape(s)
  {
    PassOther(TAB, s, SPACE, ' ');
    var s1 := Replace(s, SPACE, ' ');
    PassOwn(s1, TAB, '\t');
    var s2 := Replace(s1, TAB, '\t');
    PassPlain('\t', s2, NEWLINE, '\n');
    PassPlain('\t', Replace(s2, NEWLINE, '\n'), BACKSLASH, '\\');
  }

  lemma UnescapeNewline(s: string)
    ensures Unescape(NEWLINE + s) == "\n" + Unescape(s)
  {
    PassOther(NEWLINE, s, SPACE, ' ');
    var s1 := Replace(s, SPACE, ' ');
    PassOther(NEWLINE, s1, TAB, '\t');
    var s2 := Replace(s1, TAB, '\t');
    PassOwn(s2, NEWLINE, '\n');
    PassPlain('\n', Replace(s2, NEWLINE, '\n'), BACKSLASH, '\\');
  }

  lemma UnescapeBackslash(s: string)
    ensures Unescape(BACKSLASH + s) == "\\" + Unescape(s)
  {
    PassOther(BACKSLASH, s, SPACE, ' ');
    var s1 := Replace(s, SPACE, ' ');
    PassOther(BACKSLASH, s1, TAB, '\t');
    var s2 := Replace(s1, TAB, '\t');
    PassOther(BACKSLASH, s2, NEWLINE, '\n');
    PassOwn(Replace(s2, NEWLINE, '\n'), BACKSLASH, '\\');
  }

  lemma UnescapeLoneBackslash(s: string)
    requires !HasPrefix("\\" + s, SPACE) && !HasPrefix("\\" + s, TAB)
    requires !HasPrefix("\\" + s, NEWLINE) && !HasPrefix("\\" + s, BACKSLASH)
    ensures Unescape("\\" + s) == "\\" + Unescape(s)
  {
    var s1 := Replace(s, SPACE, ' ');
    PassLoneBackslash(s, SPACE, ' ', TAB);
    PassLoneBackslash(s, SPACE, ' ', NEWLINE);
    PassLoneBackslash(s, SPACE, ' ', BACKSLASH);
    var s2 := Replace(s1, TAB, '\t');
    PassLoneBackslash(s1, TAB, '\t', NEWLINE);
    PassLoneBackslash(s1, TAB, '\t', BACKSLASH);
    PassLoneBackslash(s2, NEWLINE, '\n', BACKSLASH);
    var s3 := Replace(s2, NEWLINE, '\n');
    assert ("\\" + s3)[1..] == s3;
  }

  /** The four passes, backslash last, decode every text as one pass would. */
  lemma {:induction false} PassesEqualDecoder(s: string)
    ensures Unescape(s) == Decode(s)
    decreases |s|
  {
    if s != "" {
      if HasPrefix(s, SPACE) {
        assert s == SPACE + s[4..];
        PassesEqualDecoder(s[4..]);
        UnescapeSpace(s[4..]);
      } else if HasPrefix(s, TAB) {
        assert s == TAB + s[4..];
        PassesEqualDecoder(s[4..]);
        UnescapeTab(s[4..]);
      } else if HasPrefix(s, NEWLINE) {
        assert s == NEWLINE + s[4..];
        PassesEqualDecoder(s[4..]);
        UnescapeNewline(s[4..]);
      } else if HasPrefix(s, BACKSLASH) {
        assert s == BACKSLASH + s[4..];
        PassesEqualDecoder(s[4..]);
        UnescapeBackslash(s[4..]);
      } else {
        assert s == [s[0]] + s[1..];
        PassesEqualDecoder(s[1..]);
        if s[0] == '\\' {
          UnescapeLoneBackslash(s[1..]);
        } else {
          UnescapePlain(s[0], s[1..]);
        }
      }
    }
  }

  lemma DecodeOne(c: char, rest: string)
    ensures Decode(EscapeChar(c) + rest) == [c] + Decode(rest)
  {
    var e := EscapeChar(c);
    var s := e + rest;
    assert s[0] == e[0] && s[|e|..] == rest;
    if |e| == 4 {
      assert s[2] == e[2] && s[3] == e[3];
      assert s[..4] == e;
    }
  }

  lemma {:induction false} DecodeEscaped(s: string)
    ensures Decode(Escape(s)) == s
  {
    if s != "" {
      DecodeEscaped(s[1..]);
      DecodeOne(s[0], Escape(s[1..]));
      assert s == [s[0]] + s[1..];
    }
  }

  /** Whatever a path contains, the mount table's spelling of it is read back exactly. */
  lemma MountRoundTrip(s: string)
    ensures Unescape(Escape(s)) == s
  {
    PassesEqualDecoder(Escape(s));
    DecodeEscaped(s);
  }
}
