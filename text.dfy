/**
 * Character classes, case mapping, trimming, splitting and decimal rendering
 * of strings, as the Foundation string operations the schedule code relies on
 * behave on the characters this model covers (ASCII and Latin-1).
 */
module Text {

  /** An ASCII decimal digit, the characters `\d` and `Int(_:)` accept here. */
  predicate IsDigit(c: char) {
    '0' <= c <= '9'
  }

  function DigitValue(c: char): (v: nat)
    requires IsDigit(c)
    ensures v < 10
  {
    c as int - '0' as int
  }

  function DigitChar(v: nat): (c: char)
    requires v < 10
    ensures IsDigit(c) && DigitValue(c) == v
  {
    (v + '0' as int) as char
  }

  /** `CharacterSet.whitespaces`: the tab and the space separators (category Zs). */
  predicate IsBlank(c: char) {
    c == ' ' || c == '\t' || c == '\U{00A0}' || c == '\U{1680}'
    || ('\U{2000}' <= c <= '\U{200A}') || c == '\U{202F}' || c == '\U{205F}' || c == '\U{3000}'
  }

  /** `CharacterSet.newlines`. */
  predicate IsNewline(c: char) {
    ('\n' <= c <= '\r') || c == '\U{0085}' || c == '\U{2028}' || c == '\U{2029}'
  }

  /** The regular-expression class `\s`. */
  predicate IsRegexSpace(c: char) {
    IsBlank(c) || IsNewline(c)
  }

  /** `CharacterSet.letters`, restricted to ASCII, Latin-1, Latin Extended-A/B and combining marks. */
  predicate IsLetter(c: char) {
    ('A' <= c <= 'Z') || ('a' <= c <= 'z')
    || c == '\U{00AA}' || c == '\U{00B5}' || c == '\U{00BA}'
    || ('\U{00C0}' <= c <= '\U{00D6}') || ('\U{00D8}' <= c <= '\U{00F6}') || ('\U{00F8}' <= c <= '\U{024F}')
    || ('\U{0300}' <= c <= '\U{036F}')
  }

  predicate IsUpperLetter(c: char) {
    ('A' <= c <= 'Z') || ('\U{00C0}' <= c <= '\U{00DE}' && c != '\U{00D7}')
  }

  predicate IsLowerLetter(c: char) {
    ('a' <= c <= 'z') || ('\U{00E0}' <= c <= '\U{00FE}' && c != '\U{00F7}')
  }

  /** Lower-case mapping of one character (ASCII and Latin-1 capitals). */
  function LowerChar(c: char): (r: char)
    ensures IsUpperLetter(c) ==> IsLowerLetter(r) && r as int == c as int + 32
    ensures !IsUpperLetter(c) ==> r == c
  {
    if IsUpperLetter(c) then (c as int + 32) as char else c
  }

  /** Upper-case mapping of one character (ASCII and Latin-1 small letters). */
  function UpperChar(c: char): (r: char)
    ensures IsLowerLetter(c) ==> IsUpperLetter(r) && r as int == c as int - 32
    ensures !IsLowerLetter(c) ==> r == c
  {
    if IsLowerLetter(c) then (c as int - 32) as char else c
  }

  function Lower(s: string): (r: string)
    ensures |r| == |s|
    ensures forall i :: 0 <= i < |s| ==> r[i] == LowerChar(s[i])
  {
    if s == [] then [] else [LowerChar(s[0])] + Lower(s[1..])
  }

  function Upper(s: string): (r: string)
    ensures |r| == |s|
    ensures forall i :: 0 <= i < |s| ==> r[i] == UpperChar(s[i])
  {
    if s == [] then [] else [UpperChar(s[0])] + Upper(s[1..])
  }

  /** Two characters are equal under simple case folding. */
  predicate SameLetterCI(a: char, b: char) {
    LowerChar(a) == LowerChar(b)
  }

  /** `s.contains(t)`: `t` occurs in `s` at some position. */
  predicate Contains(s: string, t: string)
    decreases |s|
  {
    t <= s || (s != [] && Contains(s[1..], t))
  }

  lemma {:induction false} ContainsAt(s: string, t: string)
    ensures Contains(s, t) <==> exists i :: 0 <= i <= |s| - |t| && t <= s[i..]
    decreases |s|
  {
    if t <= s {
      assert s[0..] == s;
    }
    if s != [] {
      ContainsAt(s[1..], t);
      if Contains(s[1..], t) {
        var i :| 0 <= i <= |s[1..]| - |t| && t <= s[1..][i..];
        assert s[1..][i..] == s[i + 1..];
      }
      if i :| 0 <= i <= |s| - |t| && t <= s[i..] {
        if i > 0 {
          assert s[1..][i - 1..] == s[i..];
        }
      }
    }
  }

  /** Drops leading characters of the class `drop`. */
  function TrimStart(s: string, drop: char -> bool): (r: string)
    ensures r <= s || (|r| <= |s| && r == s[|s| - |r|..])
    ensures r == s[|s| - |r|..]
    ensures r != [] ==> !drop(r[0])
    ensures forall i :: 0 <= i < |s| - |r| ==> drop(s[i])
  {
    if s != [] && drop(s[0]) then TrimStart(s[1..], drop) else s
  }

  /** Drops trailing characters of the class `drop`. */
  function TrimEnd(s: string, drop: char -> bool): (r: string)
    ensures r <= s
    ensures r != [] ==> !drop(r[|r| - 1])
    ensures forall i :: |r| <= i < |s| ==> drop(s[i])
  {
    if s != [] && drop(s[|s| - 1]) then TrimEnd(s[..|s| - 1], drop) else s
  }

  /** `trimmingCharacters(in:)` for the class `drop`: the middle part of `s`
      that neither starts nor ends with a character of `drop`. */
  function Trim(s: string, drop: char -> bool): (r: string)
    ensures |r| <= |s|
    ensures r != [] ==> !drop(r[0]) && !drop(r[|r| - 1])
    ensures (forall i :: 0 <= i < |s| ==> drop(s[i])) ==> r == []
    ensures exists a, b :: 0 <= a <= b <= |s| && r == s[a..b]
                           && (forall i :: 0 <= i < a ==> drop(s[i]))
                           && (forall i :: b <= i < |s| ==> drop(s[i]))
  {
    var t := TrimStart(s, drop);
    var r := TrimEnd(t, drop);
    TrimParts(s, t, r, drop);
    r
  }

  /** A prefix of a suffix is a slice, and what both cuts drop is of the class `drop`. */
  lemma TrimParts(s: string, t: string, r: string, drop: char -> bool)
    requires |t| <= |s| && t == s[|s| - |t|..] && forall i :: 0 <= i < |s| - |t| ==> drop(s[i])
    requires r <= t && forall i :: |r| <= i < |t| ==> drop(t[i])
    ensures var a := |s| - |t|;
      && 0 <= a <= a + |r| <= |s| && r == s[a..a + |r|]
      && (forall i :: 0 <= i < a ==> drop(s[i])) && (forall i :: a + |r| <= i < |s| ==> drop(s[i]))
  {
    var a := |s| - |t|;
    assert r == s[a..a + |r|];
    assert forall i :: a + |r| <= i < |s| ==> s[i] == t[i - a];
  }

  /** `trimmingCharacters(in: .whitespaces)`. */
  function TrimWhitespace(s: string): string {
    Trim(s, IsBlank)
  }

  /** A letter at each end, when not empty. */
  predicate LetterBounded(r: string) {
    r != [] ==> IsLetter(r[0]) && IsLetter(r[|r| - 1])
  }

  /** `trimmingCharacters(in: CharacterSet.letters.inverted)`: the slice of `s`
      left once its leading and trailing non-letters are dropped. */
  function TrimNonLetters(s: string): (r: string)
    ensures LetterBounded(r)
    ensures exists a, b :: 0 <= a <= b <= |s| && r == s[a..b]
                           && (forall i :: 0 <= i < a ==> !IsLetter(s[i]))
                           && (forall i :: b <= i < |s| ==> !IsLetter(s[i]))
  {
    Trim(s, c => !IsLetter(c))
  }

  /** Index of the first newline character of `s`, or |s| when there is none. */
  function NewlineIndex(s: string): (i: nat)
    ensures i <= |s|
    ensures i < |s| ==> IsNewline(s[i])
    ensures forall k :: 0 <= k < i ==> !IsNewline(s[k])
  {
    if s == [] || IsNewline(s[0]) then 0 else 1 + NewlineIndex(s[1..])
  }

  /** `components(separatedBy: .newlines)`: the pieces between newline characters,
      one more piece than there are newline characters. */
  function SplitLines(s: string): (lines: seq<string>)
    ensures |lines| >= 1
    ensures forall j, k :: 0 <= j < |lines| && 0 <= k < |lines[j]| ==> !IsNewline(lines[j][k])
    decreases |s|
  {
    var i := NewlineIndex(s);
    if i == |s| then [s] else [s[..i]] + SplitLines(s[i + 1..])
  }

  /** Number of newline characters in `s`. */
  function CountNewlines(s: string): nat {
    if s == [] then 0 else (if IsNewline(s[0]) then 1 else 0) + CountNewlines(s[1..])
  }

  lemma {:induction false} CountNewlinesSplit(s: string, i: nat)
    requires i <= |s|
    ensures CountNewlines(s) == CountNewlines(s[..i]) + CountNewlines(s[i..])
  {
    if i > 0 {
      CountNewlinesSplit(s[1..], i - 1);
      assert s[1..][..i - 1] == s[..i][1..];
      assert s[1..][i - 1..] == s[i..];
    }
  }

  lemma {:induction false} NoNewlinesCount(s: string)
    requires forall k :: 0 <= k < |s| ==> !IsNewline(s[k])
    ensures CountNewlines(s) == 0
  {
    if s != [] {
      NoNewlinesCount(s[1..]);
    }
  }

  /** The newline characters of `s`, in order. */
  function Newlines(s: string): (r: string)
    ensures |r| == CountNewlines(s)
    ensures forall k :: 0 <= k < |r| ==> IsNewline(r[k])
  {
    if s == [] then [] else (if IsNewline(s[0]) then [s[0]] else []) + Newlines(s[1..])
  }

  lemma {:induction false} NewlinesSkip(s: string, i: nat)
    requires i <= |s|
    requires forall k :: 0 <= k < i ==> !IsNewline(s[k])
    ensures Newlines(s) == Newlines(s[i..])
  {
    if i > 0 {
      NewlinesSkip(s[1..], i - 1);
      assert s[1..][i - 1..] == s[i..];
    }
  }

  /** The lines put back together, each separator between the two lines it split. */
  function JoinLines(lines: seq<string>, seps: string): string
    requires |lines| == |seps| + 1
  {
    if seps == [] then lines[0] else lines[0] + [seps[0]] + JoinLines(lines[1..], seps[1..])
  }

  /** Splitting loses exactly the separators: one line per separator plus
      one, and the lines hold every other character. */
  lemma {:induction false} SplitLinesCounts(s: string)
    ensures |SplitLines(s)| == CountNewlines(s) + 1
    ensures TotalLength(SplitLines(s)) + CountNewlines(s) == |s|
    decreases |s|
  {
    var i := NewlineIndex(s);
    CountNewlinesSplit(s, i);
    NoNewlinesCount(s[..i]);
    if i < |s| {
      SplitLinesCounts(s[i + 1..]);
      assert s[i..] == [s[i]] + s[i + 1..];
      assert CountNewlines(s[i..]) == 1 + CountNewlines(s[i + 1..]);
      assert SplitLines(s) == [s[..i]] + SplitLines(s[i + 1..]);
      assert TotalLength(SplitLines(s)) == i + TotalLength(SplitLines(s[i + 1..]));
    } else {
      assert s[i..] == [];
    }
  }

  /** Putting the separators back between the lines gives back `s`. */
  lemma {:induction false} SplitLinesRejoin(s: string)
    ensures |SplitLines(s)| == |Newlines(s)| + 1
    ensures JoinLines(SplitLines(s), Newlines(s)) == s
    decreases |s|
  {
    var i := NewlineIndex(s);
    if i < |s| {
      var rest := s[i + 1..];
      SplitLinesRejoin(rest);
      NewlinesAtFirst(s, i);
      assert SplitLines(s) == [s[..i]] + SplitLines(rest);
      RejoinStep(s, i, SplitLines(rest), Newlines(rest));
    } else {
      NewlinesSkip(s, i);
      assert s[i..] == [];
    }
  }

  /** The newline characters of `s`, from its first one at `i`. */
  lemma NewlinesAtFirst(s: string, i: nat)
    requires i < |s| && IsNewline(s[i])
    requires forall k :: 0 <= k < i ==> !IsNewline(s[k])
    ensures Newlines(s) == [s[i]] + Newlines(s[i + 1..])
  {
    NewlinesSkip(s, i);
    assert s[i..][1..] == s[i + 1..];
  }

  /** The first line, the newline at `i`, then the rest joined back. */
  lemma RejoinStep(s: string, i: nat, lines: seq<string>, seps: string)
    requires i < |s| && |lines| == |seps| + 1 && JoinLines(lines, seps) == s[i + 1..]
    ensures JoinLines([s[..i]] + lines, [s[i]] + seps) == s
  {
    JoinLinesCons(s[..i], lines, s[i], seps);
    assert s[i..] == [s[i]] + s[i + 1..];
    assert s == s[..i] + s[i..];
  }

  lemma JoinLinesCons(line: string, lines: seq<string>, sep: char, seps: string)
    requires |lines| == |seps| + 1
    ensures JoinLines([line] + lines, [sep] + seps) == line + [sep] + JoinLines(lines, seps)
  {
    assert ([line] + lines)[1..] == lines;
    assert ([sep] + seps)[1..] == seps;
  }

  function TotalLength(lines: seq<string>): nat {
    if lines == [] then 0 else |lines[0]| + TotalLength(lines[1..])
  }

  // ---------------------------------------------------------------------------
  // Decimal rendering: Swift string interpolation of an `Int`.

  /** Decimal digits of `n`, most significant first, without leading zeros. */
  function NatToString(n: nat): (s: string)
    ensures |s| >= 1
    ensures forall i :: 0 <= i < |s| ==> IsDigit(s[i])
    ensures n < 10 <==> |s| == 1
    decreases n
  {
    if n < 10 then [DigitChar(n)] else NatToString(n / 10) + [DigitChar(n % 10)]
  }

  /** Value of a string of decimal digits. */
  function ParseNat(s: string): nat
    requires forall i :: 0 <= i < |s| ==> IsDigit(s[i])
  {
    if s == [] then 0 else 10 * ParseNat(s[..|s| - 1]) + DigitValue(s[|s| - 1])
  }

  lemma {:induction false} ParseNatToString(n: nat)
    ensures ParseNat(NatToString(n)) == n
    decreases n
  {
    if n >= 10 {
      var s := NatToString(n);
      ParseNatToString(n / 10);
      assert s[..|s| - 1] == NatToString(n / 10);
    }
  }

  lemma NatToStringInjective(a: nat, b: nat)
    requires NatToString(a) == NatToString(b)
    ensures a == b
  {
    ParseNatToString(a);
    ParseNatToString(b);
  }

  /** `"\(i)"` for an `Int`: a minus sign before the digits of a negative number. */
  function IntToString(i: int): (s: string)
    ensures |s| >= 1
    ensures i < 0 <==> s[0] == '-'
    ensures i >= 0 ==> s == NatToString(i)
  {
    if i < 0 then "-" + NatToString(-i) else NatToString(i)
  }

  lemma IntToStringInjective(a: int, b: int)
    requires IntToString(a) == IntToString(b)
    ensures a == b
  {
    if a < 0 {
      assert IntToString(a)[1..] == NatToString(-a);
      assert IntToString(b)[1..] == NatToString(-b);
      NatToStringInjective(-a, -b);
    } else {
      NatToStringInjective(a, b);
    }
  }

  /** `String(format: "%02d", n)` for 0 <= n < 100: exactly two digits. */
  function Pad2(n: nat): (s: string)
    requires n < 100
    ensures |s| == 2 && IsDigit(s[0]) && IsDigit(s[1])
    ensures 10 * DigitValue(s[0]) + DigitValue(s[1]) == n
  {
    [DigitChar(n / 10), DigitChar(n % 10)]
  }
}
