/** The string operations the components share. */
module Text {

  /** Unicode white space: what records strip from their fields. */
  predicate IsWhite(c: char) {
    || '\t' <= c <= '\r' || c == ' '
    || c == '\U{85}' || c == '\U{A0}' || c == '\U{1680}' || '\U{2000}' <= c <= '\U{200A}'
    || c == '\U{2028}' || c == '\U{2029}' || c == '\U{202F}' || c == '\U{205F}' || c == '\U{3000}'
  }

  /** Python's `str.isspace` on one character: four separators more. */
  predicate IsSpace(c: char) {
    IsWhite(c) || '\U{1C}' <= c <= '\U{1F}'
  }

  /** `not text.strip()`. */
  predicate IsBlank(text: string) {
    forall i :: 0 <= i < |text| ==> IsSpace(text[i])
  }

  function StripEnd(s: string, space: char -> bool): string {
    if s == "" || !space(s[|s| - 1]) then s else StripEnd(s[..|s| - 1], space)
  }

  function StripStart(s: string, space: char -> bool): string {
    if s == "" || !space(s[0]) then s else StripStart(s[1..], space)
  }

  /** `s.rstrip()`. */
  function RStrip(s: string): string {
    StripEnd(s, IsSpace)
  }

  /** `s.strip()`. */
  function Strip(s: string): string {
    StripStart(RStrip(s), IsSpace)
  }

  /** What a record keeps of a field. */
  function Trim(s: string): string {
    StripStart(StripEnd(s, IsWhite), IsWhite)
  }

  function BoolText(b: bool): string {
    if b then "true" else "false"
  }

  /** `separator.join(parts)`. */
  function Join(separator: string, parts: seq<string>): string {
    if parts == [] then ""
    else if |parts| == 1 then parts[0]
    else parts[0] + separator + Join(separator, parts[1..])
  }

  predicate OccursAt(whole: string, part: string, i: int) {
    0 <= i <= |whole| - |part| && whole[i..i + |part|] == part
  }

  /** `part in whole`. */
  predicate Contains(whole: string, part: string) {
    exists i :: 0 <= i <= |whole| && OccursAt(whole, part, i)
  }

  lemma ContainsMiddle(a: string, part: string, b: string)
    ensures Contains(a + part + b, part)
  {
    var whole := a + part + b;
    assert whole[|a|..|a| + |part|] == part;
    assert OccursAt(whole, part, |a|);
  }

  /** A string that starts and ends with a visible character is left alone. */
  lemma TrimFixed(s: string)
    requires s != "" && !IsWhite(s[0]) && !IsWhite(s[|s| - 1])
    ensures Trim(s) == s
  {
  }

  lemma {:induction false} StripEndPrefix(s: string, space: char -> bool)
    ensures |StripEnd(s, space)| <= |s| && StripEnd(s, space) == s[..|StripEnd(s, space)|]
    decreases |s|
  {
    if s != "" && space(s[|s| - 1]) {
      StripEndPrefix(s[..|s| - 1], space);
    }
  }

  /** Trailing white space is lost. */
  lemma TrimShortens(s: string)
    requires s != "" && IsWhite(s[|s| - 1])
    ensures Trim(s) != s
  {
    StripEndPrefix(s[..|s| - 1], IsWhite);
    StripStartShorter(StripEnd(s, IsWhite), IsWhite);
  }

  lemma {:induction false} StripStartShorter(s: string, space: char -> bool)
    ensures |StripStart(s, space)| <= |s|
    decreases |s|
  {
    if s != "" && space(s[0]) {
      StripStartShorter(s[1..], space);
    }
  }

  lemma {:induction false} JoinLast(separator: string, parts: seq<string>)
    requires parts != []
    ensures Join(separator, parts) ==
              if |parts| == 1 then parts[0]
              else Join(separator, parts[..|parts| - 1]) + separator + parts[|parts| - 1]
    decreases |parts|
  {
    if |parts| > 1 {
      JoinLast(separator, parts[1..]);
      if |parts| > 2 {
        assert parts[1..][..|parts[1..]| - 1] == parts[..|parts| - 1][1..];
        assert parts[..|parts| - 1][0] == parts[0];
      }
    }
  }

  lemma JoinStarts(separator: string, parts: seq<string>)
    requires parts != []
    ensures parts[0] <= Join(separator, parts)
  {
  }

  lemma ContainsLeft(a: string, b: string, part: string)
    requires Contains(a, part)
    ensures Contains(a + b, part)
  {
    var i :| 0 <= i <= |a| && OccursAt(a, part, i);
    assert (a + b)[i..i + |part|] == a[i..i + |part|];
    assert OccursAt(a + b, part, i);
  }

  lemma ContainsRight(a: string, b: string, part: string)
    requires Contains(b, part)
    ensures Contains(a + b, part)
  {
    var i :| 0 <= i <= |b| && OccursAt(b, part, i);
    assert (a + b)[|a| + i..|a| + i + |part|] == b[i..i + |part|];
    assert OccursAt(a + b, part, |a| + i);
  }

  /** A join contains whatever one of its parts contains. */
  lemma {:induction false} JoinContains(separator: string, parts: seq<string>, i: nat, part: string)
    requires i < |parts| && Contains(parts[i], part)
    ensures Contains(Join(separator, parts), part)
    decreases |parts|
  {
    if |parts| > 1 {
      if i == 0 {
        ContainsLeft(parts[0], separator, part);
        ContainsLeft(parts[0] + separator, Join(separator, parts[1..]), part);
      } else {
        JoinContains(separator, parts[1..], i - 1, part);
        ContainsRight(parts[0] + separator, Join(separator, parts[1..]), part);
      }
    }
  }

  // ---- lines ----

  predicate LineAt(text: string, line: string, i: int) {
    && OccursAt(text, line, i)
    && (i == 0 || text[i - 1] == '\n') && (i + |line| == |text| || text[i + |line|] == '\n')
  }

  /** A line of the text, or several in a row, read exactly `line`. */
  ghost predicate HasLine(text: string, line: string) {
    exists i :: LineAt(text, line, i)
  }

  lemma {:induction false} JoinHasLine(lines: seq<string>, i: nat)
    requires i < |lines|
    ensures HasLine(Join("\n", lines), lines[i])
    decreases |lines|
  {
    var text := Join("\n", lines);
    if |lines| == 1 {
      assert LineAt(text, lines[0], 0);
    } else if i == 0 {
      assert text == lines[0] + ("\n" + Join("\n", lines[1..]));
      assert LineAt(text, lines[0], 0);
    } else {
      JoinHasLine(lines[1..], i - 1);
      var rest := Join("\n", lines[1..]);
      var k :| LineAt(rest, lines[i], k);
      var front := lines[0] + "\n";
      assert text == front + rest;
      assert text[|front| + k..|front| + k + |lines[i]|] == rest[k..k + |lines[i]|];
      assert k > 0 ==> text[|front| + k - 1] == rest[k - 1];
      assert k + |lines[i]| < |rest| ==> text[|front| + k + |lines[i]|] == rest[k + |lines[i]|];
      assert LineAt(text, lines[i], |front| + k);
    }
  }
}
