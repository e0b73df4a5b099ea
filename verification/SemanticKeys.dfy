/** The key that names a chunk inside its document, and the chunk id built from it. */
module SemanticKeys {
  import opened Text
  import opened Models

  predicate IsKeyChar(c: char) {
    'a' <= c <= 'z' || '0' <= c <= '9'
  }

  /** The rest of `s` after its leading run of other characters. */
  function AfterRun(s: string): (r: string)
    ensures |r| <= |s|
    ensures r != "" ==> IsKeyChar(r[0])
  {
    if s == "" || IsKeyChar(s[0]) then s else AfterRun(s[1..])
  }

  /** Every maximal run of other characters becomes one hyphen. */
  function Collapse(s: string): string
    decreases |s|
  {
    if s == "" then ""
    else if IsKeyChar(s[0]) then [s[0]] + Collapse(s[1..])
    else "-" + Collapse(AfterRun(s[1..]))
  }

  function DropLeading(s: string): string {
    if s != "" && s[0] == '-' then DropLeading(s[1..]) else s
  }

  function DropTrailing(s: string): string {
    if s != "" && s[|s| - 1] == '-' then DropTrailing(s[..|s| - 1]) else s
  }

  /** `lower` is the language's lower-casing of a whole string. */
  function SemanticKey(value: string, lower: string -> string): string {
    var normalized := DropTrailing(DropLeading(Collapse(lower(value))));
    if normalized == "" then "item" else normalized
  }

  /** Characters from `[a-z0-9-]`, no two hyphens in a row. */
  predicate Hyphenated(s: string) {
    && (forall i :: 0 <= i < |s| ==> IsKeyChar(s[i]) || s[i] == '-')
    && (forall i :: 0 <= i < |s| - 1 ==> !(s[i] == '-' && s[i + 1] == '-'))
  }

  /** What a semantic key looks like. */
  predicate IsKey(s: string) {
    && s != "" && Hyphenated(s) && s[0] != '-' && s[|s| - 1] != '-'
  }

  /** Lower-casing leaves keys alone. */
  ghost predicate KeepsKeys(lower: string -> string) {
    forall s :: IsKey(s) ==> lower(s) == s
  }

  lemma {:induction false} CollapseHyphenated(s: string)
    ensures Hyphenated(Collapse(s))
    ensures s != "" && IsKeyChar(s[0]) ==> Collapse(s) != "" && Collapse(s)[0] == s[0]
    decreases |s|
  {
    if s == "" {
    } else if IsKeyChar(s[0]) {
      CollapseHyphenated(s[1..]);
    } else {
      CollapseHyphenated(AfterRun(s[1..]));
    }
  }

  lemma {:induction false} DropLeadingKeeps(s: string)
    requires Hyphenated(s)
    ensures Hyphenated(DropLeading(s)) && (DropLeading(s) != "" ==> DropLeading(s)[0] != '-')
    decreases |s|
  {
    if s != "" && s[0] == '-' {
      DropLeadingKeeps(s[1..]);
    }
  }

  lemma {:induction false} DropTrailingKeeps(s: string)
    requires Hyphenated(s) && (s != "" ==> s[0] != '-')
    ensures DropTrailing(s) != "" ==> IsKey(DropTrailing(s))
    decreases |s|
  {
    if s != "" && s[|s| - 1] == '-' {
      DropTrailingKeeps(s[..|s| - 1]);
    }
  }

  /** Every value, whatever its characters, gets a well-formed key. */
  lemma SemanticKeyIsKey(value: string, lower: string -> string)
    ensures IsKey(SemanticKey(value, lower))
  {
    var collapsed := Collapse(lower(value));
    CollapseHyphenated(lower(value));
    DropLeadingKeeps(collapsed);
    DropTrailingKeeps(DropLeading(collapsed));
  }

  lemma {:induction false} CollapseFixed(s: string)
    requires Hyphenated(s) && (s != "" ==> s[|s| - 1] != '-')
    ensures Collapse(s) == s
    decreases |s|
  {
    if s == "" {
    } else if IsKeyChar(s[0]) {
      CollapseFixed(s[1..]);
    } else {
      assert IsKeyChar(s[1]);
      assert AfterRun(s[1..]) == s[1..];
      CollapseFixed(s[1..]);
    }
  }

  /** A key is its own key. */
  lemma SemanticKeyIdempotent(value: string, lower: string -> string)
    requires KeepsKeys(lower)
    ensures SemanticKey(SemanticKey(value, lower), lower) == SemanticKey(value, lower)
  {
    SemanticKeyIsKey(value, lower);
    CollapseFixed(SemanticKey(value, lower));
  }

  // ---- exactly which key ----

  /** The leading run of key characters. */
  function Run(s: string): (r: string)
    ensures |r| <= |s| && r == s[..|r|]
    ensures s != "" && IsKeyChar(s[0]) ==> r != ""
    ensures forall i :: 0 <= i < |r| ==> IsKeyChar(r[i])
  {
    if s == "" || !IsKeyChar(s[0]) then "" else [s[0]] + Run(s[1..])
  }

  /** The maximal runs of letters and digits, in order. */
  function Words(s: string): (words: seq<string>)
    ensures forall w :: w in words ==> w != "" && forall i :: 0 <= i < |w| ==> IsKeyChar(w[i])
    decreases |s|
  {
    if s == "" then []
    else if IsKeyChar(s[0]) then [Run(s)] + Words(s[|Run(s)|..])
    else Words(s[1..])
  }

  lemma {:induction false} WordsAfterRun(s: string)
    ensures Words(AfterRun(s)) == Words(s)
    ensures AfterRun(s) != "" ==> s != "" && AfterRun(s)[|AfterRun(s)| - 1] == s[|s| - 1]
    decreases |s|
  {
    if s != "" && !IsKeyChar(s[0]) {
      WordsAfterRun(s[1..]);
    }
  }

  function Lead(s: string): string {
    if s == "" || IsKeyChar(s[0]) then "" else "-"
  }

  function Trail(s: string): string {
    if s == "" || IsKeyChar(s[|s| - 1]) then "" else "-"
  }

  lemma JoinLonger(c: char, word: string, rest: seq<string>)
    ensures Join("-", [[c] + word] + rest) == [c] + Join("-", [word] + rest)
  {
    if rest != [] {
      assert ([[c] + word] + rest)[1..] == rest && ([word] + rest)[1..] == rest;
    }
  }

  lemma JoinFirst(word: string, rest: seq<string>)
    requires rest != []
    ensures Join("-", [word] + rest) == word + "-" + Join("-", rest)
  {
    assert ([word] + rest)[1..] == rest;
  }

  /** The words, single hyphens between them, and one for what is before and after. */
  ghost predicate Collapsed(s: string) {
    Collapse(s) == if Words(s) == [] then Lead(s) else Lead(s) + Join("-", Words(s)) + Trail(s)
  }

  lemma CollapsedGap(s: string)
    requires s != "" && !IsKeyChar(s[0]) && Collapsed(AfterRun(s[1..]))
    ensures Collapsed(s)
  {
    WordsAfterRun(s[1..]);
    hide Words, Join, Run;
    var rest := AfterRun(s[1..]);
    assert Words(s) == Words(rest) by { WordsGap(s); }
    if rest != "" {
      assert Lead(rest) == "" && Trail(rest) == Trail(s);
      assert Words(rest) != [] by { WordsKey(rest); }
    } else {
      assert Words(rest) == [] by { WordsNone(); }
    }
  }

  lemma WordsGap(s: string)
    requires s != "" && !IsKeyChar(s[0])
    ensures Words(s) == Words(s[1..])
  {
  }

  lemma WordsNone()
    ensures Words("") == []
  {
  }

  lemma WordsKey(s: string)
    requires s != "" && IsKeyChar(s[0])
    ensures Words(s) == [Run(s)] + Words(s[|Run(s)|..])
  {
  }

  lemma CollapsedLetter(s: string)
    requires |s| > 1 && IsKeyChar(s[0]) && IsKeyChar(s[1]) && Collapsed(s[1..])
    ensures Collapsed(s)
  {
    var rest := s[1..];
    LetterWords(s);
    WordsKey(rest);
    CollapseLetter(s);
    hide Words, Join, Run, Collapse;
    LetterEnds(s);
    hide Lead, Trail;
    Prefixed(s[0], Join("-", Words(rest)), Trail(rest));
  }

  lemma Prefixed(c: char, words: string, trail: string)
    ensures [c] + ("" + words + trail) == "" + ([c] + words) + trail
  {
  }

  lemma LetterWords(s: string)
    requires |s| > 1 && IsKeyChar(s[0]) && IsKeyChar(s[1])
    ensures Words(s) != [] && Join("-", Words(s)) == [s[0]] + Join("-", Words(s[1..]))
  {
    var rest := s[1..];
    WordsKey(s);
    WordsKey(rest);
    RunLetter(s);
    assert s[|Run(s)|..] == rest[|Run(rest)|..];
    hide Words, Join, Run;
    JoinLonger(s[0], Run(rest), Words(rest[|Run(rest)|..]));
  }

  lemma CollapseLetter(s: string)
    requires s != "" && IsKeyChar(s[0])
    ensures Collapse(s) == [s[0]] + Collapse(s[1..])
  {
  }

  lemma LetterEnds(s: string)
    requires |s| > 1 && IsKeyChar(s[0])
    ensures Lead(s) == "" && Trail(s) == Trail(s[1..]) && Lead(s[1..]) == if IsKeyChar(s[1]) then "" else "-"
  {
  }

  lemma RunLetter(s: string)
    requires s != "" && IsKeyChar(s[0])
    ensures Run(s) == [s[0]] + Run(s[1..])
  {
  }

  lemma CollapsedWordEnd(s: string)
    requires |s| > 1 && IsKeyChar(s[0]) && !IsKeyChar(s[1]) && Collapsed(s[1..])
    ensures Collapsed(s)
  {
    var rest := s[1..];
    EndWords(s);
    CollapseLetter(s);
    LetterEnds(s);
    if Words(rest) == [] {
      OnlyGaps(rest);
      hide Words, Collapse;
      assert Join("-", [[s[0]]]) == [s[0]];
    } else {
      JoinFirst([s[0]], Words(rest));
      hide Words, Join, Collapse, Lead, Trail;
      Separated(s[0], Join("-", Words(rest)), Trail(rest));
    }
  }

  lemma EndWords(s: string)
    requires |s| > 1 && IsKeyChar(s[0]) && !IsKeyChar(s[1])
    ensures Words(s) == [[s[0]]] + Words(s[1..])
  {
    WordsKey(s);
    RunLetter(s);
    assert Run(s[1..]) == "" && Run(s) == [s[0]];
  }

  lemma Separated(c: char, words: string, trail: string)
    ensures [c] + ("-" + words + trail) == "" + ([c] + "-" + words) + trail
  {
  }

  lemma {:induction false} OnlyGaps(s: string)
    requires s != "" && Words(s) == []
    ensures Trail(s) == "-"
    decreases |s|
  {
    if !IsKeyChar(s[0]) && |s| > 1 {
      OnlyGaps(s[1..]);
    }
  }

  lemma {:induction false} CollapseWords(s: string)
    ensures Collapsed(s)
    decreases |s|
  {
    hide Collapsed;
    if s == "" {
      CollapsedNone();
    } else if !IsKeyChar(s[0]) {
      CollapseWords(AfterRun(s[1..]));
      CollapsedGap(s);
    } else {
      CollapseWords(s[1..]);
      if |s| == 1 {
        CollapsedOne(s);
      } else if IsKeyChar(s[1]) {
        CollapsedLetter(s);
      } else {
        CollapsedWordEnd(s);
      }
    }
  }

  lemma CollapsedNone()
    ensures Collapsed("")
  {
  }

  lemma CollapsedOne(s: string)
    requires |s| == 1 && IsKeyChar(s[0])
    ensures Collapsed(s)
  {
    assert Run(s) == s && Words(s) == [s];
    assert Collapse(s) == s + Collapse("");
  }

  lemma {:induction false} JoinEnds(words: seq<string>)
    requires words != [] && forall w :: w in words ==> w != "" && forall i :: 0 <= i < |w| ==> IsKeyChar(w[i])
    ensures var j := Join("-", words); j != "" && IsKeyChar(j[0]) && IsKeyChar(j[|j| - 1])
    decreases |words|
  {
    assert words[0] in words;
    if |words| > 1 {
      JoinEnds(words[1..]);
    }
  }

  lemma DropBoth(lead: string, j: string, trail: string)
    requires lead in ["", "-"] && trail in ["", "-"] && j != "" && IsKeyChar(j[0]) && IsKeyChar(j[|j| - 1])
    ensures DropTrailing(DropLeading(lead + j + trail)) == j
  {
    assert lead + j + trail == lead + (j + trail) && (j + trail)[0] == j[0];
    DropLead(lead, j + trail);
    DropTrail(j, trail);
  }

  lemma DropLead(lead: string, x: string)
    requires lead in ["", "-"] && x != "" && x[0] != '-'
    ensures DropLeading(lead + x) == x
  {
    if lead == "-" {
      assert (lead + x)[1..] == x;
    } else {
      assert lead + x == x;
    }
  }

  lemma DropTrail(x: string, trail: string)
    requires trail in ["", "-"] && x != "" && x[|x| - 1] != '-'
    ensures DropTrailing(x + trail) == x
  {
    if trail == "-" {
      assert (x + trail)[..|x + trail| - 1] == x;
    } else {
      assert x + trail == x;
    }
  }

  /** The key is the words of the lower-cased value joined by hyphens, or `item` if it has none. */
  lemma SemanticKeyExactly(value: string, lower: string -> string)
    ensures SemanticKey(value, lower)
         == if Words(lower(value)) == [] then "item" else Join("-", Words(lower(value)))
  {
    var s := lower(value);
    CollapseWords(s);
    if Words(s) == [] {
      assert DropLeading("-") == "";
    } else {
      JoinEnds(Words(s));
      DropBoth(Lead(s), Join("-", Words(s)), Trail(s));
    }
  }

  // ---- chunk ids ----

  function ChunkId(qualifiedName: string, chunkType: ChunkType, key: string): string {
    qualifiedName + "::" + chunkType.Value() + "::" + key
  }

  predicate NoColon(s: string) {
    forall i :: 0 <= i < |s| ==> s[i] != ':'
  }

  lemma TypeValues(t: ChunkType, u: ChunkType)
    ensures NoColon(t.Value())
    ensures t.Value() == u.Value() ==> t == u
  {
    assert t.Value()[0] == u.Value()[0] ==> t == u;
  }

  /** The last field of a colon-separated string can be read back. */
  lemma LastField(a: string, x: string, b: string, y: string)
    requires NoColon(x) && NoColon(y) && a + "::" + x == b + "::" + y
    ensures a == b && x == y
  {
    var s, t := a + "::" + x, b + "::" + y;
    assert s[|s| - |x| - 1] == ':' && t[|t| - |y| - 1] == ':';
    assert forall m :: |s| - |x| <= m < |s| ==> s[m] != ':';
    assert forall m :: |t| - |y| <= m < |t| ==> t[m] != ':';
    assert |x| == |y|;
    assert x == s[|s| - |x|..] && y == t[|t| - |y|..];
    assert a == s[..|a|] && b == t[..|b|];
  }

  /** A chunk id decodes from the right, whatever colons the qualified name contains. */
  lemma ChunkIdDecodes(q1: string, t1: ChunkType, k1: string, q2: string, t2: ChunkType, k2: string)
    requires NoColon(k1) && NoColon(k2)
    requires ChunkId(q1, t1, k1) == ChunkId(q2, t2, k2)
    ensures q1 == q2 && t1 == t2 && k1 == k2
  {
    TypeValues(t1, t2);
    TypeValues(t2, t1);
    LastField(q1 + "::" + t1.Value(), k1, q2 + "::" + t2.Value(), k2);
    LastField(q1, t1.Value(), q2, t2.Value());
  }
}
