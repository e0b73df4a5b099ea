/** The two parsers of Git's NUL-delimited output, against the encodings they read. */
module GitParsers {
  import opened Wrappers
  import opened Sorting

  const NUL: char := '\0'

  // ---- tokens ----

  predicate NulFree(s: string) {
    forall i :: 0 <= i < |s| ==> s[i] != NUL
  }

  /** `payload.rstrip("\0")`. */
  function RStripNul(s: string): string {
    if s != "" && s[|s| - 1] == NUL then RStripNul(s[..|s| - 1]) else s
  }

  /** `text.split("\0")`: always at least one token. */
  function SplitNul(s: string): (tokens: seq<string>)
    ensures tokens != []
  {
    if s == "" then [""]
    else
      var rest := SplitNul(s[1..]);
      if s[0] == NUL then [""] + rest else [[s[0]] + rest[0]] + rest[1..]
  }

  function JoinNul(tokens: seq<string>): string {
    if tokens == [] then ""
    else if |tokens| == 1 then tokens[0]
    else tokens[0] + [NUL] + JoinNul(tokens[1..])
  }

  function Tokens(payload: string): seq<string> {
    if payload == "" then [] else SplitNul(RStripNul(payload))
  }

  /** Every token followed by a NUL: the form Git writes. */
  function Terminated(tokens: seq<string>): string {
    if tokens == [] then "" else tokens[0] + [NUL] + Terminated(tokens[1..])
  }

  lemma {:induction false} JoinOfSplit(s: string)
    ensures JoinNul(SplitNul(s)) == s
    decreases |s|
  {
    if s != "" {
      JoinOfSplit(s[1..]);
      var rest := SplitNul(s[1..]);
      if s[0] != NUL {
        var tokens := SplitNul(s);
        assert tokens[1..] == rest[1..];
        assert |rest| > 1 ==> JoinNul(tokens) == [s[0]] + (rest[0] + [NUL] + JoinNul(rest[1..]));
      }
    }
  }

  lemma {:induction false} SplitWithin(token: string, tail: string)
    requires NulFree(token)
    ensures SplitNul(token + [NUL] + tail) == [token] + SplitNul(tail)
    decreases |token|
  {
    var whole := token + [NUL] + tail;
    if token == "" {
      assert whole[1..] == tail;
    } else {
      assert whole[1..] == token[1..] + [NUL] + tail;
      SplitWithin(token[1..], tail);
      assert token == [token[0]] + token[1..];
    }
  }

  lemma {:induction false} SplitSingle(token: string)
    requires NulFree(token)
    ensures SplitNul(token) == [token]
    decreases |token|
  {
    if token != "" {
      SplitSingle(token[1..]);
      assert token == [token[0]] + token[1..];
    }
  }

  lemma {:induction false} SplitOfJoin(tokens: seq<string>)
    requires tokens != [] && forall i :: 0 <= i < |tokens| ==> NulFree(tokens[i])
    ensures SplitNul(JoinNul(tokens)) == tokens
    decreases |tokens|
  {
    if |tokens| == 1 {
      SplitSingle(tokens[0]);
    } else {
      SplitOfJoin(tokens[1..]);
      SplitWithin(tokens[0], JoinNul(tokens[1..]));
    }
  }

  lemma {:induction false} TerminatedIsJoin(tokens: seq<string>)
    requires tokens != []
    ensures Terminated(tokens) == JoinNul(tokens) + [NUL]
    decreases |tokens|
  {
    if |tokens| > 1 {
      TerminatedIsJoin(tokens[1..]);
    }
  }

  lemma {:induction false} JoinEnds(tokens: seq<string>)
    requires tokens != [] && tokens[|tokens| - 1] != ""
    ensures JoinNul(tokens) != ""
    ensures JoinNul(tokens)[|JoinNul(tokens)| - 1] == tokens[|tokens| - 1][|tokens[|tokens| - 1]| - 1]
    decreases |tokens|
  {
    if |tokens| > 1 {
      JoinEnds(tokens[1..]);
    }
  }

  /** What Git writes is read back token by token. */
  lemma TokensOfTerminated(tokens: seq<string>)
    requires forall i :: 0 <= i < |tokens| ==> tokens[i] != "" && NulFree(tokens[i])
    ensures Tokens(Terminated(tokens)) == tokens
  {
    if tokens != [] {
      TerminatedIsJoin(tokens);
      JoinEnds(tokens);
      var joined := JoinNul(tokens);
      assert (joined + [NUL])[..|joined|] == joined;
      assert RStripNul(joined) == joined;
      SplitOfJoin(tokens);
    }
  }

  // ---- name-status entries ----

  datatype GitError = IncompleteRename | MissingPath | InvalidStatus

  datatype ChangedPath = ChangedPath(status: string, path: string, previousPath: string)

  predicate IsRename(status: string) {
    status != "" && (status[0] == 'R' || status[0] == 'C')
  }

  /** Only renames and copies carry a previous path. */
  predicate Shaped(e: ChangedPath) {
    !IsRename(e.status) ==> e.previousPath == ""
  }

  function EntryTokens(e: ChangedPath): seq<string> {
    if IsRename(e.status) then [e.status, e.previousPath, e.path] else [e.status, e.path]
  }

  function AllTokens(entries: seq<ChangedPath>): seq<string> {
    if entries == [] then [] else EntryTokens(entries[0]) + AllTokens(entries[1..])
  }

  function After(e: ChangedPath, rest: Result<seq<ChangedPath>, GitError>): Result<seq<ChangedPath>, GitError> {
    match rest
    case Ok(entries) => Ok([e] + entries)
    case Err(error) => Err(error)
  }

  function ParseEntries(tokens: seq<string>): Result<seq<ChangedPath>, GitError>
    decreases |tokens|
  {
    if tokens == [] then Ok([])
    else if IsRename(tokens[0]) then
      if |tokens| < 3 then Err(IncompleteRename)
      else After(ChangedPath(tokens[0], tokens[2], tokens[1]), ParseEntries(tokens[3..]))
    else if |tokens| < 2 then Err(MissingPath)
    else After(ChangedPath(tokens[0], tokens[1], ""), ParseEntries(tokens[2..]))
  }

  function Prepended(entries: seq<ChangedPath>, rest: Result<seq<ChangedPath>, GitError>): Result<seq<ChangedPath>, GitError> {
    match rest
    case Ok(more) => Ok(entries + more)
    case Err(error) => Err(error)
  }

  lemma PrependedNothing(rest: Result<seq<ChangedPath>, GitError>)
    ensures Prepended([], rest) == rest
  {
    if rest.Ok? { assert [] + rest.value == rest.value; }
  }

  lemma PrependedOne(entries: seq<ChangedPath>, e: ChangedPath, rest: Result<seq<ChangedPath>, GitError>)
    ensures Prepended(entries, After(e, rest)) == Prepended(entries + [e], rest)
  {
    if rest.Ok? { assert entries + ([e] + rest.value) == entries + [e] + rest.value; }
  }

  /** One pass over the tokens; the tokens left are the termination measure. */
  method ParseNameStatusZ(payload: string) returns (r: Result<seq<ChangedPath>, GitError>)
    ensures r == ParseEntries(Tokens(payload))
  {
    var tokens := Tokens(payload);
    var changes: seq<ChangedPath> := [];
    var index := 0;
    assert tokens[0..] == tokens;
    PrependedNothing(ParseEntries(tokens));
    while index < |tokens|
      invariant 0 <= index <= |tokens|
      invariant ParseEntries(tokens) == Prepended(changes, ParseEntries(tokens[index..]))
      decreases |tokens| - index
    {
      var left := tokens[index..];
      var status := tokens[index];
      index := index + 1;
      if IsRename(status) {
        if index + 1 >= |tokens| {
          return Err(IncompleteRename);
        }
        assert left[3..] == tokens[index + 2..];
        PrependedOne(changes, ChangedPath(status, tokens[index + 1], tokens[index]), ParseEntries(tokens[index + 2..]));
        changes := changes + [ChangedPath(status, tokens[index + 1], tokens[index])];
        index := index + 2;
        continue;
      }
      if index >= |tokens| {
        return Err(MissingPath);
      }
      assert left[2..] == tokens[index + 1..];
      PrependedOne(changes, ChangedPath(status, tokens[index], ""), ParseEntries(tokens[index + 1..]));
      changes := changes + [ChangedPath(status, tokens[index], "")];
      index := index + 1;
    }
    assert tokens[index..] == [];
    assert changes + [] == changes;
    return Ok(changes);
  }

  lemma {:induction false} ParseOfTokens(entries: seq<ChangedPath>)
    requires forall i :: 0 <= i < |entries| ==> Shaped(entries[i])
    ensures ParseEntries(AllTokens(entries)) == Ok(entries)
    decreases |entries|
  {
    if entries == [] {
    } else {
      var e, rest := entries[0], entries[1..];
      ParseOfTokens(rest);
      var tokens := AllTokens(entries);
      assert tokens[|EntryTokens(e)|..] == AllTokens(rest);
      assert entries == [e] + rest;
    }
  }

  /** A successful parse consumed every token, in order. */
  lemma {:induction false} TokensOfParse(tokens: seq<string>)
    requires ParseEntries(tokens).Ok?
    ensures AllTokens(ParseEntries(tokens).value) == tokens
    ensures forall i :: 0 <= i < |ParseEntries(tokens).value| ==> Shaped(ParseEntries(tokens).value[i])
    decreases |tokens|
  {
    if tokens == [] {
    } else {
      var n := if IsRename(tokens[0]) then 3 else 2;
      TokensOfParse(tokens[n..]);
      var entries := ParseEntries(tokens).value;
      assert entries[1..] == ParseEntries(tokens[n..]).value;
      assert tokens == EntryTokens(entries[0]) + tokens[n..];
    }
  }

  /** An entry Git can print: no field is empty or contains a NUL. */
  predicate Printable(e: ChangedPath) {
    && Shaped(e) && e.status != "" && NulFree(e.status) && e.path != "" && NulFree(e.path)
    && (IsRename(e.status) ==> e.previousPath != "" && NulFree(e.previousPath))
  }

  function Encode(entries: seq<ChangedPath>): string {
    Terminated(AllTokens(entries))
  }

  lemma {:induction false} PrintableTokens(entries: seq<ChangedPath>)
    requires forall i :: 0 <= i < |entries| ==> Printable(entries[i])
    ensures forall i :: 0 <= i < |AllTokens(entries)| ==> AllTokens(entries)[i] != "" && NulFree(AllTokens(entries)[i])
    decreases |entries|
  {
    if entries != [] {
      PrintableTokens(entries[1..]);
    }
  }

  /** Parsing inverts Git's encoding. */
  lemma ParseInvertsEncode(entries: seq<ChangedPath>)
    requires forall i :: 0 <= i < |entries| ==> Printable(entries[i])
    ensures ParseEntries(Tokens(Encode(entries))) == Ok(entries)
  {
    PrintableTokens(entries);
    TokensOfTerminated(AllTokens(entries));
    ParseOfTokens(entries);
  }

  /** A payload that parses is, up to its trailing NULs, the encoding of the entries returned. */
  lemma EncodeInvertsParse(payload: string)
    requires payload != "" && ParseEntries(Tokens(payload)).Ok?
    ensures JoinNul(AllTokens(ParseEntries(Tokens(payload)).value)) == RStripNul(payload)
    ensures Encode(ParseEntries(Tokens(payload)).value) == RStripNul(payload) + [NUL]
  {
    var tokens := Tokens(payload);
    TokensOfParse(tokens);
    JoinOfSplit(RStripNul(payload));
    TerminatedIsJoin(tokens);
  }

  /** The parser succeeds exactly on token lists that are whole entries end to end. */
  lemma ParsesExactly(tokens: seq<string>)
    ensures ParseEntries(tokens).Ok? <==>
              exists entries :: (forall i :: 0 <= i < |entries| ==> Shaped(entries[i])) && AllTokens(entries) == tokens
  {
    if ParseEntries(tokens).Ok? {
      TokensOfParse(tokens);
    }
    if entries :| (forall i :: 0 <= i < |entries| ==> Shaped(entries[i])) && AllTokens(entries) == tokens {
      ParseOfTokens(entries);
    }
  }

  /** Cutting the last entry short always gives an error. */
  lemma {:induction false} TruncationErrors(entries: seq<ChangedPath>, last: ChangedPath, kept: nat)
    requires 0 < kept < |EntryTokens(last)|
    ensures ParseEntries(AllTokens(entries) + EntryTokens(last)[..kept]).Err?
    decreases |entries|
  {
    var tokens := AllTokens(entries) + EntryTokens(last)[..kept];
    if entries == [] {
      assert tokens == EntryTokens(last)[..kept];
      assert tokens[0] == last.status;
    } else {
      TruncationErrors(entries[1..], last, kept);
      var n := |EntryTokens(entries[0])|;
      assert tokens[n..] == AllTokens(entries[1..]) + EntryTokens(last)[..kept];
      assert tokens[0] == entries[0].status;
    }
  }

  // ---- porcelain status entries ----

  datatype StatusEntry = StatusEntry(status: string, path: string, original: Option<string>)

  predicate MarksRename(status: string) {
    'R' in status || 'C' in status
  }

  /** Two status letters, a path, and an original path exactly for renames and copies. */
  predicate WellShaped(e: StatusEntry) {
    |e.status| == 2 && e.path != "" && (e.original.Some? <==> MarksRename(e.status))
  }

  function StatusTokens(e: StatusEntry): seq<string> {
    [e.status + " " + e.path] + if e.original.Some? then [e.original.value] else []
  }

  function AllStatusTokens(entries: seq<StatusEntry>): seq<string> {
    if entries == [] then [] else StatusTokens(entries[0]) + AllStatusTokens(entries[1..])
  }

  function PathsOf(e: StatusEntry): seq<string> {
    [e.path] + if e.original.Some? then [e.original.value] else []
  }

  function AllPaths(entries: seq<StatusEntry>): seq<string> {
    if entries == [] then [] else PathsOf(entries[0]) + AllPaths(entries[1..])
  }

  function PathsAfter(paths: seq<string>, rest: Result<seq<string>, GitError>): Result<seq<string>, GitError> {
    match rest
    case Ok(more) => Ok(paths + more)
    case Err(error) => Err(error)
  }

  /** The paths in token order. */
  function ParsePaths(tokens: seq<string>): Result<seq<string>, GitError>
    decreases |tokens|
  {
    if tokens == [] then Ok([])
    else if |tokens[0]| < 4 || tokens[0][2] != ' ' then Err(InvalidStatus)
    else if MarksRename(tokens[0][..2]) then
      if |tokens| < 2 then Err(IncompleteRename)
      else PathsAfter([tokens[0][3..], tokens[1]], ParsePaths(tokens[2..]))
    else PathsAfter([tokens[0][3..]], ParsePaths(tokens[1..]))
  }

  lemma PathsAfterNothing(rest: Result<seq<string>, GitError>)
    ensures PathsAfter([], rest) == rest
  {
    if rest.Ok? { assert [] + rest.value == rest.value; }
  }

  lemma PathsAfterMore(paths: seq<string>, next: seq<string>, rest: Result<seq<string>, GitError>)
    ensures PathsAfter(paths, PathsAfter(next, rest)) == PathsAfter(paths + next, rest)
  {
    if rest.Ok? { assert paths + (next + rest.value) == paths + next + rest.value; }
  }

  function SortedPaths(r: Result<seq<string>, GitError>): Result<seq<string>, GitError> {
    match r
    case Ok(paths) => Ok(SortedSet(Elements(paths)))
    case Err(error) => Err(error)
  }

  method ParsePorcelainZ(payload: string) returns (r: Result<seq<string>, GitError>)
    ensures r == SortedPaths(ParsePaths(Tokens(payload)))
  {
    var tokens := Tokens(payload);
    var paths: seq<string> := [];
    var index := 0;
    assert tokens[0..] == tokens;
    PathsAfterNothing(ParsePaths(tokens));
    while index < |tokens|
      invariant 0 <= index <= |tokens|
      invariant ParsePaths(tokens) == PathsAfter(paths, ParsePaths(tokens[index..]))
      decreases |tokens| - index
    {
      var left := tokens[index..];
      var entry := tokens[index];
      if |entry| < 4 || entry[2] != ' ' {
        return Err(InvalidStatus);
      }
      var status := entry[..2];
      ghost var before := paths;
      paths := paths + [entry[3..]];
      index := index + 1;
      if MarksRename(status) {
        if index >= |tokens| {
          return Err(IncompleteRename);
        }
        assert left[2..] == tokens[index + 1..];
        PathsAfterMore(before, [entry[3..], tokens[index]], ParsePaths(tokens[index + 1..]));
        assert before + [entry[3..], tokens[index]] == paths + [tokens[index]];
        paths := paths + [tokens[index]];
        index := index + 1;
      } else {
        assert left[1..] == tokens[index..];
        PathsAfterMore(before, [entry[3..]], ParsePaths(tokens[index..]));
      }
    }
    assert tokens[index..] == [];
    assert paths + [] == paths;
    return Ok(SortedSet(Elements(paths)));
  }

  lemma StatusToken(e: StatusEntry)
    requires WellShaped(e)
    ensures var token := e.status + " " + e.path;
            |token| >= 4 && token[2] == ' ' && token[..2] == e.status && token[3..] == e.path
  {
  }

  lemma {:induction false} ParseOfStatusTokens(entries: seq<StatusEntry>)
    requires forall i :: 0 <= i < |entries| ==> WellShaped(entries[i])
    ensures ParsePaths(AllStatusTokens(entries)) == Ok(AllPaths(entries))
    decreases |entries|
  {
    if entries == [] {
    } else {
      var e := entries[0];
      StatusToken(e);
      ParseOfStatusTokens(entries[1..]);
      var tokens := AllStatusTokens(entries);
      assert tokens[0] == e.status + " " + e.path;
      assert tokens[|StatusTokens(e)|..] == AllStatusTokens(entries[1..]);
      if e.original.Some? {
        assert tokens[1] == e.original.value;
        assert PathsOf(e) == [e.path, e.original.value];
      } else {
        assert PathsOf(e) == [e.path];
      }
    }
  }

  /** The entries of a token list that parses. */
  lemma {:induction false} StatusTokensOfParse(tokens: seq<string>) returns (entries: seq<StatusEntry>)
    requires ParsePaths(tokens).Ok?
    ensures AllStatusTokens(entries) == tokens && AllPaths(entries) == ParsePaths(tokens).value
    ensures forall i :: 0 <= i < |entries| ==> WellShaped(entries[i])
    decreases |tokens|
  {
    if tokens == [] {
      entries := [];
    } else {
      var status, path := tokens[0][..2], tokens[0][3..];
      assert tokens[0] == status + " " + path;
      if MarksRename(status) {
        var rest := StatusTokensOfParse(tokens[2..]);
        var e := StatusEntry(status, path, Some(tokens[1]));
        entries := [e] + rest;
        assert entries[1..] == rest;
        assert StatusTokens(e) == [tokens[0], tokens[1]] && PathsOf(e) == [path, tokens[1]];
        assert tokens == [tokens[0], tokens[1]] + tokens[2..];
      } else {
        var rest := StatusTokensOfParse(tokens[1..]);
        var e := StatusEntry(status, path, None);
        entries := [e] + rest;
        assert entries[1..] == rest;
        assert StatusTokens(e) == [tokens[0]] && PathsOf(e) == [path];
        assert tokens == [tokens[0]] + tokens[1..];
      }
    }
  }

  /** The parser succeeds exactly on token lists that are whole status entries end to end. */
  lemma PorcelainParsesExactly(tokens: seq<string>)
    ensures ParsePaths(tokens).Ok? <==>
              exists entries :: (forall i :: 0 <= i < |entries| ==> WellShaped(entries[i])) && AllStatusTokens(entries) == tokens
  {
    if ParsePaths(tokens).Ok? {
      var entries := StatusTokensOfParse(tokens);
    }
    if entries :| (forall i :: 0 <= i < |entries| ==> WellShaped(entries[i])) && AllStatusTokens(entries) == tokens {
      ParseOfStatusTokens(entries);
    }
  }

  predicate StatusPrintable(e: StatusEntry) {
    && WellShaped(e) && NulFree(e.status) && NulFree(e.path)
    && (e.original.Some? ==> e.original.value != "" && NulFree(e.original.value))
  }

  lemma {:induction false} PrintableStatusTokens(entries: seq<StatusEntry>)
    requires forall i :: 0 <= i < |entries| ==> StatusPrintable(entries[i])
    ensures forall i :: 0 <= i < |AllStatusTokens(entries)| ==>
              AllStatusTokens(entries)[i] != "" && NulFree(AllStatusTokens(entries)[i])
    decreases |entries|
  {
    if entries != [] {
      PrintableStatusTokens(entries[1..]);
    }
  }

  /** Parsing Git's porcelain output returns the sorted set of all new and old paths. */
  lemma PorcelainRoundTrip(entries: seq<StatusEntry>)
    requires forall i :: 0 <= i < |entries| ==> StatusPrintable(entries[i])
    ensures SortedPaths(ParsePaths(Tokens(Terminated(AllStatusTokens(entries))))) == Ok(SortedSet(Elements(AllPaths(entries))))
  {
    PrintableStatusTokens(entries);
    TokensOfTerminated(AllStatusTokens(entries));
    ParseOfStatusTokens(entries);
  }

  /** A final rename without its original path, and a token that is no status line, are errors. */
  lemma {:induction false} PorcelainTruncationErrors(entries: seq<StatusEntry>, last: StatusEntry)
    requires forall i :: 0 <= i < |entries| ==> WellShaped(entries[i])
    requires WellShaped(last) && last.original.Some?
    ensures ParsePaths(AllStatusTokens(entries) + [last.status + " " + last.path]) == Err(IncompleteRename)
    decreases |entries|
  {
    StatusToken(last);
    var tokens := AllStatusTokens(entries) + [last.status + " " + last.path];
    if entries == [] {
      assert tokens == [last.status + " " + last.path];
    } else {
      var e := entries[0];
      StatusToken(e);
      PorcelainTruncationErrors(entries[1..], last);
      assert tokens[0] == e.status + " " + e.path;
      assert tokens[|StatusTokens(e)|..] == AllStatusTokens(entries[1..]) + [last.status + " " + last.path];
    }
  }
}
