/** What stands under which heading of a rendered document. */
module MarkdownFacts {
  import opened Wrappers
  import opened Sorting
  import opened Text
  import opened Models
  import opened Markdown

  /** The body before its end is stripped. */
  function Draft(d: PublishedDocument, lower: string -> string): string {
    Join("\n", BodyParts(d, lower))
  }

  lemma RenderedFromDraft(d: PublishedDocument, format: Format)
    ensures Rendered(d, format) == Header(d, format) + RStrip(Draft(d, format.lower)) + "\n"
  {
    hide BodyParts, RStrip, Header, Rendered;
    RenderedSplits(d, format);
    assert Header(d, format) + Body(d, format.lower) == Header(d, format) + RStrip(Draft(d, format.lower)) + "\n";
  }

  // ---- sections of a text ----

  /** Between this heading and the next one stands exactly `body`. */
  ghost predicate Under(text: string, heading: string, body: string, next: string) {
    Contains(text, "## " + heading + "\n\n" + body + "\n\n## " + next)
  }

  lemma {:induction false} ConcatSplit<T(!new)>(items: seq<T>, lines: T -> seq<string>, n: nat)
    requires n <= |items|
    ensures Concat(items, lines) == Concat(items[..n], lines) + Concat(items[n..], lines)
    decreases |items|
  {
    if n == |items| {
      assert items[..n] == items && items[n..] == [];
    } else {
      var init, last := items[..|items| - 1], items[|items| - 1];
      ConcatSplit(init, lines, n);
      assert init[..n] == items[..n];
      assert items[n..][..|items[n..]| - 1] == init[n..];
      assert items[n..][|items[n..]| - 1] == last;
    }
  }

  lemma ConcatFirst<T(!new)>(items: seq<T>, lines: T -> seq<string>)
    requires items != []
    ensures Concat(items, lines) == lines(items[0]) + Concat(items[1..], lines)
  {
    ConcatSplit(items, lines, 1);
    assert items[..1][..0] == [];
    assert Concat(items[..1], lines) == lines(items[0]);
  }

  /** The lines of two neighbours stand next to each other. */
  lemma Neighbours<T(!new)>(items: seq<T>, lines: T -> seq<string>, k: nat) returns (front: seq<string>, back: seq<string>)
    requires k + 1 < |items|
    ensures Concat(items, lines) == front + lines(items[k]) + lines(items[k + 1]) + back
  {
    ConcatSplit(items, lines, k);
    ConcatFirst(items[k..], lines);
    ConcatFirst(items[k..][1..], lines);
    front, back := Concat(items[..k], lines), Concat(items[k..][1..][1..], lines);
  }

  /** A join contains the join of any lines that follow one another. */
  lemma JoinInfix(front: seq<string>, middle: seq<string>, back: seq<string>)
    requires middle != []
    ensures Contains(Join("\n", front + middle + back), Join("\n", middle))
  {
    var part := Join("\n", middle);
    ContainsSelf(part);
    if back != [] {
      JoinConcat("\n", middle, back);
      ContainsLeft(part, "\n" + Join("\n", back), part);
      assert Join("\n", middle + back) == part + ("\n" + Join("\n", back));
    } else {
      assert middle + back == middle;
    }
    if front != [] {
      JoinConcat("\n", front, middle + back);
      ContainsRight(Join("\n", front) + "\n", Join("\n", middle + back), part);
      assert front + middle + back == front + (middle + back);
    } else {
      assert front + middle + back == middle + back;
    }
  }

  lemma ContainsSelf(s: string)
    ensures Contains(s, s)
  {
    assert OccursAt(s, s, 0);
  }

  lemma ContainsThrough(whole: string, part: string, inner: string)
    requires Contains(whole, part) && Contains(part, inner)
    ensures Contains(whole, inner)
  {
    var i :| 0 <= i <= |whole| && OccursAt(whole, part, i);
    var j :| 0 <= j <= |part| && OccursAt(part, inner, j);
    forall k | 0 <= k < |inner| ensures whole[i + j + k] == inner[k] {
      assert whole[i..i + |part|][j + k] == part[j + k] && part[j..j + |inner|][k] == inner[k];
    }
    assert whole[i + j..i + j + |inner|] == inner;
    assert OccursAt(whole, inner, i + j);
  }

  /** The lines of a section, joined with the heading after it. */
  lemma SectionJoins(heading: string, lines: seq<string>, following: seq<string>)
    requires lines != [] && following != []
    ensures Join("\n", ["## " + heading, ""] + lines + [""] + following)
         == "## " + heading + "\n\n" + Join("\n", lines) + "\n\n" + Join("\n", following)
  {
    var top := ["## " + heading, ""];
    JoinConcat("\n", top, lines + [""] + following);
    JoinConcat("\n", lines, [""] + following);
    JoinConcat("\n", [""], following);
    assert lines + [""] + following == lines + ([""] + following);
    assert top + (lines + [""] + following) == top + lines + [""] + following;
    assert Join("\n", top) == "## " + heading + "\n";
  }

  lemma StartsWithHeading(next: string, following: seq<string>)
    requires following != [] && following[0] == "## " + next
    ensures exists rest :: Join("\n", following) == "## " + next + rest
  {
    JoinStarts("\n", following);
    var all := Join("\n", following);
    assert all == ("## " + next) + all[|"## " + next|..];
  }

  /** A section stands in the text between its own heading and the next one. */
  lemma SectionUnder(front: seq<string>, heading: string, lines: seq<string>, next: string, following: seq<string>, back: seq<string>)
    requires lines != [] && following != [] && following[0] == "## " + next
    ensures Under(Join("\n", front + (["## " + heading, ""] + lines + [""]) + following + back), heading, Join("\n", lines), next)
  {
    hide Contains;
    var own := ["## " + heading, ""] + lines + [""];
    var both := own + following;
    JoinInfix(front, both, back);
    assert front + both + back == front + own + following + back;
    SectionJoins(heading, lines, following);
    StartsWithHeading(next, following);
    var rest :| Join("\n", following) == "## " + next + rest;
    var wanted := "## " + heading + "\n\n" + Join("\n", lines) + "\n\n## " + next;
    assert Join("\n", both) == wanted + rest;
    ContainsSelf(wanted);
    ContainsLeft(wanted, rest, wanted);
    ContainsThrough(Join("\n", front + both + back), Join("\n", both), wanted);
  }

  // ---- lists ----

  function Dashed(values: seq<string>): (r: seq<string>)
    ensures |r| == |values| && forall i :: 0 <= i < |r| ==> r[i] == "- " + values[i]
  {
    seq(|values|, i requires 0 <= i < |values| => "- " + values[i])
  }

  /** One line for each value, or the message if there is none. */
  function ListText(values: seq<string>, message: string): string {
    if values == [] then message else Join("\n", Dashed(values))
  }

  lemma BulletsDashed(values: seq<string>)
    ensures Bullets(values) == Dashed(values)
  {
  }

  /** The section at place `k` of the body stands between its heading and the next. */
  lemma BodySection(d: PublishedDocument, lower: string -> string, k: nat, lines: seq<string>)
    requires k + 1 < |SECTIONS| && lines != []
    requires PartsOf(SECTIONS[k], d, lower) == ["## " + HeadingOf(SECTIONS[k]), ""] + lines + [""]
    ensures Under(Draft(d, lower), HeadingOf(SECTIONS[k]), Join("\n", lines), HeadingOf(SECTIONS[k + 1]))
  {
    hide PartsOf, Under, Join, HeadingOf;
    Heads(SECTIONS[k + 1], d, lower);
    var front, back := Neighbours(SECTIONS, BodyLines(d, lower), k);
    SectionUnder(front, HeadingOf(SECTIONS[k]), lines, HeadingOf(SECTIONS[k + 1]), PartsOf(SECTIONS[k + 1], d, lower), back);
  }

  function HeadingOf(section: Section): string {
    match section
    case SummarySection => "Summary"
    case GrainSection => "Grain and purpose"
    case AppropriateSection => "Appropriate use"
    case InappropriateSection => "Inappropriate use"
    case ColumnSection => "Columns"
    case RelationshipSection => "Relationships and join risks"
    case RuleSection => "Business rules"
    case UnitSection => "Time and unit semantics"
    case QualitySection => "Data quality and caveats"
    case SecuritySection => "Security"
    case EvidenceSection => "Evidence"
  }

  /** A section starts with its heading. */
  lemma Heads(section: Section, d: PublishedDocument, lower: string -> string)
    ensures PartsOf(section, d, lower) != [] && PartsOf(section, d, lower)[0] == "## " + HeadingOf(section)
  {
    hide UnitLines, EvidenceLines, Bullets, AllEvidence, ColumnsParts, RelationshipsParts, RulesParts, SectionParts;
    match section
    case ColumnSection => ColumnsHead(d.columns);
    case RelationshipSection => RelationshipsHead(d.relationships);
    case RuleSection => RulesHead(d.businessRules);
    case _ => HeadOfSection(section, d, lower);
  }

  lemma HeadOfSection(section: Section, d: PublishedDocument, lower: string -> string)
    requires !section.ColumnSection? && !section.RelationshipSection? && !section.RuleSection?
    ensures PartsOf(section, d, lower) != [] && PartsOf(section, d, lower)[0] == "## " + HeadingOf(section)
  {
    hide UnitLines, EvidenceLines, Bullets, AllEvidence, SectionParts;
    forall heading, lines, message { SectionHead(heading, lines, message); }
  }

  lemma SectionHead(heading: string, lines: seq<string>, message: string)
    ensures SectionParts(heading, lines, message) != [] && SectionParts(heading, lines, message)[0] == "## " + heading
  {
  }

  lemma Literals()
    ensures "## Columns" == "## " + "Columns"
    ensures "## Relationships and join risks" == "## " + "Relationships and join risks"
    ensures "## Business rules" == "## " + "Business rules"
  {
  }

  lemma ColumnsHead(columns: seq<PublishedColumn>)
    ensures ColumnsParts(columns) != [] && ColumnsParts(columns)[0] == "## " + "Columns"
  {
    hide Concat;
    Literals();
  }

  lemma RelationshipsHead(rs: seq<PublishedRelationship>)
    ensures RelationshipsParts(rs) != [] && RelationshipsParts(rs)[0] == "## " + "Relationships and join risks"
  {
    hide Concat, RelationshipParts;
    Literals();
  }

  lemma RulesHead(rules: seq<PublishedRule>)
    ensures RulesParts(rules) != [] && RulesParts(rules)[0] == "## " + "Business rules"
  {
    hide Concat;
    Literals();
  }

  lemma TextOfList(values: seq<string>, message: string)
    ensures Join("\n", if Bullets(values) == [] then [message] else Bullets(values)) == ListText(values, message)
  {
    BulletsDashed(values);
  }

  /** The narrative sections hold each its own field, in this order. */
  lemma NarrativeSections(d: PublishedDocument, lower: string -> string)
    ensures var text := Draft(d, lower);
            && Under(text, "Summary", d.summary, "Grain and purpose")
            && Under(text, "Grain and purpose", Join("\n", ["**Grain:** " + d.grain] + Dashed(d.purpose)), "Appropriate use")
            && Under(text, "Appropriate use", ListText(d.appropriateUse, NO_METADATA), "Inappropriate use")
            && Under(text, "Inappropriate use", ListText(d.inappropriateUse, NO_METADATA), "Columns")
  {
    hide Under, Draft, Join, Bullets, Dashed, ListText, BodyParts;
    SummarySections(d, lower);
    UseSections(d, lower);
  }

  lemma SummarySections(d: PublishedDocument, lower: string -> string)
    ensures Under(Draft(d, lower), "Summary", d.summary, "Grain and purpose")
    ensures Under(Draft(d, lower), "Grain and purpose", Join("\n", ["**Grain:** " + d.grain] + Dashed(d.purpose)), "Appropriate use")
  {
    hide Under, Draft, Join, Bullets, Dashed;
    BodySection(d, lower, 0, [d.summary]);
    JoinOne(d.summary);
    BulletsDashed(d.purpose);
    BodySection(d, lower, 1, ["**Grain:** " + d.grain] + Bullets(d.purpose));
  }

  lemma UseSections(d: PublishedDocument, lower: string -> string)
    ensures Under(Draft(d, lower), "Appropriate use", ListText(d.appropriateUse, NO_METADATA), "Inappropriate use")
    ensures Under(Draft(d, lower), "Inappropriate use", ListText(d.inappropriateUse, NO_METADATA), "Columns")
  {
    hide Under, Draft, Bullets, ListText, SectionParts;
    ListSection(d, lower, 2, d.appropriateUse, NO_METADATA);
    ListSection(d, lower, 3, d.inappropriateUse, NO_METADATA);
  }

  /** So do those about quality and security. */
  lemma NoteSections(d: PublishedDocument, lower: string -> string)
    ensures Under(Draft(d, lower), "Data quality and caveats", ListText(d.dataQuality + d.caveats, NO_QUALITY), "Security")
    ensures Under(Draft(d, lower), "Security", ListText(d.security, NO_SECURITY), "Evidence")
  {
    hide Under, Draft, Bullets, ListText, SectionParts;
    ListSection(d, lower, 8, d.dataQuality + d.caveats, NO_QUALITY);
    ListSection(d, lower, 9, d.security, NO_SECURITY);
  }

  lemma JoinOne(line: string)
    ensures Join("\n", [line]) == line
  {
  }

  lemma ListSection(d: PublishedDocument, lower: string -> string, k: nat, values: seq<string>, message: string)
    requires k + 1 < |SECTIONS| && PartsOf(SECTIONS[k], d, lower) == SectionParts(HeadingOf(SECTIONS[k]), Bullets(values), message)
    ensures Under(Draft(d, lower), HeadingOf(SECTIONS[k]), ListText(values, message), HeadingOf(SECTIONS[k + 1]))
  {
    hide PartsOf, Under, Draft, Join, ListText, HeadingOf;
    TextOfList(values, message);
    BodySection(d, lower, k, if Bullets(values) == [] then [message] else Bullets(values));
  }

  // ---- sections of blocks ----

  /** Every item's lines end in an empty one. */
  ghost predicate Closed<T(!new)>(items: seq<T>, lines: T -> seq<string>) {
    forall x :: x in items ==> |lines(x)| > 1 && lines(x)[|lines(x)| - 1] == ""
  }

  function WithoutLast(lines: seq<string>): seq<string>
    requires lines != []
  {
    lines[..|lines| - 1]
  }

  lemma ConcatClosed<T(!new)>(items: seq<T>, lines: T -> seq<string>)
    requires items != [] && Closed(items, lines)
    ensures |Concat(items, lines)| > 1 && Concat(items, lines) == WithoutLast(Concat(items, lines)) + [""]
  {
  }

  lemma Regroup(front: seq<string>, own: seq<string>, rest: seq<string>)
    ensures WithoutLast(front + (own + [""]) + rest) == front + own + WithoutLast([""] + rest)
  {
    assert front + (own + [""]) + rest == front + own + ([""] + rest);
  }

  /** An item's block stands among the blocks of all. */
  lemma BlockAmong<T(!new)>(items: seq<T>, lines: T -> seq<string>, i: nat)
    requires i < |items| && Closed(items, lines)
    ensures Concat(items, lines) != [] && lines(items[i]) != []
    ensures Contains(Join("\n", WithoutLast(Concat(items, lines))), Join("\n", WithoutLast(lines(items[i]))))
  {
    hide Concat, Join, Contains;
    ConcatSplit(items, lines, i);
    ConcatFirst(items[i..], lines);
    assert items[i] in items;
    var own := WithoutLast(lines(items[i]));
    var front, rest := Concat(items[..i], lines), Concat(items[i..][1..], lines);
    assert lines(items[i]) == own + [""];
    assert Concat(items, lines) == front + (own + [""]) + rest;
    Regroup(front, own, rest);
    hide Closed;
    JoinInfix(front, own, WithoutLast([""] + rest));
  }

  function Flag(b: bool): string {
    if b then "true" else "false"
  }

  /** What the block of a column says. */
  ghost predicate ColumnBlock(block: string, c: PublishedColumn) {
    && "### `" + c.name + "` — " + c.businessName <= block && HasLine(block, c.description)
    && HasLine(block, "- Technical type: `" + c.dataType + "`") && HasLine(block, "- Nullable: `" + Flag(c.nullable) + "`")
    && HasLine(block, "- Semantic type: `" + c.semanticType + "`") && HasLine(block, "- Unit/timezone: `" + c.unit + "`")
    && HasLine(block, "- Null meaning: " + c.nullableMeaning) && HasLine(block, "- Sensitivity: `" + c.sensitivity + "`")
    && (forall v :: v in c.allowedValues ==> HasLine(block, "  - `" + v + "`: " + c.allowedValues[v]))
    && (forall caveat :: caveat in c.caveats ==> HasLine(block, "  - " + caveat))
  }

  ghost predicate RelationshipBlock(block: string, r: PublishedRelationship) {
    && "### " + r.name <= block && HasLine(block, r.meaning)
    && HasLine(block, "- From: `" + r.fromTable + "` columns " + CodeList(r.fromColumns))
    && HasLine(block, "- To: `" + r.toTable + "` columns " + CodeList(r.toColumns))
    && HasLine(block, "- Join condition: `" + r.joinCondition + "`")
    && HasLine(block, "- Cardinality: `" + r.cardinality.Value() + "`") && HasLine(block, "- Optional: `" + Flag(r.optional) + "`")
    && HasLine(block, "- Row-count risk: `" + r.rowCountImpact.Value() + "`")
    && HasLine(block, "- ClickHouse-enforced: `false`")
    && (r.technicalDefinition.Some? && r.technicalDefinition.value != "" ==>
          HasLine(block, "- tbls relation: `" + r.technicalDefinition.value + "`"))
  }

  ghost predicate RuleBlock(block: string, rule: PublishedRule) {
    "### " + rule.name <= block && HasLine(block, rule.description)
  }

  lemma ColumnTopReads(c: PublishedColumn)
    ensures var lines := ColumnTop(c);
            && |lines| == 10
            && lines[0] == "### `" + c.name + "` — " + c.businessName && lines[2] == c.description
            && lines[4] == "- Technical type: `" + c.dataType + "`" && lines[5] == "- Nullable: `" + Flag(c.nullable) + "`"
            && lines[6] == "- Semantic type: `" + c.semanticType + "`" && lines[7] == "- Unit/timezone: `" + c.unit + "`"
            && lines[8] == "- Null meaning: " + c.nullableMeaning && lines[9] == "- Sensitivity: `" + c.sensitivity + "`"
  {
  }

  lemma ColumnCloses(c: PublishedColumn)
    ensures |ColumnParts(c)| > 10 && ColumnParts(c)[|ColumnParts(c)| - 1] == ""
    ensures WithoutLast(ColumnParts(c)) == ColumnTop(c) + AllowedParts(c.allowedValues) + CaveatParts(c.caveats)
  {
    ColumnTopReads(c);
    hide ColumnTop, AllowedParts, CaveatParts;
  }

  lemma AllowedIn(values: map<string, string>, v: string)
    requires v in values
    ensures "  - `" + v + "`: " + values[v] in AllowedParts(values)
  {
    var names := SortedSet(values.Keys);
    assert v in names;
    var i :| 0 <= i < |names| && names[i] == v;
    AllowedLineAt(values, names, i);
    hide AllowedLines, SortedSet;
    assert AllowedParts(values)[i + 1] == AllowedLines(values, names)[i];
  }

  lemma AllowedLineAt(values: map<string, string>, names: seq<string>, i: nat)
    requires i < |names| && forall name :: name in names ==> name in values
    ensures names[i] in names && i < |AllowedLines(values, names)|
    ensures AllowedLines(values, names)[i] == "  - `" + names[i] + "`: " + values[names[i]]
  {
    QuotedLine(names[i], values[names[i]]);
    hide Quoted;
  }

  lemma QuotedLine(v: string, text: string)
    ensures "  - " + Quoted(v) + ": " + text == "  - `" + v + "`: " + text
  {
  }

  lemma CaveatIn(caveats: seq<string>, caveat: string)
    requires caveat in caveats
    ensures "  - " + caveat in CaveatParts(caveats)
  {
    var i :| 0 <= i < |caveats| && caveats[i] == caveat;
    assert CaveatLines(caveats)[i] == "  - " + caveat;
    assert CaveatParts(caveats)[i + 1] == "  - " + caveat;
  }

  lemma LineIn(lines: seq<string>, line: string)
    requires line in lines
    ensures HasLine(Join("\n", lines), line)
  {
    var i :| 0 <= i < |lines| && lines[i] == line;
    JoinHasLine(lines, i);
  }

  lemma ColumnBlockSays(c: PublishedColumn)
    ensures ColumnBlock(Join("\n", WithoutLast(ColumnParts(c))), c)
  {
    hide HasLine, Join, AllowedParts, CaveatParts;
    ColumnCloses(c);
    ColumnTopReads(c);
    hide ColumnParts, ColumnTop;
    var lines := WithoutLast(ColumnParts(c));
    var block := Join("\n", lines);
    JoinStarts("\n", lines);
    forall line | line in lines ensures HasLine(block, line) { LineIn(lines, line); }
    assert forall i :: 0 <= i < 10 ==> lines[i] == ColumnTop(c)[i];
    assert lines[2] in lines && lines[4] in lines && lines[5] in lines && lines[6] in lines;
    assert lines[7] in lines && lines[8] in lines && lines[9] in lines;
    forall v | v in c.allowedValues ensures HasLine(block, "  - `" + v + "`: " + c.allowedValues[v]) { AllowedIn(c.allowedValues, v); }
    forall caveat | caveat in c.caveats ensures HasLine(block, "  - " + caveat) { CaveatIn(c.caveats, caveat); }
  }

  lemma RelationshipTopReads(r: PublishedRelationship)
    ensures var lines := RelationshipTop(r);
            && |lines| == 11 && lines[0] == "### " + r.name && lines[2] == r.meaning
            && lines[4] == "- From: `" + r.fromTable + "` columns " + CodeList(r.fromColumns)
            && lines[5] == "- To: `" + r.toTable + "` columns " + CodeList(r.toColumns)
            && lines[6] == "- Join condition: `" + r.joinCondition + "`"
            && lines[7] == "- Cardinality: `" + r.cardinality.Value() + "`" && lines[8] == "- Optional: `" + Flag(r.optional) + "`"
            && lines[9] == "- Row-count risk: `" + r.rowCountImpact.Value() + "`"
            && lines[10] == "- ClickHouse-enforced: `false`"
  {
    hide CodeList;
  }

  lemma RelationshipCloses(r: PublishedRelationship)
    ensures |RelationshipParts(r)| > 11 && RelationshipParts(r)[|RelationshipParts(r)| - 1] == ""
    ensures WithoutLast(RelationshipParts(r)) == RelationshipTop(r) + TechnicalParts(r)
  {
    RelationshipTopReads(r);
    hide RelationshipTop, TechnicalParts;
  }

  lemma TechnicalIn(r: PublishedRelationship)
    requires r.technicalDefinition.Some? && r.technicalDefinition.value != ""
    ensures "- tbls relation: `" + r.technicalDefinition.value + "`" in TechnicalParts(r)
  {
    assert "- tbls relation: " + Quoted(r.technicalDefinition.value) == "- tbls relation: `" + r.technicalDefinition.value + "`";
    assert TechnicalParts(r)[0] == "- tbls relation: " + Quoted(r.technicalDefinition.value);
  }

  lemma RelationshipBlockSays(r: PublishedRelationship)
    ensures |RelationshipParts(r)| > 1 && RelationshipParts(r)[|RelationshipParts(r)| - 1] == ""
    ensures RelationshipBlock(Join("\n", WithoutLast(RelationshipParts(r))), r)
  {
    hide HasLine, Join, CodeList, TechnicalParts;
    RelationshipCloses(r);
    RelationshipTopReads(r);
    hide RelationshipParts, RelationshipTop;
    var lines := WithoutLast(RelationshipParts(r));
    var block := Join("\n", lines);
    JoinStarts("\n", lines);
    forall line | line in lines ensures HasLine(block, line) { LineIn(lines, line); }
    assert forall i :: 0 <= i < 11 ==> lines[i] == RelationshipTop(r)[i];
    assert lines[2] in lines && lines[4] in lines && lines[5] in lines && lines[6] in lines;
    assert lines[7] in lines && lines[8] in lines && lines[9] in lines && lines[10] in lines;
    if r.technicalDefinition.Some? && r.technicalDefinition.value != "" {
      TechnicalIn(r);
    }
  }

  lemma RuleBlockSays(rule: PublishedRule)
    ensures |RuleParts(rule)| > 1 && RuleParts(rule)[|RuleParts(rule)| - 1] == ""
    ensures RuleBlock(Join("\n", WithoutLast(RuleParts(rule))), rule)
  {
    hide HasLine, Join;
    var lines := WithoutLast(RuleParts(rule));
    JoinStarts("\n", lines);
    assert lines[2] in lines;
    LineIn(lines, lines[2]);
  }

  lemma ColumnBlocks(columns: seq<PublishedColumn>)
    requires columns != []
    ensures |Concat(columns, ColumnParts)| > 1
    ensures Concat(columns, ColumnParts) == WithoutLast(Concat(columns, ColumnParts)) + [""]
    ensures forall c :: c in columns ==>
              exists block :: Contains(Join("\n", WithoutLast(Concat(columns, ColumnParts))), block) && ColumnBlock(block, c)
  {
    forall c | c in columns ensures |ColumnParts(c)| > 1 && ColumnParts(c)[|ColumnParts(c)| - 1] == "" { ColumnCloses(c); }
    hide Join, ColumnParts, Contains, ColumnBlock, Concat;
    ConcatClosed(columns, ColumnParts);
    forall c | c in columns
      ensures exists block :: Contains(Join("\n", WithoutLast(Concat(columns, ColumnParts))), block) && ColumnBlock(block, c)
    {
      var i :| 0 <= i < |columns| && columns[i] == c;
      BlockAmong(columns, ColumnParts, i);
      ColumnBlockSays(c);
    }
  }

  lemma RelationshipBlocks(rs: seq<PublishedRelationship>)
    requires rs != []
    ensures |Concat(rs, RelationshipParts)| > 1
    ensures Concat(rs, RelationshipParts) == WithoutLast(Concat(rs, RelationshipParts)) + [""]
    ensures forall r :: r in rs ==>
              exists block :: Contains(Join("\n", WithoutLast(Concat(rs, RelationshipParts))), block) && RelationshipBlock(block, r)
  {
    forall r: PublishedRelationship { RelationshipBlockSays(r); }
    hide Join, RelationshipParts, Contains, RelationshipBlock, Concat;
    ConcatClosed(rs, RelationshipParts);
    forall r | r in rs
      ensures exists block :: Contains(Join("\n", WithoutLast(Concat(rs, RelationshipParts))), block) && RelationshipBlock(block, r)
    {
      var i :| 0 <= i < |rs| && rs[i] == r;
      BlockAmong(rs, RelationshipParts, i);
    }
  }

  /** The columns section holds a block for every column. */
  lemma ColumnsTold(d: PublishedDocument, lower: string -> string) returns (body: string)
    requires d.columns != []
    ensures Under(Draft(d, lower), "Columns", body, "Relationships and join risks")
    ensures forall c :: c in d.columns ==> exists block :: Contains(body, block) && ColumnBlock(block, c)
  {
    hide Under, Draft, Join, ColumnParts, Contains, ColumnBlock, Concat;
    ColumnBlocks(d.columns);
    var lines := WithoutLast(Concat(d.columns, ColumnParts));
    body := Join("\n", lines);
    Literals();
    assert PartsOf(ColumnSection, d, lower) == ["## " + "Columns", ""] + lines + [""];
    hide PartsOf;
    BodySection(d, lower, 4, lines);
  }

  lemma RelationshipsTold(d: PublishedDocument, lower: string -> string) returns (body: string)
    ensures Under(Draft(d, lower), "Relationships and join risks", body, "Business rules")
    ensures d.relationships == [] ==> body == "Not applicable — no reviewed relationship was supplied."
    ensures forall r :: r in d.relationships ==> exists block :: Contains(body, block) && RelationshipBlock(block, r)
  {
    hide Under, Draft, Join, RelationshipParts, Contains, RelationshipBlock, Concat;
    var lines := ["Not applicable — no reviewed relationship was supplied."];
    if d.relationships == [] {
      JoinOne(lines[0]);
    } else {
      RelationshipBlocks(d.relationships);
      lines := WithoutLast(Concat(d.relationships, RelationshipParts));
    }
    body := Join("\n", lines);
    Literals();
    assert PartsOf(RelationshipSection, d, lower) == ["## " + "Relationships and join risks", ""] + lines + [""];
    hide PartsOf;
    BodySection(d, lower, 5, lines);
  }

  lemma RuleBlocks(rules: seq<PublishedRule>)
    requires rules != []
    ensures |Concat(rules, RuleParts)| > 1
    ensures Concat(rules, RuleParts) == WithoutLast(Concat(rules, RuleParts)) + [""]
    ensures forall rule :: rule in rules ==>
              exists block :: Contains(Join("\n", WithoutLast(Concat(rules, RuleParts))), block) && RuleBlock(block, rule)
  {
    forall rule: PublishedRule { RuleBlockSays(rule); }
    hide Join, RuleParts, Contains, RuleBlock, Concat;
    ConcatClosed(rules, RuleParts);
    forall rule | rule in rules
      ensures exists block :: Contains(Join("\n", WithoutLast(Concat(rules, RuleParts))), block) && RuleBlock(block, rule)
    {
      var i :| 0 <= i < |rules| && rules[i] == rule;
      BlockAmong(rules, RuleParts, i);
    }
  }

  lemma RulesTold(d: PublishedDocument, lower: string -> string) returns (body: string)
    ensures Under(Draft(d, lower), "Business rules", body, "Time and unit semantics")
    ensures d.businessRules == [] ==> body == "Not applicable — no reviewed business rule was supplied."
    ensures forall rule :: rule in d.businessRules ==> exists block :: Contains(body, block) && RuleBlock(block, rule)
  {
    hide Under, Draft, Join, RuleParts, Contains, RuleBlock, Concat;
    var lines := ["Not applicable — no reviewed business rule was supplied."];
    if d.businessRules == [] {
      JoinOne(lines[0]);
    } else {
      RuleBlocks(d.businessRules);
      lines := WithoutLast(Concat(d.businessRules, RuleParts));
    }
    body := Join("\n", lines);
    Literals();
    assert PartsOf(RuleSection, d, lower) == ["## " + "Business rules", ""] + lines + [""];
    hide PartsOf;
    BodySection(d, lower, 6, lines);
  }

  // ---- units and evidence ----

  predicate IsTimed(c: PublishedColumn, lower: string -> string) {
    lower(c.semanticType) in ["timestamp", "date", "monetary_amount", "measure", "count", "percentage", "duration", "categorical", "status", "code"]
  }

  function UnitLine(c: PublishedColumn): string {
    "- `" + c.name + "`: semantic type `" + c.semanticType + "`, unit/timezone `" + c.unit + "`; " + c.description
  }

  lemma {:induction false} UnitLinesExactly(columns: seq<PublishedColumn>, lower: string -> string, line: string)
    ensures line in UnitLines(columns, lower) <==> exists c :: c in columns && IsTimed(c, lower) && line == UnitLine(c)
    decreases |columns|
  {
    if columns != [] {
      var init, last := columns[..|columns| - 1], columns[|columns| - 1];
      assert columns == init + [last];
      UnitLinesExactly(init, lower, line);
      LastUnit(last, lower);
      hide IsTimed, UnitLine;
    }
  }

  lemma LastUnit(c: PublishedColumn, lower: string -> string)
    ensures lower(c.semanticType) in TIMED_TYPES <==> IsTimed(c, lower)
    ensures "- " + Quoted(c.name) + ": semantic type " + Quoted(c.semanticType) + ", unit/timezone " + Quoted(c.unit) + "; " + c.description
            == UnitLine(c)
  {
    TimedTypes(lower(c.semanticType));
    hide TIMED_TYPES;
  }

  lemma TimedTypes(t: string)
    ensures t in TIMED_TYPES <==>
              t in ["timestamp", "date", "monetary_amount", "measure", "count", "percentage", "duration", "categorical", "status", "code"]
  {
  }

  /** Exactly the timed columns, measures and codes have a line about their unit. */
  lemma UnitsTold(d: PublishedDocument, lower: string -> string) returns (lines: seq<string>)
    ensures Under(Draft(d, lower), "Time and unit semantics", if lines == [] then NO_UNITS else Join("\n", lines), "Data quality and caveats")
    ensures forall line :: line in lines <==> exists c :: c in d.columns && IsTimed(c, lower) && line == UnitLine(c)
  {
    lines := UnitLines(d.columns, lower);
    forall line { UnitLinesExactly(d.columns, lower, line); }
    hide Under, Draft, Join, UnitLines, IsTimed, UnitLine;
    var shown := if lines == [] then [NO_UNITS] else lines;
    JoinOne(NO_UNITS);
    assert PartsOf(UnitSection, d, lower) == ["## " + "Time and unit semantics", ""] + shown + [""];
    BodySection(d, lower, 7, shown);
  }

  /** Every piece of evidence has its line. */
  lemma EvidenceTold(d: PublishedDocument, lower: string -> string, e: Evidence)
    requires e in AllEvidence(d)
    ensures HasLine(Draft(d, lower), "- `" + e.status.Value() + "` `" + e.kind.Value() + "` — `" + e.reference + "`"
                                     + (if e.note == "" then "" else ": " + e.note))
  {
    var lines := EvidenceLines(AllEvidence(d));
    var i :| 0 <= i < |AllEvidence(d)| && AllEvidence(d)[i] == e;
    assert lines[i] == EvidenceLine(e) && lines[i] in lines;
    hide AllEvidence, EvidenceLines, HasLine, Join;
    var last := |SECTIONS| - 1;
    ConcatSplit(SECTIONS, BodyLines(d, lower), last);
    ConcatFirst(SECTIONS[last..], BodyLines(d, lower));
    assert SECTIONS[last..][0] == EvidenceSection;
    assert EvidenceLine(e) in PartsOf(EvidenceSection, d, lower);
    hide PartsOf;
    assert EvidenceLine(e) in BodyParts(d, lower);
    LineIn(BodyParts(d, lower), EvidenceLine(e));
    EvidenceReads(e);
  }

  lemma EvidenceReads(e: Evidence)
    ensures EvidenceLine(e) == "- `" + e.status.Value() + "` `" + e.kind.Value() + "` — `" + e.reference + "`"
                               + (if e.note == "" then "" else ": " + e.note)
  {
  }

  // ---- the header ----

  /** The front matter says whose document it is, in which state, of which versions, and made how. */
  predicate TellsOrigin(f: FrontMatter, d: PublishedDocument) {
    && f.documentId == d.documentId && f.database == d.database && f.table == d.table && f.qualifiedName == d.qualifiedName
    && f.owner == d.owner && f.reviewer == d.reviewer && f.documentStatus == d.documentStatus.Value()
    && f.indexEligible == d.indexEligible && f.schemaHash == d.schemaHash && f.contractVersion == d.contractVersion
    && f.reviewGuidelineVersion == d.reviewGuidelineVersion
    && f.transformationGuidelineVersion == d.transformationGuidelineVersion
    && f.sourceSchemaPath == d.provenance.sourceSchemaPath && f.sourceReviewPath == d.provenance.sourceReviewPath
    && f.sourceReviewCommit == d.provenance.sourceReviewCommit && f.generatorMode == d.provenance.generatorMode.Value()
    && f.generatorModel == d.provenance.generatorModel && f.promptVersion == d.provenance.promptVersion
  }

  /** The header is the front matter, the title and, exactly while the review is open, the preview warning. */
  lemma HeaderTells(d: PublishedDocument, format: Format) returns (f: FrontMatter)
    ensures TellsOrigin(f, d)
    ensures Header(d, format) == TitleText(RStrip(format.yaml(f)), d.qualifiedName, d.displayName) + WarningText(d.documentStatus)
  {
    f := FrontMatterOf(d);
    OriginTold(d);
    hide RStrip, FrontMatterOf, TellsOrigin;
    TitleReads(d, format);
    WarningReads(d.documentStatus);
    hide Title, Warning, WarningText, TitleText;
  }

  lemma TitleReads(d: PublishedDocument, format: Format)
    ensures Title(d, format) == TitleText(RStrip(format.yaml(FrontMatterOf(d))), d.qualifiedName, d.displayName)
  {
    hide RStrip, FrontMatterOf;
    JoinSix("---", RStrip(format.yaml(FrontMatterOf(d))), "---", "", "# " + d.qualifiedName + " — " + d.displayName, "");
    hide Join;
  }

  lemma OriginTold(d: PublishedDocument)
    ensures TellsOrigin(FrontMatterOf(d), d)
  {
  }

  function TitleText(yaml: string, qualifiedName: string, displayName: string): string {
    "---\n" + yaml + "\n---\n\n# " + qualifiedName + " — " + displayName + "\n\n"
  }

  function WarningText(status: DocumentStatus): string {
    match status
    case NeedsReview => "> [!WARNING]\n" + PREVIEW_ONLY + "\n\n"
    case Approved => ""
  }

  lemma WarningReads(status: DocumentStatus)
    ensures Warning(status) == WarningText(status)
  {
    if status == NeedsReview {
      hide PREVIEW_ONLY;
      JoinThree("> [!WARNING]", PREVIEW_ONLY, "");
      assert WARNING == ["> [!WARNING]", PREVIEW_ONLY, ""];
    }
  }

  lemma JoinThree(a: string, b: string, c: string)
    ensures Join("\n", [a, b, c]) == a + "\n" + b + "\n" + c
  {
    JoinConcat("\n", [a], [b, c]);
    JoinConcat("\n", [b], [c]);
    assert [a] + [b, c] == [a, b, c] && [b] + [c] == [b, c];
  }
}
