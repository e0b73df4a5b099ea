/** The Markdown text of a published document: front matter, title, and the reviewable body. */
module Markdown {
  import opened Wrappers
  import opened Ordering
  import opened Sorting
  import opened Text
  import opened Models

  datatype FrontMatter = FrontMatter(
    documentId: string,
    database: string,
    table: string,
    qualifiedName: string,
    owner: string,
    reviewer: string,
    documentStatus: string,
    indexEligible: bool,
    schemaHash: string,
    contractVersion: string,
    reviewGuidelineVersion: string,
    transformationGuidelineVersion: string,
    sourceSchemaPath: string,
    sourceReviewPath: string,
    sourceReviewCommit: string,
    generatorMode: string,
    generatorModel: string,
    promptVersion: string
  )

  /** The YAML text of the front matter, and lower-casing. */
  datatype Format = Format(yaml: FrontMatter -> string, lower: string -> string)

  // ---- what each part says ----

  function FrontMatterOf(d: PublishedDocument): FrontMatter {
    FrontMatter(
      d.documentId, d.database, d.table, d.qualifiedName, d.owner, d.reviewer, d.documentStatus.Value(),
      d.indexEligible, d.schemaHash, d.contractVersion, d.reviewGuidelineVersion, d.transformationGuidelineVersion,
      d.provenance.sourceSchemaPath, d.provenance.sourceReviewPath, d.provenance.sourceReviewCommit,
      d.provenance.generatorMode.Value(), d.provenance.generatorModel, d.provenance.promptVersion)
  }

  function TitleParts(d: PublishedDocument, format: Format): seq<string> {
    ["---", RStrip(format.yaml(FrontMatterOf(d))), "---", "", "# " + d.qualifiedName + " — " + d.displayName, ""]
  }

  /** In pieces short enough for the verifier to look through. */
  const PREVIEW_ONLY :=
    "> Preview only: reviewer" + " metadata still has" + " `needs_review` status" + " and must not be indexed."

  const WARNING: seq<string> := ["> [!WARNING]", PREVIEW_ONLY, ""]

  function WarningParts(status: DocumentStatus): seq<string> {
    if status.NeedsReview? then WARNING else []
  }

  /** The lines of every item, one item after another. */
  function Concat<T>(items: seq<T>, lines: T -> seq<string>): seq<string> {
    if items == [] then []
    else Concat(items[..|items| - 1], lines) + lines(items[|items| - 1])
  }

  const NO_METADATA := "Not applicable — no reviewer metadata was supplied."

  function SectionParts(heading: string, lines: seq<string>, emptyMessage: string): seq<string> {
    ["## " + heading, ""] + (if lines == [] then [emptyMessage] else lines) + [""]
  }

  function Bullet(value: string): string {
    "- " + value
  }

  function Bullets(values: seq<string>): (r: seq<string>)
    ensures |r| == |values|
  {
    seq(|values|, i requires 0 <= i < |values| => Bullet(values[i]))
  }

  function Quoted(value: string): string {
    "`" + value + "`"
  }

  function CodeList(values: seq<string>): string {
    Join(", ", seq(|values|, i requires 0 <= i < |values| => Quoted(values[i])))
  }

  function AllowedLines(values: map<string, string>, names: seq<string>): seq<string>
    requires forall name :: name in names ==> name in values
  {
    seq(|names|, i requires 0 <= i < |names| && names[i] in values => "  - " + Quoted(names[i]) + ": " + values[names[i]])
  }

  function CaveatLines(caveats: seq<string>): seq<string> {
    seq(|caveats|, i requires 0 <= i < |caveats| => "  - " + caveats[i])
  }

  function ColumnTop(c: PublishedColumn): seq<string> {
    ["### " + Quoted(c.name) + " — " + c.businessName,
     "",
     c.description,
     "",
     "- Technical type: " + Quoted(c.dataType),
     "- Nullable: " + Quoted(BoolText(c.nullable)),
     "- Semantic type: " + Quoted(c.semanticType),
     "- Unit/timezone: " + Quoted(c.unit),
     "- Null meaning: " + c.nullableMeaning,
     "- Sensitivity: " + Quoted(c.sensitivity)]
  }

  function AllowedParts(values: map<string, string>): seq<string> {
    if values == map[] then [] else ["- Allowed values:"] + AllowedLines(values, SortedSet(values.Keys))
  }

  function CaveatParts(caveats: seq<string>): seq<string> {
    if caveats == [] then [] else ["- Caveats:"] + CaveatLines(caveats)
  }

  function ColumnParts(c: PublishedColumn): seq<string> {
    ColumnTop(c) + AllowedParts(c.allowedValues) + CaveatParts(c.caveats) + [""]
  }

  function RelationshipTop(r: PublishedRelationship): seq<string> {
    ["### " + r.name,
     "",
     r.meaning,
     "",
     "- From: " + Quoted(r.fromTable) + " columns " + CodeList(r.fromColumns),
     "- To: " + Quoted(r.toTable) + " columns " + CodeList(r.toColumns),
     "- Join condition: " + Quoted(r.joinCondition),
     "- Cardinality: " + Quoted(r.cardinality.Value()),
     "- Optional: " + Quoted(BoolText(r.optional)),
     "- Row-count risk: " + Quoted(r.rowCountImpact.Value()),
     "- ClickHouse-enforced: `false`"]
  }

  function TechnicalParts(r: PublishedRelationship): seq<string> {
    if r.technicalDefinition.GetOr("") != "" then ["- tbls relation: " + Quoted(r.technicalDefinition.value)] else []
  }

  function RelationshipParts(r: PublishedRelationship): seq<string> {
    RelationshipTop(r) + TechnicalParts(r) + [""]
  }

  function RuleParts(rule: PublishedRule): seq<string> {
    ["### " + rule.name, "", rule.description, ""]
  }

  function ColumnsParts(columns: seq<PublishedColumn>): seq<string> {
    ["## Columns", ""] + Concat(columns, ColumnParts)
  }

  function RelationshipsParts(relationships: seq<PublishedRelationship>): seq<string> {
    ["## Relationships and join risks", ""]
    + if relationships == [] then ["Not applicable — no reviewed relationship was supplied.", ""]
      else Concat(relationships, RelationshipParts)
  }

  function RulesParts(rules: seq<PublishedRule>): seq<string> {
    ["## Business rules", ""]
    + if rules == [] then ["Not applicable — no reviewed business rule was supplied.", ""]
      else Concat(rules, RuleParts)
  }

  const TIMED_TYPES: set<string> := {
    "timestamp", "date", "monetary_amount", "measure", "count", "percentage", "duration", "categorical", "status", "code"}

  function UnitLines(columns: seq<PublishedColumn>, lower: string -> string): seq<string> {
    if columns == [] then []
    else
      var last := columns[|columns| - 1];
      UnitLines(columns[..|columns| - 1], lower)
      + if lower(last.semanticType) in TIMED_TYPES
        then ["- " + Quoted(last.name) + ": semantic type " + Quoted(last.semanticType) + ", unit/timezone "
              + Quoted(last.unit) + "; " + last.description]
        else []
  }

  function EvidenceKey(e: Evidence): seq<string> {
    [e.kind.Value(), e.reference, e.status.Value(), e.note]
  }

  function Deduplicated(evidence: seq<Evidence>): seq<Evidence> {
    if evidence == [] then []
    else
      var last := evidence[|evidence| - 1];
      var before := Deduplicated(evidence[..|evidence| - 1]);
      if last in before then before else before + [last]
  }

  function OfColumns(columns: seq<PublishedColumn>): seq<Evidence> {
    if columns == [] then [] else OfColumns(columns[..|columns| - 1]) + columns[|columns| - 1].evidence
  }

  function OfRelationships(rs: seq<PublishedRelationship>): seq<Evidence> {
    if rs == [] then [] else OfRelationships(rs[..|rs| - 1]) + rs[|rs| - 1].evidence
  }

  function OfRules(rules: seq<PublishedRule>): seq<Evidence> {
    if rules == [] then [] else OfRules(rules[..|rules| - 1]) + rules[|rules| - 1].evidence
  }

  /** Every distinct piece of evidence, in key order. The key is the whole record, so none shadows another. */
  function AllEvidence(d: PublishedDocument): seq<Evidence> {
    SortBy(Deduplicated(d.businessEvidence + OfColumns(d.columns) + OfRelationships(d.relationships) + OfRules(d.businessRules)),
           EvidenceKey, TupleLess)
  }

  function EvidenceLine(e: Evidence): string {
    "- " + Quoted(e.status.Value()) + " " + Quoted(e.kind.Value()) + " — " + Quoted(e.reference)
    + if e.note != "" then ": " + e.note else ""
  }

  function EvidenceLines(evidence: seq<Evidence>): seq<string> {
    seq(|evidence|, i requires 0 <= i < |evidence| => EvidenceLine(evidence[i]))
  }

  datatype Section =
    | SummarySection | GrainSection | AppropriateSection | InappropriateSection | ColumnSection | RelationshipSection
    | RuleSection | UnitSection | QualitySection | SecuritySection | EvidenceSection

  /** The sections in order. */
  const SECTIONS: seq<Section> := [
    SummarySection, GrainSection, AppropriateSection, InappropriateSection, ColumnSection, RelationshipSection,
    RuleSection, UnitSection, QualitySection, SecuritySection, EvidenceSection]

  function PartsOf(section: Section, d: PublishedDocument, lower: string -> string): seq<string> {
    match section
    case SummarySection => SectionParts("Summary", [d.summary], NO_METADATA)
    case GrainSection => SectionParts("Grain and purpose", ["**Grain:** " + d.grain] + Bullets(d.purpose), NO_METADATA)
    case AppropriateSection => SectionParts("Appropriate use", Bullets(d.appropriateUse), NO_METADATA)
    case InappropriateSection => SectionParts("Inappropriate use", Bullets(d.inappropriateUse), NO_METADATA)
    case ColumnSection => ColumnsParts(d.columns)
    case RelationshipSection => RelationshipsParts(d.relationships)
    case RuleSection => RulesParts(d.businessRules)
    case UnitSection => SectionParts("Time and unit semantics", UnitLines(d.columns, lower), NO_UNITS)
    case QualitySection => SectionParts("Data quality and caveats", Bullets(d.dataQuality + d.caveats), NO_QUALITY)
    case SecuritySection => SectionParts("Security", Bullets(d.security), NO_SECURITY)
    case EvidenceSection => SectionParts("Evidence", EvidenceLines(AllEvidence(d)), NO_METADATA)
  }

  const NO_UNITS := "Not applicable — no timestamp, measure, status, or code column was supplied."

  const NO_QUALITY := "Not applicable — no data-quality issue or table caveat was supplied."

  const NO_SECURITY := "Not applicable — no table-level security instruction was supplied."

  /** Every part from the summary on. */
  function BodyParts(d: PublishedDocument, lower: string -> string): seq<string> {
    Concat(SECTIONS, BodyLines(d, lower))
  }

  function BodyLines(d: PublishedDocument, lower: string -> string): Section -> seq<string> {
    (section: Section) => PartsOf(section, d, lower)
  }

  lemma ConcatNext<T>(items: seq<T>, n: nat, lines: T -> seq<string>)
    requires n < |items|
    ensures Concat(items[..n + 1], lines) == Concat(items[..n], lines) + lines(items[n])
  {
    assert items[..n + 1][..n] == items[..n];
  }

  lemma {:induction false} ConcatStarts<T(!new)>(items: seq<T>, lines: T -> seq<string>)
    requires items != []
    ensures lines(items[0]) <= Concat(items, lines)
    decreases |items|
  {
    if |items| == 1 {
      assert items[..0] == [];
    } else {
      ConcatStarts(items[..|items| - 1], lines);
    }
  }

  lemma {:induction false} ConcatSame<T(!new)>(items: seq<T>, a: T -> seq<string>, b: T -> seq<string>)
    requires forall item :: item in items ==> a(item) == b(item)
    ensures Concat(items, a) == Concat(items, b)
    decreases |items|
  {
    if items != [] {
      ConcatSame(items[..|items| - 1], a, b);
    }
  }

  /** The rendered document. */
  function Rendered(d: PublishedDocument, format: Format): string {
    RStrip(Join("\n", TitleParts(d, format) + WarningParts(d.documentStatus) + BodyParts(d, format.lower))) + "\n"
  }

  lemma EvidenceKeyDetermines(a: Evidence, b: Evidence)
    requires EvidenceKey(a) == EvidenceKey(b)
    ensures a == b
  {
    var x, y := EvidenceKey(a), EvidenceKey(b);
    assert x[0] == y[0] && x[1] == y[1] && x[2] == y[2] && x[3] == y[3];
    assert a.kind == b.kind && a.status == b.status;
  }

  lemma {:induction false} DeduplicatedExact(evidence: seq<Evidence>)
    ensures forall e :: e in Deduplicated(evidence) <==> e in evidence
    ensures DistinctKeys(Deduplicated(evidence), EvidenceKey)
    decreases |evidence|
  {
    if evidence == [] {
    } else {
      var init, last := evidence[..|evidence| - 1], evidence[|evidence| - 1];
      assert evidence == init + [last];
      DeduplicatedExact(init);
      var before := Deduplicated(init);
      hide EvidenceKey, DistinctKeys;
      forall y | y in before && EvidenceKey(y) == EvidenceKey(last) ensures y == last {
        EvidenceKeyDetermines(y, last);
      }
      DistinctAppend(before, last, EvidenceKey);
    }
  }

  /** Every piece of evidence is listed, once, in strict key order. */
  lemma EvidenceExact(d: PublishedDocument)
    ensures StrictlyOrdered(AllEvidence(d), EvidenceKey, TupleLess)
    ensures forall e :: e in AllEvidence(d) <==>
              e in d.businessEvidence + OfColumns(d.columns) + OfRelationships(d.relationships) + OfRules(d.businessRules)
  {
    hide EvidenceKey, TupleLess, OfColumns, OfRelationships, OfRules, SortBy, Deduplicated, DistinctKeys;
    var all := d.businessEvidence + OfColumns(d.columns) + OfRelationships(d.relationships) + OfRules(d.businessRules);
    var unique := Deduplicated(all);
    DeduplicatedExact(all);
    TupleLessTotal();
    SortMembers(unique, EvidenceKey, TupleLess);
    SortOrdered(unique, EvidenceKey, TupleLess);
    SortMultiset(unique, EvidenceKey, TupleLess);
    DistinctPermuted(unique, AllEvidence(d), EvidenceKey);
    OrderedDistinctIsStrict(AllEvidence(d), EvidenceKey, TupleLess);
  }

  // ---- rendering ----

  class PartList {
    var parts: seq<string>

    constructor (initial: seq<string>)
      ensures parts == initial
    {
      parts := initial;
    }

    method Extend(lines: seq<string>)
      modifies this
      ensures parts == old(parts) + lines
    {
      parts := parts + lines;
    }

    method Section(heading: string, lines: seq<string>, emptyMessage: string)
      modifies this
      ensures parts == old(parts) + SectionParts(heading, lines, emptyMessage)
    {
      Extend(["## " + heading, ""]);
      Extend(if lines == [] then [emptyMessage] else lines);
      Extend([""]);
    }

    method RenderEach<T>(items: seq<T>, lines: T -> seq<string>)
      modifies this
      ensures parts == old(parts) + Concat(items, lines)
    {
      for i := 0 to |items|
        invariant parts == old(parts) + Concat(items[..i], lines)
      {
        Extend(lines(items[i]));
        ConcatNext(items, i, lines);
      }
      assert items[..|items|] == items;
    }

    method RenderColumns(columns: seq<PublishedColumn>)
      modifies this
      ensures parts == old(parts) + ColumnsParts(columns)
    {
      hide Concat, ColumnParts;
      Extend(["## Columns", ""]);
      RenderEach(columns, ColumnParts);
    }

    method RenderRelationships(relationships: seq<PublishedRelationship>)
      modifies this
      ensures parts == old(parts) + RelationshipsParts(relationships)
    {
      hide Concat, RelationshipParts;
      Extend(["## Relationships and join risks", ""]);
      if relationships == [] {
        Extend(["Not applicable — no reviewed relationship was supplied.", ""]);
        return;
      }
      RenderEach(relationships, RelationshipParts);
    }

    method RenderRules(rules: seq<PublishedRule>)
      modifies this
      ensures parts == old(parts) + RulesParts(rules)
    {
      hide Concat, RuleParts;
      Extend(["## Business rules", ""]);
      if rules == [] {
        Extend(["Not applicable — no reviewed business rule was supplied.", ""]);
        return;
      }
      RenderEach(rules, RuleParts);
    }

    method RenderSection(section: Section, d: PublishedDocument, lower: string -> string)
      modifies this
      ensures parts == old(parts) + PartsOf(section, d, lower)
    {
      hide SectionParts, ColumnsParts, RelationshipsParts, RulesParts, UnitLines, Bullets, EvidenceLines, AllEvidence;
      match section
      case SummarySection => Section("Summary", [d.summary], NO_METADATA);
      case GrainSection => Section("Grain and purpose", ["**Grain:** " + d.grain] + Bullets(d.purpose), NO_METADATA);
      case AppropriateSection => Section("Appropriate use", Bullets(d.appropriateUse), NO_METADATA);
      case InappropriateSection => Section("Inappropriate use", Bullets(d.inappropriateUse), NO_METADATA);
      case ColumnSection => RenderColumns(d.columns);
      case RelationshipSection => RenderRelationships(d.relationships);
      case RuleSection => RenderRules(d.businessRules);
      case UnitSection => Section("Time and unit semantics", UnitLines(d.columns, lower), NO_UNITS);
      case QualitySection => Section("Data quality and caveats", Bullets(d.dataQuality + d.caveats), NO_QUALITY);
      case SecuritySection => Section("Security", Bullets(d.security), NO_SECURITY);
      case EvidenceSection => Section("Evidence", EvidenceLines(AllEvidence(d)), NO_METADATA);
    }

    /** Section `n`, once those before it are in. */
    method RenderNext(ghost n: nat, ghost start: seq<string>, section: Section, d: PublishedDocument, lower: string -> string)
      requires n < |SECTIONS| && SECTIONS[n] == section
      requires parts == start + Concat(SECTIONS[..n], BodyLines(d, lower))
      modifies this
      ensures parts == start + Concat(SECTIONS[..n + 1], BodyLines(d, lower))
    {
      hide PartsOf, Concat;
      RenderSection(section, d, lower);
      ConcatNext(SECTIONS, n, BodyLines(d, lower));
    }

    method RenderBody(d: PublishedDocument, lower: string -> string)
      modifies this
      ensures parts == old(parts) + BodyParts(d, lower)
    {
      hide PartsOf, BodyLines;
      ghost var start := parts;
      assert SECTIONS[..0] == [];
      RenderNext(0, start, SummarySection, d, lower);
      RenderNext(1, start, GrainSection, d, lower);
      RenderNext(2, start, AppropriateSection, d, lower);
      RenderNext(3, start, InappropriateSection, d, lower);
      RenderNext(4, start, ColumnSection, d, lower);
      RenderNext(5, start, RelationshipSection, d, lower);
      RenderNext(6, start, RuleSection, d, lower);
      RenderNext(7, start, UnitSection, d, lower);
      RenderNext(8, start, QualitySection, d, lower);
      RenderNext(9, start, SecuritySection, d, lower);
      RenderNext(10, start, EvidenceSection, d, lower);
      assert SECTIONS[..11] == SECTIONS;
    }
  }

  method RenderPublishedDocument(d: PublishedDocument, format: Format) returns (text: string)
    ensures text == Rendered(d, format)
  {
    hide TitleParts, BodyParts, Join, RStrip;
    var list := new PartList(TitleParts(d, format));
    if d.documentStatus.NeedsReview? {
      list.Extend(WARNING);
    }
    assert list.parts == TitleParts(d, format) + WarningParts(d.documentStatus);
    list.RenderBody(d, format.lower);
    text := RStrip(Join("\n", list.parts)) + "\n";
  }

  // ---- where the body starts ----

  const MARKER: string := "## Summary\n"

  function Title(d: PublishedDocument, format: Format): string {
    Join("\n", TitleParts(d, format)) + "\n"
  }

  function Warning(status: DocumentStatus): string {
    if status.NeedsReview? then Join("\n", WARNING) + "\n" else ""
  }

  /** Everything before the summary heading. */
  function Header(d: PublishedDocument, format: Format): string {
    Title(d, format) + Warning(d.documentStatus)
  }

  /** Everything from the summary heading on. */
  function Body(d: PublishedDocument, lower: string -> string): string {
    RStrip(Join("\n", BodyParts(d, lower))) + "\n"
  }

  lemma {:induction false} JoinConcat(separator: string, a: seq<string>, b: seq<string>)
    requires a != [] && b != []
    ensures Join(separator, a + b) == Join(separator, a) + separator + Join(separator, b)
  {
    if |a| > 1 {
      assert (a + b)[1..] == a[1..] + b;
      JoinConcat(separator, a[1..], b);
    } else {
      assert (a + b)[1..] == b;
    }
  }

  lemma {:induction false} RStripAppend(p: string, q: string)
    requires p != "" && !IsSpace(p[|p| - 1])
    ensures RStrip(p + q) == p + RStrip(q)
    decreases |q|
  {
    if q == "" {
      assert p + q == p;
    } else if IsSpace(q[|q| - 1]) {
      assert (p + q)[..|p + q| - 1] == p + q[..|q| - 1];
      RStripAppend(p, q[..|q| - 1]);
    }
  }

  /** Stripping stops inside the body: the header is untouched. */
  lemma RStripKeepsHeader(h: string, j: string)
    requires j != "" && !IsSpace(j[0])
    ensures RStrip(h + j) == h + RStrip(j)
  {
    hide RStrip;
    var first, rest := j[..1], j[1..];
    assert j == first + rest;
    assert h + j == (h + first) + rest;
    RStripAppend(h + first, rest);
    RStripAppend(first, rest);
    assert (h + first) + RStrip(rest) == h + (first + RStrip(rest));
  }

  lemma BodyPartsStart(d: PublishedDocument, lower: string -> string)
    ensures |BodyParts(d, lower)| > 1
    ensures BodyParts(d, lower)[0] == "## Summary"
  {
    var first := PartsOf(SummarySection, d, lower);
    assert first == SectionParts("Summary", [d.summary], NO_METADATA);
    assert |first| == 4 && first[0] == "## " + "Summary";
    hide PartsOf, SectionParts;
    assert BodyLines(d, lower)(SECTIONS[0]) == first;
    ConcatStarts(SECTIONS, BodyLines(d, lower));
  }

  /** The body starts with the marker. */
  lemma BodyStarts(d: PublishedDocument, lower: string -> string)
    ensures MARKER <= Body(d, lower)
    ensures BodyParts(d, lower) != [] && Join("\n", BodyParts(d, lower)) != ""
    ensures Join("\n", BodyParts(d, lower))[0] == '#'
  {
    hide BodyParts;
    BodyPartsStart(d, lower);
    var parts := BodyParts(d, lower);
    var heading := "## Summary";
    var rest := "\n" + Join("\n", parts[1..]);
    assert Join("\n", parts) == heading + rest;
    RStripAppend(heading, rest);
    StripEndPrefix(rest, IsSpace);
    if RStrip(rest) != "" {
      assert RStrip(rest)[0] == '\n';
    }
  }

  /** The text is the header followed by the body. */
  lemma RenderedSplits(d: PublishedDocument, format: Format)
    ensures Rendered(d, format) == Header(d, format) + Body(d, format.lower)
  {
    hide BodyParts, RStrip;
    BodyStarts(d, format.lower);
    var title, warning, body := TitleParts(d, format), WarningParts(d.documentStatus), BodyParts(d, format.lower);
    hide TitleParts, Join;
    assert title != [] by { assert |TitleParts(d, format)| > 0 by { TitleNonEmpty(d, format); } }
    var j := Join("\n", body);
    if warning == [] {
      assert title + warning + body == title + body;
      JoinConcat("\n", title, body);
      assert Join("\n", title + warning + body) == Header(d, format) + j;
    } else {
      JoinConcat("\n", warning, body);
      JoinConcat("\n", title, warning + body);
      assert title + warning + body == title + (warning + body);
      assert Join("\n", title + warning + body) == Header(d, format) + j;
    }
    RStripKeepsHeader(Header(d, format), j);
  }

  lemma TitleNonEmpty(d: PublishedDocument, format: Format)
    ensures |TitleParts(d, format)| == 6
  {
  }

  // ---- what the body depends on, and where the marker is first found ----

  /** Two documents that differ only in status, eligibility and provenance. */
  predicate SameContent(a: PublishedDocument, b: PublishedDocument) {
    a.(documentStatus := b.documentStatus, indexEligible := b.indexEligible, provenance := b.provenance) == b
  }

  lemma PartsIndependent(section: Section, a: PublishedDocument, b: PublishedDocument, lower: string -> string)
    requires SameContent(a, b)
    ensures PartsOf(section, a, lower) == PartsOf(section, b, lower)
  {
    hide SectionParts, ColumnsParts, RelationshipsParts, RulesParts, UnitLines, Bullets, Deduplicated, OfColumns, SortBy;
    assert AllEvidence(a) == AllEvidence(b);
  }

  /** The body does not see the status, the eligibility, the source commit or the warning. */
  lemma BodyIndependent(a: PublishedDocument, b: PublishedDocument, lower: string -> string)
    requires SameContent(a, b)
    ensures Body(a, lower) == Body(b, lower)
  {
    hide PartsOf, RStrip, Join, SameContent;
    forall section { PartsIndependent(section, a, b, lower); }
    ConcatSame(SECTIONS, BodyLines(a, lower), BodyLines(b, lower));
  }

  /** Where `str.split(marker, maxsplit=1)` splits. */
  function FirstOccurrence(text: string, part: string): (at: Option<nat>)
    ensures at.Some? ==> at.value + |part| <= |text|
  {
    if |part| > |text| then None
    else if part <= text then Some(0)
    else
      var later := FirstOccurrence(text[1..], part);
      if later.Some? then Some(later.value + 1) else None
  }

  lemma OccursAtStart(text: string, part: string)
    ensures OccursAt(text, part, 0) <==> part <= text
    ensures |part| > |text| ==> forall j :: !OccursAt(text, part, j)
  {
  }

  lemma OccursLater(text: string, part: string, j: int)
    requires text != "" && 1 <= j
    ensures OccursAt(text, part, j) <==> OccursAt(text[1..], part, j - 1)
  {
    if j <= |text| - |part| {
      assert text[1..][j - 1..j - 1 + |part|] == text[j..j + |part|];
    }
  }

  lemma OccursInside(text: string, part: string, j: int)
    requires OccursAt(text, part, j)
    ensures 0 <= j <= |text| - |part|
  {
  }

  lemma {:induction false} FirstOccurrenceIsFirst(text: string, part: string)
    requires part != ""
    ensures var i := FirstOccurrence(text, part);
            if i.Some? then OccursAt(text, part, i.value) && forall j :: 0 <= j < i.value ==> !OccursAt(text, part, j)
            else forall j :: !OccursAt(text, part, j)
    decreases |text|
  {
    hide OccursAt;
    OccursAtStart(text, part);
    if |part| <= |text| && !(part <= text) {
      FirstOccurrenceIsFirst(text[1..], part);
      forall j | OccursAt(text, part, j) ensures 1 <= j && OccursAt(text[1..], part, j - 1) {
        OccursInside(text, part, j);
        OccursLater(text, part, j);
      }
      var i := FirstOccurrence(text[1..], part);
      if i.Some? {
        OccursLater(text, part, i.value + 1);
      }
    }
  }

  lemma OccurrenceChar(whole: string, part: string, i: nat, k: nat)
    requires OccursAt(whole, part, i) && k < |part|
    ensures whole[i + k] == part[k]
  {
    assert whole[i + k] == whole[i..i + |part|][k];
  }

  lemma OnlyLastBreaks(k: nat)
    requires k < |MARKER|
    ensures MARKER[k] == '\n' ==> k == |MARKER| - 1
  {
  }

  /** The marker cannot straddle the end of a header: its only line break is its last character. */
  lemma MarkerInsideHeader(header: string, body: string, i: nat)
    requires header != "" && header[|header| - 1] == '\n'
    requires i < |header| && OccursAt(header + body, MARKER, i)
    ensures OccursAt(header, MARKER, i)
  {
    var whole := header + body;
    if i + |MARKER| > |header| {
      OccurrenceChar(whole, MARKER, i, |header| - 1 - i);
      OnlyLastBreaks(|header| - 1 - i);
    }
    assert header[i..i + |MARKER|] == whole[i..i + |MARKER|];
  }

  lemma HeaderEnds(d: PublishedDocument, format: Format)
    ensures Title(d, format) != "" && Title(d, format)[|Title(d, format)| - 1] == '\n'
    ensures Header(d, format) != "" && Header(d, format)[|Header(d, format)| - 1] == '\n'
  {
    hide TitleParts, Join;
  }

  /** From the first marker on; what precedes the marker is dropped. */
  function SplitFrom(text: string): Option<string> {
    var at := FirstOccurrence(text, MARKER);
    if at.None? then None else Some(MARKER + text[at.value + |MARKER|..])
  }

  /** What the reviewer is taken to have read. */
  function Reviewable(d: PublishedDocument, format: Format): Option<string> {
    SplitFrom(Rendered(d, format))
  }

  /** `extra` is the end of `header` from its first marker on, and empty if it has none. */
  ghost predicate StartsEarly(header: string, extra: string) {
    && |extra| <= |header| && extra == header[|header| - |extra|..]
    && (extra == "" <==> !Contains(header, MARKER))
    && (extra != "" ==> MARKER <= extra)
  }

  lemma SplitFromFirst(text: string, at: nat)
    requires FirstOccurrence(text, MARKER) == Some(at)
    ensures SplitFrom(text) == Some(text[at..])
  {
    FirstOccurrenceIsFirst(text, MARKER);
    assert text[at..] == text[at..at + |MARKER|] + text[at + |MARKER|..];
  }

  lemma OccursInPrefix(header: string, body: string, j: int)
    requires OccursAt(header, MARKER, j)
    ensures OccursAt(header + body, MARKER, j)
  {
    assert (header + body)[j..j + |MARKER|] == header[j..j + |MARKER|];
  }

  lemma FirstInHeader(header: string, body: string, at: nat)
    requires header != "" && header[|header| - 1] == '\n' && at < |header|
    requires OccursAt(header + body, MARKER, at)
    ensures StartsEarly(header, header[at..])
  {
    MarkerInsideHeader(header, body, at);
    assert header[at..][..|MARKER|] == header[at..at + |MARKER|];
    assert MARKER <= header[at..];
    assert Contains(header, MARKER);
  }

  lemma SplitHeader(header: string, body: string) returns (extra: string)
    requires header != "" && header[|header| - 1] == '\n' && MARKER <= body
    ensures SplitFrom(header + body) == Some(extra + body)
    ensures StartsEarly(header, extra)
  {
    var text := header + body;
    OccursAtSeam(header, body);
    hide OccursAt, FirstOccurrence, SplitFrom, StartsEarly;
    FirstOccurrenceIsFirst(text, MARKER);
    var at := FirstOccurrence(text, MARKER).value;
    assert at <= |header|;
    SplitFromFirst(text, at);
    extra := header[at..];
    SuffixOfConcat(header, body, at);
    if at < |header| {
      FirstInHeader(header, body, at);
    } else {
      NeverEarly(header, body);
    }
  }

  lemma SuffixOfConcat(a: string, b: string, i: nat)
    requires i <= |a|
    ensures (a + b)[i..] == a[i..] + b
  {
  }

  lemma OccursAtSeam(header: string, body: string)
    requires MARKER <= body
    ensures OccursAt(header + body, MARKER, |header|)
  {
    assert (header + body)[|header|..|header| + |MARKER|] == MARKER;
  }

  lemma NeverEarly(header: string, body: string)
    requires forall j :: 0 <= j < |header| ==> !OccursAt(header + body, MARKER, j)
    ensures StartsEarly(header, header[|header|..])
  {
    if Contains(header, MARKER) {
      var j :| 0 <= j <= |header| && OccursAt(header, MARKER, j);
      OccursInPrefix(header, body, j);
      OccursInside(header, MARKER, j);
    }
  }

  /**
   * There always is a reviewable text. It is the body, preceded by whatever follows an earlier
   * occurrence of the marker inside the header.
   */
  lemma ReviewableSplits(d: PublishedDocument, format: Format) returns (extra: string)
    ensures Reviewable(d, format) == Some(extra + Body(d, format.lower))
    ensures StartsEarly(Header(d, format), extra)
  {
    hide Header, Body, Rendered, StartsEarly, SplitFrom;
    RenderedSplits(d, format);
    BodyStarts(d, format.lower);
    HeaderEnds(d, format);
    extra := SplitHeader(Header(d, format), Body(d, format.lower));
  }

  // ---- when two statuses give the same reviewable text ----

  /** The number of characters after the last `#`. */
  function AfterHash(s: string): nat {
    if s == "" || s[|s| - 1] == '#' then 0 else AfterHash(s[..|s| - 1]) + 1
  }

  predicate HasHash(s: string) {
    '#' in s
  }

  /** A suffix with a `#` has its last one where the whole has it. */
  lemma {:induction false} AfterHashSuffix(p: string, s: string)
    requires HasHash(s)
    ensures AfterHash(p + s) == AfterHash(s)
    decreases |s|
  {
    if s[|s| - 1] != '#' {
      var init := s[..|s| - 1];
      assert s == init + [s[|s| - 1]];
      assert '#' in init;
      assert (p + s)[..|p + s| - 1] == p + init;
      AfterHashSuffix(p, init);
    }
  }

  /** Text without a `#` pushes the last one back. */
  lemma {:induction false} AfterHashPushed(s: string, w: string)
    requires HasHash(s) && !HasHash(w)
    ensures AfterHash(s + w) == AfterHash(s) + |w|
    decreases |w|
  {
    if w == "" {
      assert s + w == s;
    } else {
      var init := w[..|w| - 1];
      assert w == init + [w[|w| - 1]];
      assert (s + w)[..|s + w| - 1] == s + init;
      AfterHashPushed(s, init);
    }
  }

  /** The title line, which every status shares, and the blank line after it. */
  function TitleLine(d: PublishedDocument): string {
    "# " + d.qualifiedName + " — " + d.displayName + "\n\n"
  }

  lemma TitleEnds(d: PublishedDocument, format: Format) returns (front: string)
    ensures Title(d, format) == front + TitleLine(d)
  {
    var y := RStrip(format.yaml(FrontMatterOf(d)));
    var line := "# " + d.qualifiedName + " — " + d.displayName;
    front := "---\n" + y + "\n---\n\n";
    var parts := TitleParts(d, format);
    hide RStrip, FrontMatterOf;
    assert parts == ["---", y, "---", "", line, ""];
    JoinSix("---", y, "---", "", line, "");
    assert Title(d, format) == front + TitleLine(d);
  }

  lemma JoinSix(a: string, b: string, c: string, d: string, e: string, f: string)
    ensures Join("\n", [a, b, c, d, e, f]) == a + ("\n" + (b + ("\n" + (c + ("\n" + (d + ("\n" + (e + ("\n" + f)))))))))
  {
    JoinTwo(a, [b, c, d, e, f]);
    JoinTwo(b, [c, d, e, f]);
    JoinTwo(c, [d, e, f]);
    JoinTwo(d, [e, f]);
    JoinTwo(e, [f]);
  }

  lemma JoinTwo(first: string, rest: seq<string>)
    requires rest != []
    ensures Join("\n", [first] + rest) == first + ("\n" + Join("\n", rest))
  {
    assert ([first] + rest)[1..] == rest;
  }

  /** All text from an early marker on has its last `#` before the warning, as far from it as the title has. */
  lemma EarlyHash(d: PublishedDocument, format: Format, extra: string)
    requires StartsEarly(Header(d, format), extra) && extra != ""
    ensures HasHash(extra)
    ensures AfterHash(extra) == AfterHash(TitleLine(d)) + |Warning(d.documentStatus)|
  {
    var header, warning, line := Header(d, format), Warning(d.documentStatus), TitleLine(d);
    assert extra[0] == MARKER[0] == '#';
    var front := TitleEnds(d, format);
    assert header == (front + line) + warning;
    assert line[0] == '#';
    WarningHasNoHash(d.documentStatus);
    assert header == header[..|header| - |extra|] + extra;
    hide TitleLine, Warning, Header;
    AfterHashSuffix(header[..|header| - |extra|], extra);
    AfterHashSuffix(front, line);
    AfterHashPushed(front + line, warning);
  }

  lemma WarningHasNoHash(status: DocumentStatus)
    ensures !HasHash(Warning(status))
    ensures status.NeedsReview? ==> Warning(status) != ""
  {
    JoinTwo(WARNING[0], [WARNING[1], WARNING[2]]);
    JoinTwo(WARNING[1], [WARNING[2]]);
    assert WARNING == [WARNING[0]] + [WARNING[1], WARNING[2]];
    assert [WARNING[1], WARNING[2]] == [WARNING[1]] + [WARNING[2]];
    assert !HasHash(WARNING[0]) && !HasHash(PREVIEW_ONLY);
  }

  /**
   * Approving a document that needed review leaves the reviewable text alone exactly when the marker
   * is in neither header.
   */
  lemma SameReviewableExactly(review: PublishedDocument, approved: PublishedDocument, format: Format)
    requires SameContent(review, approved)
    requires review.documentStatus.NeedsReview? && approved.documentStatus.Approved?
    ensures Reviewable(review, format) == Reviewable(approved, format) <==>
              !Contains(Header(review, format), MARKER) && !Contains(Header(approved, format), MARKER)
  {
    var x := ReviewableSplits(review, format);
    var y := ReviewableSplits(approved, format);
    BodyIndependent(review, approved, format.lower);
    var body := Body(review, format.lower);
    hide Header, Body, Reviewable, AfterHash;
    if x + body == y + body {
      assert TitleLine(review) == TitleLine(approved);
      assert x == (x + body)[..|x + body| - |body|] == (y + body)[..|y + body| - |body|] == y;
      if x != "" {
        EarlyHash(review, format, x);
        EarlyHash(approved, format, y);
        WarningHasNoHash(NeedsReview);
      }
    }
  }
}
