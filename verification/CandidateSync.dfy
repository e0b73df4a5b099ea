/** The preflight of a candidate sync, and what decides about each table and generates its document. */
module CandidateSync {
  import opened Wrappers
  import opened Sorting
  import opened Dictionaries
  import opened Models
  import opened TblsSchema
  import opened SchemaHashing
  import opened ReviewValidation
  import opened Generators
  import opened PublishedValidation
  import opened Markdown
  import opened CandidateLifecycle
  import opened CandidatePlanning

  // ---- the inputs of a run ----

  /** A reviewer file; `None` if it cannot be parsed. */
  datatype ReviewFile = ReviewFile(path: string, content: Option<ReviewDocument>)

  /** What reviewers and maintainers edit. The files are in path order. */
  datatype Sources = Sources(
    schema: Option<DatabaseSchema>,
    schemaPath: string,
    contract: Option<ReviewContract>,
    inputs: Inputs,
    reviews: seq<ReviewFile>
  )

  datatype Identity = Identity(model: string, promptVersion: string)

  type Generator = PublicationContext -> Result<PublishedDocument, GenerationError>

  /** `identity` and `generator` are what the factories make, `None` where there is no factory. */
  datatype Request = Request(selected: seq<string>, commit: string, identity: Option<Identity>, generator: Option<Generator>)

  datatype Stored = Stored(candidate: Candidate, canonical: bool) | Unreadable

  /** Candidate and Markdown files by table. A candidate file is canonical if it has the bytes a writer gives it. */
  datatype Catalog = Catalog(candidates: map<string, Stored>, markdown: map<string, string>)

  datatype Toolbox = Toolbox(tools: Tools, hash: SchemaHasher)

  function ReviewTable(file: ReviewFile): string {
    if file.content.Some? then file.content.value.table else ""
  }

  // ---- preflight ----

  ghost predicate BlockedBy(schema: DatabaseSchema, contract: ReviewContract, review: ReviewDocument, box: Toolbox, f: Finding) {
    Reports(schema, contract, review, box.tools.format.lower, box.hash, f) && f.Blocks(review.documentStatus)
  }

  ghost predicate Unblocked(schema: DatabaseSchema, contract: ReviewContract, review: ReviewDocument, box: Toolbox) {
    forall f :: !BlockedBy(schema, contract, review, box, f)
  }

  /** Everything the review directory must satisfy before a run decides anything. */
  ghost predicate Clean(s: Sources, box: Toolbox) {
    && s.schema.Some? && s.contract.Some? && s.reviews != []
    && (forall file :: file in s.reviews ==> file.content.Some?)
    && DistinctKeys(s.reviews, ReviewTable)
    && (forall file :: file in s.reviews && file.content.Some? ==>
          Unblocked(s.schema.value, s.contract.value, file.content.value, box))
    && (forall t :: t in TableMap(s.schema.value.tables) ==> exists file :: file in s.reviews && ReviewTable(file) == t)
  }

  method CheckReview(schema: DatabaseSchema, contract: ReviewContract, review: ReviewDocument, box: Toolbox) returns (ok: bool)
    ensures ok <==> Unblocked(schema, contract, review, box)
  {
    hide Reports;
    var findings := ValidateReviewDocument(schema, contract, review, box.tools.format.lower, box.hash);
    for i := 0 to |findings|
      invariant forall k :: 0 <= k < i ==> !findings[k].Blocks(review.documentStatus)
    {
      if findings[i].Blocks(review.documentStatus) {
        assert findings[i] in findings;
        assert BlockedBy(schema, contract, review, box, findings[i]);
        return false;
      }
    }
    forall f ensures !BlockedBy(schema, contract, review, box, f) {
      assert Reports(schema, contract, review, box.tools.format.lower, box.hash, f) <==> f in findings;
    }
    return true;
  }

  method CheckTables(s: Sources, box: Toolbox) returns (ok: bool)
    requires s.schema.Some? && s.contract.Some?
    ensures ok <==>
              && (forall file :: file in s.reviews ==> file.content.Some?)
              && DistinctKeys(s.reviews, ReviewTable)
              && (forall file :: file in s.reviews && file.content.Some? ==>
                    Unblocked(s.schema.value, s.contract.value, file.content.value, box))
  {
    hide Unblocked;
    var seen: set<string> := {};
    for i := 0 to |s.reviews|
      invariant forall k :: 0 <= k < i ==>
                  s.reviews[k].content.Some? && Unblocked(s.schema.value, s.contract.value, s.reviews[k].content.value, box)
      invariant forall t :: t in seen <==> exists k :: 0 <= k < i && ReviewTable(s.reviews[k]) == t
      invariant DistinctKeys(s.reviews[..i], ReviewTable)
    {
      var file := s.reviews[i];
      assert file in s.reviews;
      assert s.reviews[..i + 1] == s.reviews[..i] + [file];
      if file.content.None? {
        return false;
      }
      var ok := CheckReview(s.schema.value, s.contract.value, file.content.value, box);
      if !ok {
        return false;
      }
      if file.content.value.table in seen {
        return false;
      }
      seen := seen + {file.content.value.table};
    }
    assert s.reviews[..|s.reviews|] == s.reviews;
    return true;
  }

  method ValidateReviewDirectory(s: Sources, box: Toolbox) returns (ok: bool)
    ensures ok <==> Clean(s, box)
  {
    hide Unblocked, DictBy;
    if s.schema.None? || s.contract.None? || s.reviews == [] {
      return false;
    }
    var checked := CheckTables(s, box);
    if !checked {
      return false;
    }
    var reviewed := set file | file in s.reviews :: ReviewTable(file);
    return TableMap(s.schema.value.tables).Keys <= reviewed;
  }

  lemma UnblockedKnown(schema: DatabaseSchema, contract: ReviewContract, review: ReviewDocument, box: Toolbox)
    requires Unblocked(schema, contract, review, box)
    ensures review.table in TableMap(schema.tables)
  {
    hide DictBy;
    assert !BlockedBy(schema, contract, review, box, UnknownTableFound);
  }

  // ---- one table's decision ----

  /** A missing, malformed or inconsistent file loads as no candidate. */
  function Load(candidates: map<string, Stored>, table: string): Option<Candidate> {
    if table in candidates && candidates[table].Stored? && candidates[table].candidate.Valid()
    then Some(candidates[table].candidate) else None
  }

  predicate Matches(c: Candidate, identity: Identity) {
    c.fingerprint.generatorModel == identity.model && c.fingerprint.promptVersion == identity.promptVersion
  }

  function DecideApproved(review: ReviewDocument, stored: Option<Candidate>, inputs: Inputs, commit: string, tools: Tools): Decision {
    if stored.None? then Fail(ApprovalWithoutReviewedCandidate)
    else if stored.value.stage.Promoted? then
      var checked := ValidateCandidate(stored.value, review, inputs, tools);
      if checked.Err? then Fail(checked.error) else Keep(stored.value)
    else
      var promoted := PromoteCandidate(stored.value, review, commit, inputs, tools);
      if promoted.Err? then Fail(promoted.error) else Promote(promoted.value)
  }

  function DecideInReview(review: ReviewDocument, stored: Option<Candidate>, inputs: Inputs, identity: Option<Identity>, tools: Tools): Decision {
    if stored.None? || !stored.value.stage.Review? then Regenerate
    else
      var checked := ValidateCandidate(stored.value, review, inputs, tools);
      if checked == Err(StaleCandidate) then Regenerate
      else if checked.Err? then Fail(checked.error)
      else if identity.Some? && !Matches(stored.value, identity.value) then Regenerate
      else Keep(stored.value)
  }

  function Decide(review: ReviewDocument, stored: Option<Candidate>, s: Sources, request: Request, box: Toolbox): Decision {
    if review.documentStatus.Approved? then DecideApproved(review, stored, s.inputs, request.commit, box.tools)
    else DecideInReview(review, stored, s.inputs, request.identity, box.tools)
  }

  /** Comparing a valid candidate of an unapproved review with the configured identity needs that identity. */
  predicate AsksIdentity(review: ReviewDocument, stored: Option<Candidate>, s: Sources, request: Request, box: Toolbox) {
    request.identity.Some? && review.documentStatus.NeedsReview? && stored.Some? && stored.value.stage.Review?
    && ValidateCandidate(stored.value, review, s.inputs, box.tools).Ok?
  }

  function ContextFor(file: Loaded, schema: DatabaseSchema, schemaPath: string, commit: string): PublicationContext
    requires file.review.table in TableMap(schema.tables)
  {
    PublicationContext(schema, TableMap(schema.tables)[file.review.table], file.review, schemaPath, file.path, commit)
  }

  /** The document a generation must yield: produced, accepted by the fact lock, and of the contract's version. */
  function Publication(context: PublicationContext, contract: ReviewContract, generator: Generator, hash: SchemaHasher): Result<PublishedDocument, SyncError> {
    match generator(context)
    case Err(_) => Err(PublicationFailed)
    case Ok(document) =>
      if PublishedIssues(context, document, hash) != [] || document.contractVersion != contract.contractVersion
      then Err(PublicationFailed) else Ok(document)
  }

  /** After a clean preflight schema, contract and table are there. */
  function PublishFor(file: Loaded, s: Sources, commit: string, generator: Generator, hash: SchemaHasher): Result<PublishedDocument, SyncError> {
    if s.schema.None? || s.contract.None? || file.review.table !in TableMap(s.schema.value.tables) then Err(PublicationFailed)
    else Publication(ContextFor(file, s.schema.value, s.schemaPath, commit), s.contract.value, generator, hash)
  }

  function CreateFor(document: PublishedDocument, file: Loaded, s: Sources, box: Toolbox): Result<Candidate, SyncError> {
    var created := CreateCandidate(document, file.review, s.inputs, box.tools);
    if created.Err? then Err(CandidateFailed(created.error)) else Ok(created.value)
  }

  /** What this run decides and generates, given the stored candidates. */
  function PlannerOf(candidates: map<string, Stored>, s: Sources, request: Request, box: Toolbox): Planner {
    Planner(
      (file: Loaded) => Decide(file.review, Load(candidates, file.review.table), s, request, box),
      (file: Loaded) => AsksIdentity(file.review, Load(candidates, file.review.table), s, request, box),
      if request.generator.None? then None
      else Some((file: Loaded) => PublishFor(file, s, request.commit, request.generator.value, box.hash)),
      (document: PublishedDocument, file: Loaded) => CreateFor(document, file, s, box))
  }

  // ---- the plan of a run ----

  /** The parsed files, in order. */
  function Parsed(files: seq<ReviewFile>): seq<Loaded> {
    if files == [] then []
    else
      var last := files[|files| - 1];
      Parsed(files[..|files| - 1]) + if last.content.Some? then [Loaded(last.path, last.content.value)] else []
  }

  lemma {:induction false} ParsedAll(files: seq<ReviewFile>)
    requires forall file :: file in files ==> file.content.Some?
    ensures |Parsed(files)| == |files|
    ensures forall i :: 0 <= i < |files| ==>
              files[i].content.Some? && Parsed(files)[i] == Loaded(files[i].path, files[i].content.value)
    decreases |files|
  {
    if files != [] {
      var last := |files| - 1;
      assert files[last] in files;
      ParsedAll(files[..last]);
      assert forall i :: 0 <= i < last ==> files[..last][i] == files[i];
    }
  }

  lemma ParsedDistinct(files: seq<ReviewFile>)
    requires (forall file :: file in files ==> file.content.Some?) && DistinctKeys(files, ReviewTable)
    ensures DistinctKeys(Parsed(files), TableOf)
  {
    ParsedAll(files);
    var loaded := Parsed(files);
    forall i, j | 0 <= i < j < |loaded| ensures TableOf(loaded[i]) != TableOf(loaded[j]) {
      assert ReviewTable(files[i]) != ReviewTable(files[j]);
    }
  }

  /** After a clean preflight a generation never lacks schema, contract or table. */
  lemma CleanKnown(s: Sources, box: Toolbox, file: Loaded)
    requires Clean(s, box) && file in Parsed(s.reviews)
    ensures s.schema.Some? && s.contract.Some? && file.review.table in TableMap(s.schema.value.tables)
  {
    hide Unblocked, TableMap, DistinctKeys;
    ParsedAll(s.reviews);
    var i :| 0 <= i < |s.reviews| && Parsed(s.reviews)[i] == file;
    assert s.reviews[i] in s.reviews;
    UnblockedKnown(s.schema.value, s.contract.value, file.review, box);
  }

  /** The items a run writes: one per selected review, in table order. */
  ghost predicate PlansFor(batch: seq<Item>, candidates: map<string, Stored>, s: Sources, request: Request, box: Toolbox) {
    Plans(batch, Parsed(s.reviews), request.selected, PlannerOf(candidates, s, request, box))
  }

  /** What a run plans after a clean preflight. */
  ghost predicate IsPlan(batch: seq<Item>, candidates: map<string, Stored>, s: Sources, request: Request, box: Toolbox) {
    Clean(s, box) && PlansFor(batch, candidates, s, request, box)
  }

  /** Whether planning succeeds. */
  ghost predicate Plannable(candidates: map<string, Stored>, s: Sources, request: Request, box: Toolbox) {
    Clean(s, box) && CanPlan(Parsed(s.reviews), request.selected, PlannerOf(candidates, s, request, box))
  }

  /** An accepted document is about the context's table, in the review's status and contract version. */
  lemma AcceptedIdentity(context: PublicationContext, document: PublishedDocument, hash: SchemaHasher)
    requires PublishedIssues(context, document, hash) == []
    ensures document.database == context.review.database && document.table == context.review.table
    ensures document.documentStatus == context.review.documentStatus
    ensures document.contractVersion == context.review.contractVersion
  {
    hide PublishedIssues, PublishedValidation.SameColumns, SameRelationships, SameRules;
    AcceptsExactly(context, document, hash);
  }

  lemma PublishedOnTable(file: Loaded, s: Sources, commit: string, generator: Generator, hash: SchemaHasher)
    requires PublishFor(file, s, commit, generator, hash).Ok?
    ensures PublishFor(file, s, commit, generator, hash).value.table == TableOf(file)
    ensures PublishFor(file, s, commit, generator, hash).value.database == file.review.database
  {
    hide PublishedIssues, TableMap;
    var document := PublishFor(file, s, commit, generator, hash).value;
    AcceptedIdentity(ContextFor(file, s.schema.value, s.schemaPath, commit), document, hash);
  }

  lemma PlannerOnTable(candidates: map<string, Stored>, s: Sources, request: Request, box: Toolbox)
    ensures OnTable(PlannerOf(candidates, s, request, box))
  {
    hide PublishFor, Decide, AsksIdentity, CreateFor;
    var plan := PlannerOf(candidates, s, request, box);
    if plan.publish.Some? {
      forall file | plan.publish.value(file).Ok? ensures plan.publish.value(file).value.table == TableOf(file) {
        PublishedOnTable(file, s, request.commit, request.generator.value, box.hash);
      }
    }
  }

  /** An approved review is never regenerated and asks for no identity. */
  lemma ApprovedQuiet(file: Loaded, candidates: map<string, Stored>, s: Sources, request: Request, box: Toolbox)
    requires file.review.documentStatus.Approved?
    ensures var plan := PlannerOf(candidates, s, request, box); !plan.asks(file) && !plan.decide(file).Regenerate?
  {
    hide ValidateCandidate, PromoteCandidate, Load, PublishFor, CreateFor;
  }

  lemma PlannerAsks(file: Loaded, candidates: map<string, Stored>, s: Sources, request: Request, box: Toolbox)
    ensures var plan := PlannerOf(candidates, s, request, box);
            plan.asks(file) == AsksIdentity(file.review, Load(candidates, TableOf(file)), s, request, box)
            && plan.decide(file) == Decide(file.review, Load(candidates, TableOf(file)), s, request, box)
  {
    hide AsksIdentity, Decide, Load;
  }

  /**
   * Decides every selected table, then generates what is missing; nothing is written. A run whose selected
   * reviews are all approved calls neither factory.
   */
  method PrepareCandidateSync(candidates: map<string, Stored>, s: Sources, request: Request, box: Toolbox)
    returns (r: Result<seq<Item>, SyncError>, calls: Calls)
    ensures r.Ok? <==> Plannable(candidates, s, request, box)
    ensures r.Ok? ==> IsPlan(r.value, candidates, s, request, box)
    ensures calls.identity <= 1 && calls.generator <= 1
    ensures (forall file :: file in Parsed(s.reviews) && IsSelected(file, request.selected) ==>
               file.review.documentStatus.Approved?) ==> calls == Calls(0, 0)
    ensures r.Ok? ==> (calls.identity == 1 <==> exists file :: file in Parsed(s.reviews) && IsSelected(file, request.selected)
                                                  && AsksIdentity(file.review, Load(candidates, TableOf(file)), s, request, box))
    ensures r.Ok? ==> (calls.generator == 1 <==> exists file :: file in Parsed(s.reviews) && IsSelected(file, request.selected)
                                                   && Decide(file.review, Load(candidates, TableOf(file)), s, request, box).Regenerate?)
  {
    hide PlannerOf, Plans, CanPlan, OnTable, IsSelected, DistinctKeys, Unblocked, TableMap;
    var clean := ValidateReviewDirectory(s, box);
    if !clean {
      return Err(PreflightFailed), Calls(0, 0);
    }
    ParsedDistinct(s.reviews);
    PlannerOnTable(candidates, s, request, box);
    forall file: Loaded | file.review.documentStatus.Approved? { ApprovedQuiet(file, candidates, s, request, box); }
    forall file: Loaded { PlannerAsks(file, candidates, s, request, box); }
    r, calls := PlanSync(Parsed(s.reviews), request.selected, PlannerOf(candidates, s, request, box));
  }
}
