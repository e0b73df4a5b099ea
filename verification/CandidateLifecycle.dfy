/** Freezing a generated document as a candidate, checking it, and promoting it without regeneration. */
module CandidateLifecycle {
  import opened Wrappers
  import opened Text
  import opened Models
  import opened Dumps
  import opened Markdown

  datatype Fingerprint = Fingerprint(
    schemaHash: string,
    reviewContentHash: string,
    contractHash: string,
    guidelineHash: string,
    generatorModel: string,
    promptVersion: string,
    inputHash: string
  )

  datatype Stage = Review | Promoted

  datatype Candidate = Candidate(
    database: string,
    table: string,
    stage: Stage,
    fingerprint: Fingerprint,
    candidateHash: string,
    reviewableBodyHash: string,
    document: PublishedDocument
  ) {
    /** What the record's constructor checks; a computed digest always has its form. */
    predicate Valid() {
      && database != "" && table != ""
      && fingerprint.generatorModel != "" && fingerprint.promptVersion != ""
      && database == document.database && table == document.table
      && document.Valid()
      && (stage.Review? <==> document.documentStatus.NeedsReview?)
    }
  }

  datatype CandidateError =
    | CandidateRequiresReview | CandidateStatusMismatch | CandidateIdentityMismatch | StaleCandidate
    | TamperedDocument | TamperedBody | InvalidCandidateState | ApprovalRequired
    | ApprovalWithoutReviewedCandidate | ApprovalChangedNarrative | InvalidCandidateMarkdown
    | MissingGenerationInput | InvalidRecord

  /** The bytes of the contract and guideline files, `None` when a file cannot be read. */
  datatype Inputs = Inputs(contract: Option<string>, guideline: Option<string>)

  /** The two hashes, of JSON data and of bytes, and the text format. UTF-8 encoding loses nothing. */
  datatype Tools = Tools(json: Json -> string, bytes: string -> string, format: Format)

  ghost predicate CollisionFree(tools: Tools) {
    Injective(tools.json) && Injective(tools.bytes)
  }

  // ---- fingerprints and hashes ----

  const COMPONENT_FIELDS := [
    "schema_hash", "review_content_hash", "contract_hash", "guideline_hash", "generator_model", "prompt_version"]

  function ComponentValues(f: Fingerprint): seq<Json> {
    [JStr(f.schemaHash), JStr(f.reviewContentHash), JStr(f.contractHash), JStr(f.guidelineHash),
     JStr(f.generatorModel), JStr(f.promptVersion)]
  }

  function ReviewContentHash(review: ReviewDocument, tools: Tools): string {
    tools.json(Pop(DumpReview(review), {"document_status"}))
  }

  function BuildFingerprint(review: ReviewDocument, inputs: Inputs, model: string, prompt: string, tools: Tools): Result<Fingerprint, CandidateError> {
    if inputs.contract.None? || inputs.guideline.None? then Err(MissingGenerationInput)
    else
      var f := Fingerprint(review.schemaHash, ReviewContentHash(review, tools), tools.bytes(inputs.contract.value),
                           tools.bytes(inputs.guideline.value), model, prompt, "");
      Ok(f.(inputHash := tools.json(Record(COMPONENT_FIELDS, ComponentValues(f)))))
  }

  function CandidateHash(d: PublishedDocument, tools: Tools): string {
    tools.json(ContentPayload(d))
  }

  function ReviewableBodyHash(d: PublishedDocument, tools: Tools): Result<string, CandidateError> {
    var body := Reviewable(d, tools.format);
    if body.None? then Err(InvalidCandidateMarkdown) else Ok(tools.bytes(body.value))
  }

  // ---- operations ----

  function CreateCandidate(document: PublishedDocument, review: ReviewDocument, inputs: Inputs, tools: Tools): Result<Candidate, CandidateError> {
    if !review.documentStatus.NeedsReview? then Err(CandidateRequiresReview)
    else if !document.documentStatus.NeedsReview? then Err(CandidateStatusMismatch)
    else
      var fingerprint := BuildFingerprint(review, inputs, document.provenance.generatorModel, document.provenance.promptVersion, tools);
      var bodyHash := ReviewableBodyHash(document, tools);
      if fingerprint.Err? then Err(fingerprint.error)
      else if bodyHash.Err? then Err(bodyHash.error)
      else
        CheckedCandidate(Candidate(document.database, document.table, Review, fingerprint.value,
                                   CandidateHash(document, tools), bodyHash.value, document))
  }

  function CheckedCandidate(c: Candidate): Result<Candidate, CandidateError> {
    if c.Valid() then Ok(c) else Err(InvalidRecord)
  }

  function CheckIntegrity(c: Candidate, tools: Tools): Result<(), CandidateError> {
    if c.candidateHash != CandidateHash(c.document, tools) then Err(TamperedDocument)
    else
      var bodyHash := ReviewableBodyHash(c.document, tools);
      if bodyHash.Err? then Err(bodyHash.error)
      else if c.reviewableBodyHash != bodyHash.value then Err(TamperedBody)
      else Ok(())
  }

  function ValidateCandidate(c: Candidate, review: ReviewDocument, inputs: Inputs, tools: Tools): Result<(), CandidateError> {
    if c.database != review.database || c.table != review.table then Err(CandidateIdentityMismatch)
    else
      var expected := BuildFingerprint(review, inputs, c.document.provenance.generatorModel, c.document.provenance.promptVersion, tools);
      if expected.Err? then Err(expected.error)
      else if c.fingerprint != expected.value then Err(StaleCandidate)
      else CheckIntegrity(c, tools)
  }

  function ApprovedDocument(d: PublishedDocument, commit: string): PublishedDocument {
    d.(documentStatus := Approved, indexEligible := true, provenance := d.provenance.(sourceReviewCommit := commit))
  }

  function PromoteCandidate(c: Candidate, review: ReviewDocument, commit: string, inputs: Inputs, tools: Tools): Result<Candidate, CandidateError> {
    if !c.stage.Review? then Err(InvalidCandidateState)
    else if !review.documentStatus.Approved? then Err(ApprovalRequired)
    else
      var checked := ValidateCandidate(c, review, inputs, tools);
      if checked == Err(StaleCandidate) then Err(ApprovalWithoutReviewedCandidate)
      else if checked.Err? then Err(checked.error)
      else
        var approved := ApprovedDocument(c.document, commit);
        var bodyHash := ReviewableBodyHash(approved, tools);
        if !approved.Valid() then Err(InvalidRecord)
        else if bodyHash.Err? then Err(bodyHash.error)
        else if bodyHash.value != c.reviewableBodyHash then Err(ApprovalChangedNarrative)
        else CheckedCandidate(c.(stage := Promoted, document := approved))
  }

  // ---- what the hashes bind ----

  /** The content of two reviews, whatever their status. */
  predicate SameReview(a: ReviewDocument, b: ReviewDocument) {
    a.(documentStatus := b.documentStatus) == b
  }

  lemma ReviewHashExact(a: ReviewDocument, b: ReviewDocument, tools: Tools)
    requires CollisionFree(tools)
    ensures ReviewContentHash(a, tools) == ReviewContentHash(b, tools) <==> SameReview(a, b)
  {
    hide DumpReview;
    ReviewDumps(a);
    ReviewDumps(b);
    if ReviewContentHash(a, tools) == ReviewContentHash(b, tools) {
      ReviewContentAgrees(a, b);
    }
    if SameReview(a, b) {
      ReviewStatusPopped(a, b.documentStatus);
    }
  }

  lemma ReviewDumps(r: ReviewDocument)
    ensures DumpReview(r).JObj?
  {
  }

  /**
   * A fingerprint binds the review's content, both files, the model and the prompt, and nothing else:
   * not the review's status.
   */
  lemma FingerprintExact(a: ReviewDocument, x: Inputs, model: string, prompt: string,
                         b: ReviewDocument, y: Inputs, otherModel: string, otherPrompt: string, tools: Tools)
    requires CollisionFree(tools)
    requires BuildFingerprint(a, x, model, prompt, tools).Ok? && BuildFingerprint(b, y, otherModel, otherPrompt, tools).Ok?
    ensures BuildFingerprint(a, x, model, prompt, tools) == BuildFingerprint(b, y, otherModel, otherPrompt, tools) <==>
              SameReview(a, b) && x == y && model == otherModel && prompt == otherPrompt
  {
    hide ReviewContentHash, Record;
    ReviewHashExact(a, b, tools);
    var f, g := BuildFingerprint(a, x, model, prompt, tools).value, BuildFingerprint(b, y, otherModel, otherPrompt, tools).value;
    if f == g {
      assert tools.bytes(x.contract.value) == tools.bytes(y.contract.value);
      assert tools.bytes(x.guideline.value) == tools.bytes(y.guideline.value);
    }
  }

  /** A candidate hash binds the document up to status, eligibility and source commit. */
  lemma CandidateHashExact(a: PublishedDocument, b: PublishedDocument, tools: Tools)
    requires CollisionFree(tools)
    ensures CandidateHash(a, tools) == CandidateHash(b, tools) <==> SameNarrative(a, b)
  {
    hide ContentPayload;
    PayloadExact(a, b);
  }

  /** A body hash always exists, and binds the reviewable text. */
  lemma BodyHashExact(a: PublishedDocument, b: PublishedDocument, tools: Tools)
    requires CollisionFree(tools)
    ensures ReviewableBodyHash(a, tools).Ok?
    ensures ReviewableBodyHash(a, tools) == ReviewableBodyHash(b, tools) <==>
              Reviewable(a, tools.format) == Reviewable(b, tools.format)
  {
    hide Reviewable;
    var _ := ReviewableSplits(a, tools.format);
    var _ := ReviewableSplits(b, tools.format);
  }

  // ---- life cycle ----

  /** The document's part of a candidate is what its hashes say. */
  lemma IntegrityExact(c: Candidate, tools: Tools)
    ensures CheckIntegrity(c, tools).Ok? <==>
              c.candidateHash == CandidateHash(c.document, tools)
              && ReviewableBodyHash(c.document, tools) == Ok(c.reviewableBodyHash)
  {
    hide CandidateHash, ReviewableBodyHash;
  }

  /** A fresh candidate passes validation exactly against reviews of its table, and carries the document. */
  lemma CreatedValidates(document: PublishedDocument, review: ReviewDocument, inputs: Inputs, tools: Tools)
    requires CreateCandidate(document, review, inputs, tools).Ok?
    ensures var c := CreateCandidate(document, review, inputs, tools).value;
            && c.Valid() && c.stage.Review? && c.document == document && CheckIntegrity(c, tools).Ok?
            && (ValidateCandidate(c, review, inputs, tools).Ok? <==>
                  document.database == review.database && document.table == review.table)
  {
    hide CandidateHash, ReviewableBodyHash, ReviewContentHash, Record;
  }

  /**
   * A candidate made from one review validates against another exactly when the other has the same
   * content up to status and the same two files, and names the candidate's table.
   */
  lemma ValidatesExactly(document: PublishedDocument, review: ReviewDocument, inputs: Inputs,
                         later: ReviewDocument, laterInputs: Inputs, tools: Tools)
    requires CollisionFree(tools)
    requires CreateCandidate(document, review, inputs, tools).Ok?
    ensures ValidateCandidate(CreateCandidate(document, review, inputs, tools).value, later, laterInputs, tools).Ok? <==>
              SameReview(review, later) && laterInputs == inputs
              && document.database == later.database && document.table == later.table
  {
    hide CandidateHash, ReviewableBodyHash, ReviewContentHash, Record, CheckIntegrity;
    CreatedValidates(document, review, inputs, tools);
    var model, prompt := document.provenance.generatorModel, document.provenance.promptVersion;
    if laterInputs.contract.Some? && laterInputs.guideline.Some? {
      FingerprintExact(review, inputs, model, prompt, later, laterInputs, model, prompt, tools);
    }
  }

  /** Replacing the document of an intact candidate is noticed unless the narrative stays the same. */
  lemma TamperingDetected(c: Candidate, other: PublishedDocument, tools: Tools)
    requires CollisionFree(tools) && CheckIntegrity(c, tools).Ok?
    ensures CheckIntegrity(c.(document := other), tools).Ok? ==>
              SameNarrative(c.document, other) && Reviewable(c.document, tools.format) == Reviewable(other, tools.format)
  {
    hide CandidateHash, ReviewableBodyHash, Reviewable;
    CandidateHashExact(c.document, other, tools);
    BodyHashExact(c.document, other, tools);
  }

  lemma ApprovedNarrative(d: PublishedDocument, commit: string)
    ensures SameNarrative(d, ApprovedDocument(d, commit))
    ensures SameContent(d, ApprovedDocument(d, commit))
  {
  }

  lemma ApprovedValid(d: PublishedDocument, commit: string)
    requires d.Valid()
    ensures ApprovedDocument(d, commit).Valid() <==> IsCommit(commit)
  {
    var e := ApprovedDocument(d, commit);
    assert e.columns == d.columns && e.relationships == d.relationships && e.businessRules == d.businessRules;
    assert d.Consistent() ==> e.Consistent();
    assert d.provenance.Valid();
    assert e.provenance.Valid() <==> IsCommit(commit);
  }

  /** The headers of both states leave the marker to the body. */
  ghost predicate MarkerFree(d: PublishedDocument, commit: string, format: Format) {
    !Contains(Header(d, format), MARKER) && !Contains(Header(ApprovedDocument(d, commit), format), MARKER)
  }

  /**
   * Promotion of a valid unchanged candidate fails only for a malformed commit, or when the marker is
   * in one of the two headers.
   */
  lemma PromotesExactly(c: Candidate, review: ReviewDocument, commit: string, inputs: Inputs, tools: Tools)
    requires CollisionFree(tools) && c.Valid() && c.stage.Review?
    requires review.documentStatus.Approved? && ValidateCandidate(c, review, inputs, tools).Ok?
    ensures PromoteCandidate(c, review, commit, inputs, tools).Ok? <==>
              IsCommit(commit) && MarkerFree(c.document, commit, tools.format)
    ensures IsCommit(commit) && !MarkerFree(c.document, commit, tools.format) ==>
              PromoteCandidate(c, review, commit, inputs, tools) == Err(ApprovalChangedNarrative)
  {
    hide CandidateHash, ReviewableBodyHash, BuildFingerprint, Reviewable;
    var approved := ApprovedDocument(c.document, commit);
    ApprovedNarrative(c.document, commit);
    ApprovedValid(c.document, commit);
    IntegrityExact(c, tools);
    BodyHashExact(c.document, approved, tools);
    BodyHashExact(approved, c.document, tools);
    SameReviewableExactly(c.document, approved, tools.format);
  }

  /**
   * A promotion changes nothing but state, status, eligibility and commit: the reviewable text is the one
   * reviewed, and the result again passes validation against the approved review.
   */
  lemma PromotedUnchanged(c: Candidate, review: ReviewDocument, commit: string, inputs: Inputs, tools: Tools)
    requires CollisionFree(tools)
    requires PromoteCandidate(c, review, commit, inputs, tools).Ok?
    ensures var p := PromoteCandidate(c, review, commit, inputs, tools).value;
            && p.Valid() && p.stage.Promoted?
            && p == c.(stage := Promoted, document := ApprovedDocument(c.document, commit))
            && Reviewable(p.document, tools.format) == Reviewable(c.document, tools.format)
            && ValidateCandidate(p, review, inputs, tools).Ok?
  {
    hide CandidateHash, ReviewableBodyHash, ReviewContentHash, Record, Reviewable;
    var approved := ApprovedDocument(c.document, commit);
    ApprovedNarrative(c.document, commit);
    IntegrityExact(c, tools);
    IntegrityExact(c.(stage := Promoted, document := approved), tools);
    CandidateHashExact(c.document, approved, tools);
    BodyHashExact(c.document, approved, tools);
  }

  lemma TitleCarries(d: PublishedDocument, format: Format)
    requires Contains(d.displayName, MARKER)
    ensures Contains(Header(d, format), MARKER)
  {
    var start := "# " + d.qualifiedName + " — ";
    ContainsRight(start, d.displayName, MARKER);
    ContainsLeft(start + d.displayName, "\n\n", MARKER);
    assert TitleLine(d) == start + d.displayName + "\n\n";
    var front := TitleEnds(d, format);
    ContainsRight(front, TitleLine(d), MARKER);
    ContainsLeft(Title(d, format), Warning(d.documentStatus), MARKER);
  }

  /**
   * A display name can block promotion: a valid unchanged candidate titled `## Summary`, a line break and
   * anything more is never promoted, whatever the commit.
   */
  lemma TitledMarkerRefused(c: Candidate, review: ReviewDocument, commit: string, inputs: Inputs, tools: Tools)
    requires CollisionFree(tools) && c.Valid() && c.stage.Review?
    requires review.documentStatus.Approved? && ValidateCandidate(c, review, inputs, tools).Ok?
    requires MARKER <= c.document.displayName
    ensures PromoteCandidate(c, review, commit, inputs, tools).Err?
  {
    hide ValidateCandidate, PromoteCandidate, Header;
    assert OccursAt(c.document.displayName, MARKER, 0);
    TitleCarries(c.document, tools.format);
    PromotesExactly(c, review, commit, inputs, tools);
  }
}
