/** Which stored candidates are current, what a sync leaves stored, and exactly when it can proceed. */
module CurrentCandidates {
  import opened Wrappers
  import opened Dictionaries
  import opened Models
  import opened Dumps
  import opened TblsSchema
  import opened Generators
  import opened PublishedValidation
  import opened DocumentFacts
  import opened Markdown
  import opened CandidateLifecycle
  import opened CandidatePlanning
  import opened CandidateSync
  import opened CandidateRuns

  // ---- what validation looks at ----

  predicate NamesFit(c: Candidate, review: ReviewDocument) {
    c.database == review.database && c.table == review.table
  }

  predicate HasInputs(inputs: Inputs) {
    inputs.contract.Some? && inputs.guideline.Some?
  }

  /** The fingerprint is of this review, of these files, and of the generator the document names. */
  predicate Fresh(c: Candidate, review: ReviewDocument, inputs: Inputs, tools: Tools)
    requires HasInputs(inputs)
  {
    var f := c.fingerprint;
    && f.schemaHash == review.schemaHash && f.reviewContentHash == ReviewContentHash(review, tools)
    && f.contractHash == tools.bytes(inputs.contract.value) && f.guidelineHash == tools.bytes(inputs.guideline.value)
    && f.generatorModel == c.document.provenance.generatorModel && f.promptVersion == c.document.provenance.promptVersion
    && f.inputHash == tools.json(Record(COMPONENT_FIELDS, ComponentValues(f)))
  }

  /** The document is the one that was frozen. */
  predicate Intact(c: Candidate, tools: Tools) {
    && c.candidateHash == CandidateHash(c.document, tools)
    && ReviewableBodyHash(c.document, tools) == Ok(c.reviewableBodyHash)
  }

  predicate Upholds(c: Candidate, review: ReviewDocument, inputs: Inputs, tools: Tools) {
    NamesFit(c, review) && HasInputs(inputs) && Fresh(c, review, inputs, tools) && Intact(c, tools)
  }

  /** Validation is exactly this, and staleness exactly a fingerprint of something else. */
  lemma ValidationExactly(c: Candidate, review: ReviewDocument, inputs: Inputs, tools: Tools)
    ensures ValidateCandidate(c, review, inputs, tools).Ok? <==> Upholds(c, review, inputs, tools)
    ensures ValidateCandidate(c, review, inputs, tools) == Err(StaleCandidate) <==>
              NamesFit(c, review) && HasInputs(inputs) && !Fresh(c, review, inputs, tools)
  {
    IntegrityExact(c, tools);
    NeverStale(c, tools);
    hide CheckIntegrity, CandidateHash, ReviewableBodyHash, ReviewContentHash, Record, ComponentValues;
    if HasInputs(inputs) {
      FreshExactly(c, review, inputs, tools);
    }
  }

  lemma NeverStale(c: Candidate, tools: Tools)
    ensures CheckIntegrity(c, tools) != Err(StaleCandidate)
  {
    hide CandidateHash, Reviewable;
  }

  lemma FreshExactly(c: Candidate, review: ReviewDocument, inputs: Inputs, tools: Tools)
    requires HasInputs(inputs)
    ensures var expected := BuildFingerprint(review, inputs, c.document.provenance.generatorModel, c.document.provenance.promptVersion, tools);
            expected.Ok? && (c.fingerprint == expected.value <==> Fresh(c, review, inputs, tools))
  {
    hide ReviewContentHash, Record;
  }

  // ---- current candidates ----

  /**
   * Nothing is to be done about this candidate: it holds for the review as it is, is in the stage the review's
   * status asks for, and an open review's candidate is of the configured generator.
   */
  predicate Current(c: Candidate, review: ReviewDocument, inputs: Inputs, identity: Option<Identity>, tools: Tools) {
    && c.Valid() && Upholds(c, review, inputs, tools)
    && (c.stage == Promoted <==> review.documentStatus == Approved)
    && (review.documentStatus == NeedsReview && identity.Some? ==>
          c.fingerprint.generatorModel == identity.value.model && c.fingerprint.promptVersion == identity.value.promptVersion)
  }

  /** A table is left alone exactly when its stored candidate is current, and then with that candidate. */
  lemma KeptExactly(file: Loaded, candidates: map<string, Stored>, s: Sources, request: Request, box: Toolbox, c: Candidate)
    ensures Decide(file.review, Load(candidates, TableOf(file)), s, request, box) == Keep(c) <==>
              Load(candidates, TableOf(file)) == Some(c) && Current(c, file.review, s.inputs, request.identity, box.tools)
  {
    LoadValid(candidates, TableOf(file));
    ValidationExactly(c, file.review, s.inputs, box.tools);
    hide ValidateCandidate, PromoteCandidate, Upholds, Candidate.Valid, Load;
  }

  /** Comparing with the configured identity is needed exactly for candidates that are current but for it. */
  lemma AsksExactly(file: Loaded, candidates: map<string, Stored>, s: Sources, request: Request, box: Toolbox)
    ensures AsksIdentity(file.review, Load(candidates, TableOf(file)), s, request, box) <==>
              request.identity.Some? && file.review.documentStatus == NeedsReview
              && exists c :: Load(candidates, TableOf(file)) == Some(c) && Current(c, file.review, s.inputs, None, box.tools)
  {
    LoadValid(candidates, TableOf(file));
    var stored := Load(candidates, TableOf(file));
    if stored.Some? {
      ValidationExactly(stored.value, file.review, s.inputs, box.tools);
    }
    hide ValidateCandidate, Upholds, Candidate.Valid, Load;
  }

  /** A decision that did not ask for the identity is the same whatever identity is configured. */
  lemma UnaskedSame(review: ReviewDocument, stored: Option<Candidate>, s: Sources, request: Request, other: Identity, box: Toolbox)
    requires request.identity.Some? && !AsksIdentity(review, stored, s, request, box)
    ensures Decide(review, stored, s, request, box) == Decide(review, stored, s, request.(identity := Some(other)), box)
  {
    hide ValidateCandidate, PromoteCandidate;
  }

  lemma CreatedUpholds(document: PublishedDocument, review: ReviewDocument, inputs: Inputs, tools: Tools)
    requires CreateCandidate(document, review, inputs, tools).Ok?
    requires document.database == review.database && document.table == review.table
    ensures var c := CreateCandidate(document, review, inputs, tools).value;
            && c.Valid() && c.stage == Review && c.document == document && Upholds(c, review, inputs, tools)
            && review.documentStatus == NeedsReview
  {
    CreatedValidates(document, review, inputs, tools);
    CreatedOpen(document, review, inputs, tools);
    hide CreateCandidate;
    ValidationExactly(CreateCandidate(document, review, inputs, tools).value, review, inputs, tools);
    hide ValidateCandidate, Upholds, Candidate.Valid, CheckIntegrity;
  }

  lemma CreatedOpen(document: PublishedDocument, review: ReviewDocument, inputs: Inputs, tools: Tools)
    requires CreateCandidate(document, review, inputs, tools).Ok?
    ensures review.documentStatus == NeedsReview
  {
    hide BuildFingerprint, ReviewableBodyHash, CandidateHash, Candidate.Valid;
  }

  /** Whatever a run plans for a table, kept, promoted or generated, is current. */
  lemma PlannedCurrent(file: Loaded, candidates: map<string, Stored>, s: Sources, request: Request, box: Toolbox, item: Item)
    requires CollisionFree(box.tools) && OwnIdentity(item, request.identity)
    requires ItemFor(file, PlannerOf(candidates, s, request, box)) == Some(item)
    ensures item.table == TableOf(file) && Current(item.candidate, file.review, s.inputs, request.identity, box.tools)
  {
    hide Decide, PublishFor, CreateFor, CreateCandidate, Load, AsksIdentity, CollisionFree, Candidate.Valid, Upholds, PromoteCandidate, ValidateCandidate;
    var review, c := file.review, item.candidate;
    var stored := Load(candidates, review.table);
    match Decide(review, stored, s, request, box)
    case Keep(k) => KeptExactly(file, candidates, s, request, box, k);
    case Promote(p) =>
      DecidedPromotion(review, stored, s, request, box, p);
      PromotedUnchanged(stored.value, review, request.commit, s.inputs, box.tools);
      PromotionStage(stored.value, review, request.commit, s.inputs, box.tools);
      ValidationExactly(p, review, s.inputs, box.tools);
    case Fail(_) =>
    case Regenerate =>
      var document := PublishFor(file, s, request.commit, request.generator.value, box.hash).value;
      PublishedOnTable(file, s, request.commit, request.generator.value, box.hash);
      CreatedFrom(document, file, s, box);
      CreatedUpholds(document, review, s.inputs, box.tools);
  }

  // ---- after a completed sync ----

  /** The table's candidate file holds this candidate, in the bytes a writer gives it. */
  predicate StoredAs(candidates: map<string, Stored>, t: string, c: Candidate) {
    t in candidates && candidates[t] == Stored(c, true)
  }

  /** After a completed sync every selected review's stored candidate is current. */
  lemma SyncLeavesCurrent(catalog: Catalog, batch: seq<Item>, s: Sources, request: Request, box: Toolbox, file: Loaded)
    requires CollisionFree(box.tools) && PlansFor(batch, catalog.candidates, s, request, box) && AllOwn(batch, request.identity)
    requires file in Parsed(s.reviews) && (request.selected == [] || TableOf(file) in request.selected)
    ensures exists c :: StoredAs(AllWritten(catalog, batch, box.tools.format).candidates, TableOf(file), c)
              && Current(c, file.review, s.inputs, request.identity, box.tools)
  {
    hide Plans, PlannerOf, ItemFor, OwnIdentity, AllWritten, CollisionFree, Current, IsSelected, OneItemPerTable;
    var files, plan := Parsed(s.reviews), PlannerOf(catalog.candidates, s, request, box);
    PlanTables(batch, files, request.selected, plan);
    var item := PlannedFor(batch, files, request.selected, plan, file);
    PlannedCurrent(file, catalog.candidates, s, request, box, item);
    FinalAt(catalog, batch, box.tools.format, item.table, item);
    assert StoredAs(AllWritten(catalog, batch, box.tools.format).candidates, TableOf(file), item.candidate);
  }

  /**
   * A completed sync leaves a stored candidate alone exactly when it was current: a stale one, one of another
   * generator, one in the wrong stage and an unreadable one are all replaced.
   */
  lemma LeftAloneExactly(catalog: Catalog, batch: seq<Item>, s: Sources, request: Request, box: Toolbox, file: Loaded, c: Candidate)
    requires CollisionFree(box.tools) && PlansFor(batch, catalog.candidates, s, request, box) && AllOwn(batch, request.identity)
    requires file in Parsed(s.reviews) && (request.selected == [] || TableOf(file) in request.selected)
    requires StoredAs(catalog.candidates, TableOf(file), c)
    ensures StoredAs(AllWritten(catalog, batch, box.tools.format).candidates, TableOf(file), c) <==>
              Current(c, file.review, s.inputs, request.identity, box.tools)
  {
    hide Plans, PlannerOf, AllWritten, CollisionFree, IsSelected, Current, AllOwn;
    SyncLeavesCurrent(catalog, batch, s, request, box, file);
    if Current(c, file.review, s.inputs, request.identity, box.tools) {
      CurrentStays(catalog, batch, s, request, box, file, c);
    }
  }

  lemma KeptItem(file: Loaded, candidates: map<string, Stored>, s: Sources, request: Request, box: Toolbox, c: Candidate, item: Item)
    requires StoredAs(candidates, TableOf(file), c)
    requires Current(c, file.review, s.inputs, request.identity, box.tools)
    requires ItemFor(file, PlannerOf(candidates, s, request, box)) == Some(item)
    ensures item.candidate == c
  {
    hide Decide, Upholds, Candidate.Valid, PublishFor, CreateFor, AsksIdentity;
    KeptExactly(file, candidates, s, request, box, c);
  }

  lemma CurrentStays(catalog: Catalog, batch: seq<Item>, s: Sources, request: Request, box: Toolbox, file: Loaded, c: Candidate)
    requires PlansFor(batch, catalog.candidates, s, request, box)
    requires file in Parsed(s.reviews) && (request.selected == [] || TableOf(file) in request.selected)
    requires StoredAs(catalog.candidates, TableOf(file), c)
    requires Current(c, file.review, s.inputs, request.identity, box.tools)
    ensures StoredAs(AllWritten(catalog, batch, box.tools.format).candidates, TableOf(file), c)
  {
    hide Plans, PlannerOf, ItemFor, AllWritten, IsSelected, OneItemPerTable, Current;
    var files, plan := Parsed(s.reviews), PlannerOf(catalog.candidates, s, request, box);
    PlanTables(batch, files, request.selected, plan);
    var item := PlannedFor(batch, files, request.selected, plan, file);
    KeptItem(file, catalog.candidates, s, request, box, c, item);
    FinalAt(catalog, batch, box.tools.format, item.table, item);
  }

  /** The action reported for a table says what happened to its candidate. */
  lemma ActionsTell(file: Loaded, candidates: map<string, Stored>, s: Sources, request: Request, box: Toolbox, item: Item)
    requires ItemFor(file, PlannerOf(candidates, s, request, box)) == Some(item)
    ensures item.action == Validated <==>
              exists c :: Load(candidates, TableOf(file)) == Some(c) && Current(c, file.review, s.inputs, request.identity, box.tools)
    ensures item.action == Validated ==> Load(candidates, TableOf(file)) == Some(item.candidate)
    ensures item.action == PromotedNow ==> file.review.documentStatus == Approved
    ensures item.action == Generated ==> file.review.documentStatus == NeedsReview
  {
    hide Decide, Load, Current, CreateFor, PublishFor, AsksIdentity;
    var stored := Load(candidates, TableOf(file));
    DecisionFits(file.review, stored, s, request, box);
    forall c { KeptExactly(file, candidates, s, request, box, c); }
  }

  lemma DecisionFits(review: ReviewDocument, stored: Option<Candidate>, s: Sources, request: Request, box: Toolbox)
    ensures Decide(review, stored, s, request, box).Promote? ==> review.documentStatus == Approved
    ensures Decide(review, stored, s, request, box).Regenerate? ==> review.documentStatus == NeedsReview
  {
    hide ValidateCandidate, PromoteCandidate;
  }

  // ---- exactly when a sync can proceed ----

  /** The context a table's document is made from. */
  ghost predicate IsContext(context: PublicationContext, file: Loaded, s: Sources, commit: string) {
    && s.schema == Some(context.schema) && context.table in context.schema.tables && context.table.name == TableOf(file)
    && context.review == file.review && context.sourceSchemaPath == s.schemaPath
    && context.sourceReviewPath == file.path && context.sourceReviewCommit == commit
  }

  /** A generator yields this document for the table: of the contract's version and inside the fact lock. */
  ghost predicate Yields(file: Loaded, s: Sources, request: Request, box: Toolbox, context: PublicationContext, d: PublishedDocument) {
    && request.generator.Some? && s.contract.Some? && IsContext(context, file, s, request.commit)
    && request.generator.value(context) == Ok(d)
    && Generate(context, box.hash).Ok? && Faithful(d, context) && d.contractVersion == s.contract.value.contractVersion
  }

  /** Some document is yielded, and a candidate can be made of it. */
  ghost predicate CanGenerate(file: Loaded, s: Sources, request: Request, box: Toolbox) {
    exists context, d :: Yields(file, s, request, box, context, d) && CreateCandidate(d, file.review, s.inputs, box.tools).Ok?
  }

  /** An open review's stored candidate that is neither stale nor what was frozen stops the run. */
  ghost predicate Damaged(c: Candidate, review: ReviewDocument, inputs: Inputs, tools: Tools) {
    c.stage == Review && (!NamesFit(c, review) || !HasInputs(inputs) || (Fresh(c, review, inputs, tools) && !Intact(c, tools)))
  }

  /** An approved review's stored candidate holds, and is promoted or can be. */
  ghost predicate Settles(stored: Option<Candidate>, review: ReviewDocument, s: Sources, request: Request, box: Toolbox) {
    && stored.Some? && Upholds(stored.value, review, s.inputs, box.tools)
    && (stored.value.stage == Promoted
        || (IsCommit(request.commit) && MarkerFree(stored.value.document, request.commit, box.tools.format)))
  }

  ghost predicate Proceeds(file: Loaded, candidates: map<string, Stored>, s: Sources, request: Request, box: Toolbox) {
    var review, stored, tools := file.review, Load(candidates, TableOf(file)), box.tools;
    if review.documentStatus == Approved then Settles(stored, review, s, request, box)
    else
      && (stored.Some? ==> !Damaged(stored.value, review, s.inputs, tools))
      && ((stored.Some? && Current(stored.value, review, s.inputs, request.identity, tools))
          || CanGenerate(file, s, request, box))
  }

  /** In a schema the parser accepts, a table is found under its own name. */
  lemma TableFound(schema: DatabaseSchema, name: string, table: TableSchema)
    requires ParserValid(schema)
    ensures table in schema.tables && table.name == name <==> name in TableMap(schema.tables) && TableMap(schema.tables)[name] == table
  {
    DictMembers(schema.tables, TableName, name);
    if table in schema.tables && table.name == name {
      DictLookup(schema.tables, TableName, table);
    }
    hide DictBy;
  }

  lemma ContextIs(file: Loaded, s: Sources, commit: string, schema: DatabaseSchema, context: PublicationContext)
    requires s.schema == Some(schema) && ParserValid(schema)
    ensures IsContext(context, file, s, commit) <==>
              TableOf(file) in TableMap(schema.tables) && context == ContextFor(file, schema, s.schemaPath, commit)
  {
    TableFound(schema, TableOf(file), context.table);
    hide TableMap, ParserValid;
  }

  /** Publishing for a table succeeds exactly with a yielded document. */
  lemma YieldsExactly(file: Loaded, s: Sources, request: Request, box: Toolbox, d: PublishedDocument)
    requires s.schema.Some? ==> ParserValid(s.schema.value)
    ensures request.generator.Some? && PublishFor(file, s, request.commit, request.generator.value, box.hash) == Ok(d) <==>
              exists context :: Yields(file, s, request, box, context, d)
  {
    hide PublishedIssues, Faithful, Generate, TableMap, ParserValid, IsContext;
    if request.generator.Some? && PublishFor(file, s, request.commit, request.generator.value, box.hash) == Ok(d) {
      var context := ContextFor(file, s.schema.value, s.schemaPath, request.commit);
      ContextIs(file, s, request.commit, s.schema.value, context);
      LockExactly(context, d, box.hash);
      assert Yields(file, s, request, box, context, d);
    }
    if context :| Yields(file, s, request, box, context, d) {
      ContextSchema(context, file, s, request.commit);
      ContextIs(file, s, request.commit, context.schema, context);
      LockExactly(context, d, box.hash);
    }
  }

  lemma ContextSchema(context: PublicationContext, file: Loaded, s: Sources, commit: string)
    requires IsContext(context, file, s, commit)
    ensures s.schema == Some(context.schema)
  {
  }

  lemma GenerationExactly(file: Loaded, candidates: map<string, Stored>, s: Sources, request: Request, box: Toolbox)
    requires s.schema.Some? ==> ParserValid(s.schema.value)
    ensures GeneratedFor(file, PlannerOf(candidates, s, request, box)).Ok? <==> CanGenerate(file, s, request, box)
  {
    hide PublishFor, CreateCandidate, Decide, AsksIdentity, Yields, ParserValid;
    if request.generator.Some? {
      var published := PublishFor(file, s, request.commit, request.generator.value, box.hash);
      if published.Ok? {
        YieldsExactly(file, s, request, box, published.value);
        CreatedFrom(published.value, file, s, box);
        CreationSame(published.value, file, s, box);
      }
    }
    forall context, d | Yields(file, s, request, box, context, d)
      ensures request.generator.Some? && PublishFor(file, s, request.commit, request.generator.value, box.hash) == Ok(d)
    {
      YieldsExactly(file, s, request, box, d);
    }
  }

  lemma CreationSame(d: PublishedDocument, file: Loaded, s: Sources, box: Toolbox)
    ensures CreateFor(d, file, s, box).Ok? <==> CreateCandidate(d, file.review, s.inputs, box.tools).Ok?
  {
    hide CreateCandidate;
  }

  lemma ApprovedDecides(review: ReviewDocument, stored: Option<Candidate>, s: Sources, request: Request, box: Toolbox)
    requires CollisionFree(box.tools) && review.documentStatus == Approved && (stored.Some? ==> stored.value.Valid())
    ensures var d := Decide(review, stored, s, request, box);
            !d.Regenerate? && (!d.Fail? <==> Settles(stored, review, s, request, box))
  {
    hide Candidate.Valid, Upholds, CollisionFree, MarkerFree, DecideInReview, IsCommit;
    if stored.Some? {
      var c := stored.value;
      ValidationExactly(c, review, s.inputs, box.tools);
      if c.stage.Review? {
        PromotionDecides(c, review, s, request, box);
      }
      hide ValidateCandidate, PromoteCandidate;
    }
  }

  lemma PromotionDecides(c: Candidate, review: ReviewDocument, s: Sources, request: Request, box: Toolbox)
    requires CollisionFree(box.tools) && review.documentStatus == Approved && c.Valid() && c.stage.Review?
    ensures PromoteCandidate(c, review, request.commit, s.inputs, box.tools).Ok? <==>
              Upholds(c, review, s.inputs, box.tools) && IsCommit(request.commit)
              && MarkerFree(c.document, request.commit, box.tools.format)
  {
    hide Candidate.Valid, Upholds, CollisionFree, MarkerFree, IsCommit, PromoteCandidate, ValidateCandidate;
    ValidationExactly(c, review, s.inputs, box.tools);
    if Upholds(c, review, s.inputs, box.tools) {
      PromotesExactly(c, review, request.commit, s.inputs, box.tools);
    } else if PromoteCandidate(c, review, request.commit, s.inputs, box.tools).Ok? {
      PromotionStage(c, review, request.commit, s.inputs, box.tools);
    }
  }

  lemma OpenDecides(review: ReviewDocument, stored: Option<Candidate>, s: Sources, request: Request, box: Toolbox)
    requires review.documentStatus == NeedsReview && (stored.Some? ==> stored.value.Valid())
    ensures var d := Decide(review, stored, s, request, box);
            && !d.Promote?
            && (d.Fail? <==> stored.Some? && Damaged(stored.value, review, s.inputs, box.tools))
            && (d.Keep? <==> stored.Some? && Current(stored.value, review, s.inputs, request.identity, box.tools))
  {
    hide Decide, Candidate.Valid, Damaged, Current;
    OpenFails(review, stored, s, request, box);
    OpenKeeps(review, stored, s, request, box);
  }

  lemma OpenFails(review: ReviewDocument, stored: Option<Candidate>, s: Sources, request: Request, box: Toolbox)
    requires review.documentStatus == NeedsReview
    ensures var d := Decide(review, stored, s, request, box);
            !d.Promote? && (d.Fail? <==> stored.Some? && Damaged(stored.value, review, s.inputs, box.tools))
  {
    hide DecideApproved, Matches;
    if stored.Some? {
      ValidationExactly(stored.value, review, s.inputs, box.tools);
      hide ValidateCandidate, Fresh, Intact;
    }
  }

  lemma OpenKeeps(review: ReviewDocument, stored: Option<Candidate>, s: Sources, request: Request, box: Toolbox)
    requires review.documentStatus == NeedsReview && (stored.Some? ==> stored.value.Valid())
    ensures Decide(review, stored, s, request, box).Keep? <==>
              stored.Some? && Current(stored.value, review, s.inputs, request.identity, box.tools)
  {
    hide DecideApproved, Candidate.Valid;
    if stored.Some? {
      ValidationExactly(stored.value, review, s.inputs, box.tools);
      hide ValidateCandidate, Upholds;
    }
  }

  /** A table can be planned exactly when it can proceed. */
  lemma ProceedsExactly(file: Loaded, candidates: map<string, Stored>, s: Sources, request: Request, box: Toolbox)
    requires CollisionFree(box.tools) && (s.schema.Some? ==> ParserValid(s.schema.value))
    ensures ItemFor(file, PlannerOf(candidates, s, request, box)).Some? <==> Proceeds(file, candidates, s, request, box)
  {
    hide CollisionFree, ParserValid, Candidate.Valid, Current, Damaged, CanGenerate, Decide, GeneratedFor, Settles, Load, PlannerOf, TableOf;
    var stored := Load(candidates, TableOf(file));
    GenerationExactly(file, candidates, s, request, box);
    PlannerAsks(file, candidates, s, request, box);
    LoadValid(candidates, TableOf(file));
    if file.review.documentStatus == Approved {
      ApprovedDecides(file.review, stored, s, request, box);
    } else {
      OpenDecides(file.review, stored, s, request, box);
    }
  }

  /**
   * A sync succeeds exactly when the preflight is clean, every selected table has a review, and every selected
   * table can proceed: an approved one has an upheld candidate that is promoted or can be, and an open one has
   * a current candidate or can have one generated, and no damaged one.
   */
  lemma SyncSucceedsExactly(candidates: map<string, Stored>, s: Sources, request: Request, box: Toolbox)
    requires CollisionFree(box.tools) && (s.schema.Some? ==> ParserValid(s.schema.value))
    ensures Plannable(candidates, s, request, box) <==>
              && Clean(s, box)
              && (forall t :: t in request.selected ==> exists file :: file in Parsed(s.reviews) && TableOf(file) == t)
              && (forall file :: file in Parsed(s.reviews) && (request.selected == [] || TableOf(file) in request.selected) ==>
                    Proceeds(file, candidates, s, request, box))
  {
    hide Clean, Proceeds, PlannerOf, ItemFor, ParserValid, CollisionFree, TableOf;
    forall file { ProceedsExactly(file, candidates, s, request, box); }
  }

  /** Without a generator a sync fails as soon as some selected open review has no current candidate. */
  lemma NoGeneratorFails(candidates: map<string, Stored>, s: Sources, request: Request, box: Toolbox, file: Loaded)
    requires CollisionFree(box.tools) && (s.schema.Some? ==> ParserValid(s.schema.value))
    requires request.generator.None? && file in Parsed(s.reviews) && (request.selected == [] || TableOf(file) in request.selected)
    requires file.review.documentStatus == NeedsReview
    requires forall c :: Load(candidates, TableOf(file)) == Some(c) ==> !Current(c, file.review, s.inputs, request.identity, box.tools)
    ensures !Plannable(candidates, s, request, box)
  {
    hide Clean, Load, Plannable, IsSelected, ParserValid, CollisionFree, Current, Damaged;
    SyncSucceedsExactly(candidates, s, request, box);
    assert !CanGenerate(file, s, request, box);
    assert !Proceeds(file, candidates, s, request, box);
  }

  /** The document of a generated candidate says the facts of the schema and the review as they are in this run. */
  lemma GeneratedSays(file: Loaded, candidates: map<string, Stored>, s: Sources, request: Request, box: Toolbox, item: Item)
    returns (context: PublicationContext)
    requires s.schema.Some? ==> ParserValid(s.schema.value)
    requires ItemFor(file, PlannerOf(candidates, s, request, box)) == Some(item) && item.action == Generated
    ensures IsContext(context, file, s, request.commit) && Faithful(item.candidate.document, context)
    ensures Generate(context, box.hash).Ok? && request.generator.Some?
    ensures request.generator.value(context) == Ok(item.candidate.document)
  {
    hide Decide, PublishFor, CreateCandidate, AsksIdentity, Load, ParserValid, IsContext, Faithful, Generate;
    var document := PublishFor(file, s, request.commit, request.generator.value, box.hash).value;
    YieldsExactly(file, s, request, box, document);
    context :| Yields(file, s, request, box, context, document);
    CreatedFrom(document, file, s, box);
    hide CreateFor;
    CreatedDocument(document, file.review, s.inputs, box.tools);
  }

  lemma CreatedDocument(document: PublishedDocument, review: ReviewDocument, inputs: Inputs, tools: Tools)
    requires CreateCandidate(document, review, inputs, tools).Ok?
    ensures CreateCandidate(document, review, inputs, tools).value.document == document
  {
    hide BuildFingerprint, ReviewableBodyHash, CandidateHash, Candidate.Valid;
  }

  /** A generator that names the configured identity in its documents makes only candidates of that identity. */
  lemma NamedIdentityOwn(batch: seq<Item>, candidates: map<string, Stored>, s: Sources, request: Request, box: Toolbox)
    requires s.schema.Some? ==> ParserValid(s.schema.value)
    requires PlansFor(batch, candidates, s, request, box)
    requires request.generator.Some? && request.identity.Some? ==>
               forall context :: request.generator.value(context).Ok? ==>
                 var p := request.generator.value(context).value.provenance;
                 p.generatorModel == request.identity.value.model && p.promptVersion == request.identity.value.promptVersion
    ensures AllOwn(batch, request.identity)
  {
    hide Plans, PlannerOf, ItemFor, ParserValid, IsContext, Faithful, Generate;
    forall item | item in batch && item.action == Generated && request.identity.Some? ensures OwnIdentity(item, request.identity) {
      var file := PlannedBy(batch, Parsed(s.reviews), request.selected, PlannerOf(candidates, s, request, box), item);
      var context := GeneratedSays(file, candidates, s, request, box, item);
      GeneratedFresh(file, candidates, s, request, box, item);
    }
  }

  lemma GeneratedFresh(file: Loaded, candidates: map<string, Stored>, s: Sources, request: Request, box: Toolbox, item: Item)
    requires ItemFor(file, PlannerOf(candidates, s, request, box)) == Some(item) && item.action == Generated
    ensures item.candidate.fingerprint.generatorModel == item.candidate.document.provenance.generatorModel
    ensures item.candidate.fingerprint.promptVersion == item.candidate.document.provenance.promptVersion
  {
    hide Decide, PublishFor, CreateCandidate, AsksIdentity, Load, Upholds, Candidate.Valid;
    var document := PublishFor(file, s, request.commit, request.generator.value, box.hash).value;
    PublishedOnTable(file, s, request.commit, request.generator.value, box.hash);
    CreatedFrom(document, file, s, box);
    CreatedUpholds(document, file.review, s.inputs, box.tools);
    UpheldNames(item.candidate, file.review, s.inputs, box.tools);
  }

  lemma UpheldNames(c: Candidate, review: ReviewDocument, inputs: Inputs, tools: Tools)
    requires Upholds(c, review, inputs, tools)
    ensures c.fingerprint.generatorModel == c.document.provenance.generatorModel
    ensures c.fingerprint.promptVersion == c.document.provenance.promptVersion
  {
    hide Intact, ReviewContentHash, Record;
  }
}
