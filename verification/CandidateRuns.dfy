/** Writing a prepared sync, and what holds over whole histories of edits and (interrupted) syncs. */
module CandidateRuns {
  import opened Wrappers
  import opened Sorting
  import opened Models
  import opened TblsSchema
  import opened Generators
  import opened PublishedValidation
  import opened Markdown
  import opened CandidateLifecycle
  import opened CandidatePlanning
  import opened CandidateSync

  // ---- writes ----

  function WithCandidate(catalog: Catalog, item: Item): Catalog {
    catalog.(candidates := catalog.candidates[item.table := Stored(item.candidate, true)])
  }

  function WithMarkdown(catalog: Catalog, item: Item, format: Format): Catalog {
    catalog.(markdown := catalog.markdown[item.table := Rendered(item.candidate.document, format)])
  }

  /** The catalog after the first `n` file writes: for every item its candidate, then its Markdown. */
  function AfterWrites(catalog: Catalog, batch: seq<Item>, n: nat, format: Format): Catalog
    requires n <= 2 * |batch|
  {
    if n == 0 then catalog
    else
      var before := AfterWrites(catalog, batch, n - 1, format);
      var item := batch[(n - 1) / 2];
      if (n - 1) % 2 == 0 then WithCandidate(before, item) else WithMarkdown(before, item, format)
  }

  function AllWritten(catalog: Catalog, batch: seq<Item>, format: Format): Catalog {
    AfterWrites(catalog, batch, 2 * |batch|, format)
  }

  datatype SyncResult = SyncResult(table: string, action: Action, candidateChanged: bool, markdownChanged: bool)

  class CandidateFiles {
    var candidates: map<string, Stored>
    var markdown: map<string, string>

    constructor (catalog: Catalog)
      ensures Now() == catalog
    {
      candidates, markdown := catalog.candidates, catalog.markdown;
    }

    function Now(): Catalog
      reads this
    {
      Catalog(candidates, markdown)
    }

    method WriteCandidate(item: Item) returns (changed: bool)
      modifies this
      ensures Now() == WithCandidate(old(Now()), item)
      ensures !changed <==> Now() == old(Now())
    {
      var content := Stored(item.candidate, true);
      if item.table in candidates && candidates[item.table] == content {
        assert candidates[item.table := content] == candidates;
        return false;
      }
      ghost var before := candidates;
      candidates := candidates[item.table := content];
      assert item.table in candidates && candidates[item.table] == content;
      return true;
    }

    method WriteMarkdown(item: Item, format: Format) returns (changed: bool)
      modifies this
      ensures Now() == WithMarkdown(old(Now()), item, format)
      ensures !changed <==> Now() == old(Now())
    {
      var content := RenderPublishedDocument(item.candidate.document, format);
      if item.table in markdown && markdown[item.table] == content {
        assert markdown[item.table := content] == markdown;
        return false;
      }
      markdown := markdown[item.table := content];
      assert item.table in markdown && markdown[item.table] == content;
      return true;
    }

    method WriteCandidateSync(batch: seq<Item>, format: Format) returns (results: seq<SyncResult>)
      modifies this
      ensures Now() == AllWritten(old(Now()), batch, format)
      ensures |results| == |batch|
      ensures forall i :: 0 <= i < |batch| ==> results[i].table == batch[i].table && results[i].action == batch[i].action
      ensures (forall i :: 0 <= i < |results| ==> !results[i].candidateChanged && !results[i].markdownChanged) ==> Now() == old(Now())
    {
      hide Rendered;
      results := [];
      for i := 0 to |batch|
        invariant Now() == AfterWrites(old(Now()), batch, 2 * i, format)
        invariant |results| == i
        invariant forall k :: 0 <= k < i ==> results[k].table == batch[k].table && results[k].action == batch[k].action
        invariant (forall k :: 0 <= k < i ==> !results[k].candidateChanged && !results[k].markdownChanged) ==> Now() == old(Now())
      {
        var candidateChanged := WriteCandidate(batch[i]);
        assert Now() == AfterWrites(old(Now()), batch, 2 * i + 1, format);
        var markdownChanged := WriteMarkdown(batch[i], format);
        assert Now() == AfterWrites(old(Now()), batch, 2 * i + 2, format);
        results := results + [SyncResult(batch[i].table, batch[i].action, candidateChanged, markdownChanged)];
      }
    }

    /** An error changes no file; a success leaves exactly the planned files. */
    method Synchronize(s: Sources, request: Request, box: Toolbox) returns (r: Result<seq<SyncResult>, SyncError>)
      modifies this
      ensures r.Ok? <==> Plannable(old(candidates), s, request, box)
      ensures r.Err? ==> Now() == old(Now())
      ensures r.Ok? ==> exists batch ::
                IsPlan(batch, old(candidates), s, request, box) && Now() == AllWritten(old(Now()), batch, box.tools.format)
    {
      hide Plannable, IsPlan, AllWritten;
      var prepared, _ := PrepareCandidateSync(candidates, s, request, box);
      if prepared.Err? {
        return Err(prepared.error);
      }
      var results := WriteCandidateSync(prepared.value, box.tools.format);
      return Ok(results);
    }
  }

  // ---- what a (partial) write leaves ----

  lemma {:induction false} WrittenItem(catalog: Catalog, batch: seq<Item>, n: nat, format: Format, i: nat)
    requires OneItemPerTable(batch) && n <= 2 * |batch| && i < |batch|
    ensures var now, t := AfterWrites(catalog, batch, n, format), batch[i].table;
            && (if n > 2 * i then t in now.candidates && now.candidates[t] == Stored(batch[i].candidate, true)
                else (t in now.candidates <==> t in catalog.candidates)
                     && (t in catalog.candidates ==> now.candidates[t] == catalog.candidates[t]))
            && (if n > 2 * i + 1 then t in now.markdown && now.markdown[t] == Rendered(batch[i].candidate.document, format)
                else (t in now.markdown <==> t in catalog.markdown)
                     && (t in catalog.markdown ==> now.markdown[t] == catalog.markdown[t]))
    decreases n
  {
    hide Rendered;
    if n > 0 {
      WrittenItem(catalog, batch, n - 1, format, i);
      var k := (n - 1) / 2;
      assert k == i || batch[k].table != batch[i].table by {
        if k < i { assert batch[k].table != batch[i].table; }
        if k > i { assert batch[i].table != batch[k].table; }
      }
    }
  }

  ghost predicate HasItem(batch: seq<Item>, t: string) {
    exists item :: item in batch && item.table == t
  }

  lemma {:induction false} OthersUntouched(catalog: Catalog, batch: seq<Item>, n: nat, format: Format, t: string)
    requires n <= 2 * |batch| && !HasItem(batch, t)
    ensures SameAt(AfterWrites(catalog, batch, n, format), catalog, t)
    decreases n
  {
    hide Rendered;
    if n > 0 {
      OthersUntouched(catalog, batch, n - 1, format, t);
      assert batch[(n - 1) / 2] in batch;
    }
  }

  lemma FinalAt(catalog: Catalog, batch: seq<Item>, format: Format, t: string, item: Item)
    requires OneItemPerTable(batch) && item in batch && item.table == t
    ensures var now := AllWritten(catalog, batch, format);
            && t in now.candidates && now.candidates[t] == Stored(item.candidate, true)
            && t in now.markdown && now.markdown[t] == Rendered(item.candidate.document, format)
  {
    hide Rendered;
    var i :| 0 <= i < |batch| && batch[i] == item;
    WrittenItem(catalog, batch, 2 * |batch|, format, i);
  }

  /**
   * After a completed sync, from any catalog at all (also one an interrupted run left), every selected
   * table's Markdown is the rendering of its stored candidate.
   */
  lemma MarkdownRestored(catalog: Catalog, batch: seq<Item>, files: seq<Loaded>, selected: seq<string>, plan: Planner,
                         format: Format, file: Loaded)
    requires Plans(batch, files, selected, plan) && file in files && IsSelected(file, selected)
    ensures var now, t := AllWritten(catalog, batch, format), TableOf(file);
            && t in now.candidates && now.candidates[t].Stored? && now.candidates[t].canonical
            && t in now.markdown && now.markdown[t] == Rendered(now.candidates[t].candidate.document, format)
  {
    hide Rendered, AllWritten, Plans, ItemFor;
    PlanTables(batch, files, selected, plan);
    var item := PlannedFor(batch, files, selected, plan, file);
    FinalAt(catalog, batch, format, item.table, item);
  }

  ghost predicate SameAt(a: Catalog, b: Catalog, t: string) {
    && (t in a.candidates <==> t in b.candidates) && (t in a.candidates ==> a.candidates[t] == b.candidates[t])
    && (t in a.markdown <==> t in b.markdown) && (t in a.markdown ==> a.markdown[t] == b.markdown[t])
  }

  lemma SameEverywhere(a: Catalog, b: Catalog)
    requires forall t :: SameAt(a, b, t)
    ensures a == b
  {
    forall t ensures t in a.candidates <==> t in b.candidates { assert SameAt(a, b, t); }
    forall t ensures t in a.markdown <==> t in b.markdown { assert SameAt(a, b, t); }
    forall t | t in a.candidates ensures a.candidates[t] == b.candidates[t] { assert SameAt(a, b, t); }
    forall t | t in a.markdown ensures a.markdown[t] == b.markdown[t] { assert SameAt(a, b, t); }
    assert a.candidates == b.candidates && a.markdown == b.markdown;
  }

  // ---- deciding again ----

  lemma KeptAgain(review: ReviewDocument, stored: Option<Candidate>, s: Sources, request: Request, later: Request,
                  box: Toolbox, c: Candidate)
    requires later.identity == request.identity && Decide(review, stored, s, request, box) == Keep(c)
    ensures stored == Some(c) && Decide(review, Some(c), s, later, box) == Keep(c)
  {
    hide ValidateCandidate, PromoteCandidate, Matches;
  }

  lemma PromotedAgain(review: ReviewDocument, stored: Option<Candidate>, s: Sources, request: Request, later: Request,
                      box: Toolbox, p: Candidate)
    requires CollisionFree(box.tools) && Decide(review, stored, s, request, box) == Promote(p)
    ensures p.Valid() && Decide(review, Some(p), s, later, box) == Keep(p)
  {
    hide ValidateCandidate, PromoteCandidate, Matches, CollisionFree, Candidate.Valid, Reviewable, ApprovedDocument;
    DecidedPromotion(review, stored, s, request, box, p);
    PromotedUnchanged(stored.value, review, request.commit, s.inputs, box.tools);
  }

  /** A freshly generated candidate with the configured identity is kept from then on. */
  lemma GeneratedAgain(review: ReviewDocument, stored: Option<Candidate>, s: Sources, request: Request, later: Request,
                       box: Toolbox, document: PublishedDocument, c: Candidate)
    requires later.identity == request.identity && Decide(review, stored, s, request, box).Regenerate?
    requires CreateCandidate(document, review, s.inputs, box.tools) == Ok(c)
    requires document.database == review.database && document.table == review.table
    requires request.identity.Some? ==> Matches(c, request.identity.value)
    ensures c.Valid() && Decide(review, Some(c), s, later, box) == Keep(c)
  {
    hide ValidateCandidate, PromoteCandidate, CreateCandidate, Matches, Candidate.Valid, CheckIntegrity;
    CreatedValidates(document, review, s.inputs, box.tools);
  }

  /** A generated item carries the configured identity. */
  predicate OwnIdentity(item: Item, identity: Option<Identity>) {
    item.action.Generated? && identity.Some? ==> Matches(item.candidate, identity.value)
  }

  ghost predicate AllOwn(batch: seq<Item>, identity: Option<Identity>) {
    forall item :: item in batch ==> OwnIdentity(item, identity)
  }

  lemma LoadStored(candidates: map<string, Stored>, t: string, c: Candidate)
    requires t in candidates && candidates[t] == Stored(c, true) && c.Valid()
    ensures Load(candidates, t) == Some(c)
  {
  }

  lemma LoadValid(candidates: map<string, Stored>, t: string)
    ensures Load(candidates, t).Some? ==> Load(candidates, t).value.Valid()
  {
  }

  /** Once an item's candidate is stored, the next run keeps it. */
  lemma SettledOnce(item: Item, file: Loaded, before: map<string, Stored>, after: map<string, Stored>, s: Sources,
                    request: Request, later: Request, box: Toolbox)
    requires CollisionFree(box.tools) && later.identity == request.identity
    requires ItemFor(file, PlannerOf(before, s, request, box)) == Some(item) && OwnIdentity(item, request.identity)
    requires item.table in after && after[item.table] == Stored(item.candidate, true)
    ensures ItemFor(file, PlannerOf(after, s, later, box)) == Some(Item(item.table, item.candidate, Validated))
  {
    hide Decide, PublishFor, CreateFor, CreateCandidate, Load, Matches, AsksIdentity, CollisionFree;
    var review, c := file.review, item.candidate;
    var stored := Load(before, review.table);
    LoadValid(before, review.table);
    match Decide(review, stored, s, request, box)
    case Keep(k) =>
      KeptAgain(review, stored, s, request, later, box, k);
      LoadStored(after, review.table, c);
    case Promote(p) =>
      PromotedAgain(review, stored, s, request, later, box, p);
      LoadStored(after, review.table, c);
    case Fail(_) =>
    case Regenerate =>
      var document := PublishFor(file, s, request.commit, request.generator.value, box.hash).value;
      PublishedOnTable(file, s, request.commit, request.generator.value, box.hash);
      CreatedFrom(document, file, s, box);
      GeneratedAgain(review, stored, s, request, later, box, document, c);
      LoadStored(after, review.table, c);
  }

  lemma CreatedFrom(document: PublishedDocument, file: Loaded, s: Sources, box: Toolbox)
    ensures CreateFor(document, file, s, box).Ok? ==>
              CreateCandidate(document, file.review, s.inputs, box.tools) == Ok(CreateFor(document, file, s, box).value)
  {
    hide CreateCandidate;
  }

  /** Planning a file looks only at the stored candidate of its table. */
  lemma PlannedSame(file: Loaded, a: map<string, Stored>, b: map<string, Stored>, s: Sources, request: Request, box: Toolbox)
    requires TableOf(file) in a <==> TableOf(file) in b
    requires TableOf(file) in a ==> a[TableOf(file)] == b[TableOf(file)]
    ensures ItemFor(file, PlannerOf(a, s, request, box)) == ItemFor(file, PlannerOf(b, s, request, box))
  {
    hide Decide, PublishFor, CreateFor, AsksIdentity;
    assert Load(a, TableOf(file)) == Load(b, TableOf(file));
  }

  // ---- running again ----

  /**
   * One table of a rerun after the first `n` writes: the candidate planned is the one planned before, kept
   * if it was already written.
   */
  lemma RerunItem(catalog: Catalog, batch: seq<Item>, n: nat, s: Sources, request: Request, box: Toolbox,
                  item: Item, file: Loaded)
    requires CollisionFree(box.tools) && OneItemPerTable(batch) && AllOwn(batch, request.identity)
    requires n <= 2 * |batch| && item in batch
    requires ItemFor(file, PlannerOf(catalog.candidates, s, request, box)) == Some(item) && item.table == TableOf(file)
    ensures var next := ItemFor(file, PlannerOf(AfterWrites(catalog, batch, n, box.tools.format).candidates, s, request, box));
            next.Some? && next.value.table == item.table && next.value.candidate == item.candidate
  {
    hide PlannerOf, ItemFor, OwnIdentity, AfterWrites, CollisionFree;
    var now := AfterWrites(catalog, batch, n, box.tools.format);
    var i :| 0 <= i < |batch| && batch[i] == item;
    WrittenItem(catalog, batch, n, box.tools.format, i);
    if n > 2 * i {
      SettledOnce(item, file, catalog.candidates, now.candidates, s, request, request, box);
    } else {
      PlannedSame(file, catalog.candidates, now.candidates, s, request, box);
    }
  }

  lemma FileOfTable(files: seq<Loaded>, a: Loaded, b: Loaded)
    requires DistinctKeys(files, TableOf) && a in files && b in files && TableOf(a) == TableOf(b)
    ensures a == b
  {
  }

  lemma PlansDistinct(batch: seq<Item>, files: seq<Loaded>, selected: seq<string>, plan: Planner)
    requires Plans(batch, files, selected, plan)
    ensures DistinctKeys(files, TableOf) && SelectionKnown(files, selected)
  {
  }

  /** The rerun plans the same candidate for the same tables. */
  lemma RerunSameItems(catalog: Catalog, batch: seq<Item>, n: nat, s: Sources, request: Request, box: Toolbox,
                       again: seq<Item>, t: string)
    requires CollisionFree(box.tools) && PlansFor(batch, catalog.candidates, s, request, box) && AllOwn(batch, request.identity)
    requires n <= 2 * |batch|
    requires PlansFor(again, AfterWrites(catalog, batch, n, box.tools.format).candidates, s, request, box)
    ensures HasItem(again, t) <==> HasItem(batch, t)
    ensures forall x, y :: x in batch && y in again && x.table == y.table == t ==> x.candidate == y.candidate
  {
    hide PlannerOf, Plans, ItemFor, AllOwn, AfterWrites, CollisionFree, TableOf, DistinctKeys, SelectionKnown, OneItemPerTable;
    var now := AfterWrites(catalog, batch, n, box.tools.format).candidates;
    var files, plan := Parsed(s.reviews), PlannerOf(catalog.candidates, s, request, box);
    var replan := PlannerOf(now, s, request, box);
    PlanTables(batch, files, request.selected, plan);
    if x :| x in batch && x.table == t {
      var file := PlannedBy(batch, files, request.selected, plan, x);
      RerunItem(catalog, batch, n, s, request, box, x, file);
      var y := PlannedFor(again, files, request.selected, replan, file);
      assert y.table == t;
    }
    if y :| y in again && y.table == t {
      var file := PlannedBy(again, files, request.selected, replan, y);
      var x := PlannedFor(batch, files, request.selected, plan, file);
      assert x.table == t;
    }
    forall x, y | x in batch && y in again && x.table == y.table == t ensures x.candidate == y.candidate {
      var file := PlannedBy(batch, files, request.selected, plan, x);
      var other := PlannedBy(again, files, request.selected, replan, y);
      PlansDistinct(batch, files, request.selected, plan);
      FileOfTable(files, file, other);
      RerunItem(catalog, batch, n, s, request, box, x, file);
    }
  }

  /** A rerun after a crash anywhere among the writes does not fail. */
  lemma RerunSucceeds(catalog: Catalog, batch: seq<Item>, n: nat, s: Sources, request: Request, box: Toolbox)
    requires CollisionFree(box.tools) && IsPlan(batch, catalog.candidates, s, request, box) && AllOwn(batch, request.identity)
    requires n <= 2 * |batch|
    ensures Plannable(AfterWrites(catalog, batch, n, box.tools.format).candidates, s, request, box)
  {
    hide Clean, PlannerOf, Plans, ItemFor, AllOwn, AfterWrites, CollisionFree, SelectionKnown, IsSelected, DistinctKeys;
    var files, plan := Parsed(s.reviews), PlannerOf(catalog.candidates, s, request, box);
    PlanTables(batch, files, request.selected, plan);
    PlansDistinct(batch, files, request.selected, plan);
    forall file | file in files && IsSelected(file, request.selected)
      ensures ItemFor(file, PlannerOf(AfterWrites(catalog, batch, n, box.tools.format).candidates, s, request, box)).Some?
    {
      var item := PlannedFor(batch, files, request.selected, plan, file);
      RerunItem(catalog, batch, n, s, request, box, item, file);
    }
  }

  /**
   * Crash recovery: interrupted after any number of writes and run again on the same inputs, a sync ends in
   * exactly the files an uninterrupted one leaves.
   */
  lemma CrashRecovers(catalog: Catalog, batch: seq<Item>, n: nat, s: Sources, request: Request, box: Toolbox, again: seq<Item>)
    requires CollisionFree(box.tools) && PlansFor(batch, catalog.candidates, s, request, box) && AllOwn(batch, request.identity)
    requires n <= 2 * |batch|
    requires PlansFor(again, AfterWrites(catalog, batch, n, box.tools.format).candidates, s, request, box)
    ensures AllWritten(AfterWrites(catalog, batch, n, box.tools.format), again, box.tools.format)
            == AllWritten(catalog, batch, box.tools.format)
  {
    hide Plans, PlannerOf, AllOwn, AfterWrites, AllWritten, Rendered, OneItemPerTable, CollisionFree, SameAt;
    var format := box.tools.format;
    var cut := AfterWrites(catalog, batch, n, format);
    PlanTables(batch, Parsed(s.reviews), request.selected, PlannerOf(catalog.candidates, s, request, box));
    PlanTables(again, Parsed(s.reviews), request.selected, PlannerOf(cut.candidates, s, request, box));
    forall t ensures SameAt(AllWritten(cut, again, format), AllWritten(catalog, batch, format), t) {
      RerunSameItems(catalog, batch, n, s, request, box, again, t);
      if HasItem(batch, t) {
        var x :| x in batch && x.table == t;
        var y :| y in again && y.table == t;
        BothFinal(catalog, batch, cut, again, format, t, x, y);
      } else {
        Unmentioned(catalog, batch, n, format, again, t);
      }
    }
    SameEverywhere(AllWritten(cut, again, format), AllWritten(catalog, batch, format));
  }

  lemma BothFinal(a: Catalog, batch: seq<Item>, b: Catalog, again: seq<Item>, format: Format, t: string, x: Item, y: Item)
    requires OneItemPerTable(batch) && OneItemPerTable(again)
    requires x in batch && y in again && x.table == y.table == t && x.candidate == y.candidate
    ensures SameAt(AllWritten(b, again, format), AllWritten(a, batch, format), t)
  {
    hide AllWritten, Rendered, OneItemPerTable;
    FinalAt(a, batch, format, t, x);
    FinalAt(b, again, format, t, y);
  }

  lemma Unmentioned(catalog: Catalog, batch: seq<Item>, n: nat, format: Format, again: seq<Item>, t: string)
    requires n <= 2 * |batch| && !HasItem(batch, t) && !HasItem(again, t)
    ensures SameAt(AllWritten(AfterWrites(catalog, batch, n, format), again, format), AllWritten(catalog, batch, format), t)
  {
    hide AfterWrites, HasItem;
    OthersUntouched(catalog, batch, n, format, t);
    OthersUntouched(catalog, batch, 2 * |batch|, format, t);
    OthersUntouched(AfterWrites(catalog, batch, n, format), again, 2 * |again|, format, t);
  }

  // ---- running again with another generator or commit ----

  /** Some item of the table had its candidate written among the first `n` writes. */
  ghost predicate WrittenBefore(batch: seq<Item>, n: nat, t: string) {
    exists i :: 0 <= i < |batch| && 2 * i < n && batch[i].table == t
  }

  /** A written candidate is kept; for an unwritten table the rerun plans what it would have planned at first. */
  lemma LaterItem(catalog: Catalog, batch: seq<Item>, n: nat, s: Sources, request: Request, later: Request, box: Toolbox,
                  item: Item, file: Loaded)
    requires CollisionFree(box.tools) && OneItemPerTable(batch) && AllOwn(batch, request.identity)
    requires n <= 2 * |batch| && item in batch && later.identity == request.identity
    requires ItemFor(file, PlannerOf(catalog.candidates, s, request, box)) == Some(item) && item.table == TableOf(file)
    ensures ItemFor(file, PlannerOf(AfterWrites(catalog, batch, n, box.tools.format).candidates, s, later, box)) ==
              if WrittenBefore(batch, n, item.table) then Some(Item(item.table, item.candidate, Validated))
              else ItemFor(file, PlannerOf(catalog.candidates, s, later, box))
  {
    hide PlannerOf, ItemFor, OwnIdentity, AfterWrites, CollisionFree;
    var now := AfterWrites(catalog, batch, n, box.tools.format);
    var i :| 0 <= i < |batch| && batch[i] == item;
    WrittenItem(catalog, batch, n, box.tools.format, i);
    assert WrittenBefore(batch, n, item.table) <==> 2 * i < n;
    if 2 * i < n {
      SettledOnce(item, file, catalog.candidates, now.candidates, s, request, later, box);
    } else {
      PlannedSame(file, catalog.candidates, now.candidates, s, later, box);
    }
  }

  /** Every selected table that was not written yet can be planned by the rerun on its own terms. */
  ghost predicate RestPlannable(catalog: Catalog, batch: seq<Item>, n: nat, s: Sources, later: Request, box: Toolbox) {
    forall file :: file in Parsed(s.reviews) && IsSelected(file, later.selected) && !WrittenBefore(batch, n, TableOf(file)) ==>
      ItemFor(file, PlannerOf(catalog.candidates, s, later, box)).Some?
  }

  /**
   * After a crash anywhere among the writes, a rerun with the same selection and identity, but whatever commit
   * and generator, succeeds exactly when it can plan the tables not written yet.
   */
  lemma LaterRunSucceedsExactly(catalog: Catalog, batch: seq<Item>, n: nat, s: Sources, request: Request, later: Request, box: Toolbox)
    requires CollisionFree(box.tools) && IsPlan(batch, catalog.candidates, s, request, box) && AllOwn(batch, request.identity)
    requires n <= 2 * |batch| && later.identity == request.identity && later.selected == request.selected
    ensures Plannable(AfterWrites(catalog, batch, n, box.tools.format).candidates, s, later, box) <==>
              RestPlannable(catalog, batch, n, s, later, box)
  {
    hide Clean, PlannerOf, Plans, ItemFor, AllOwn, AfterWrites, CollisionFree, SelectionKnown, IsSelected, DistinctKeys, WrittenBefore, OneItemPerTable;
    var files, plan := Parsed(s.reviews), PlannerOf(catalog.candidates, s, request, box);
    PlanTables(batch, files, request.selected, plan);
    PlansDistinct(batch, files, request.selected, plan);
    forall file | file in files && IsSelected(file, later.selected)
      ensures ItemFor(file, PlannerOf(AfterWrites(catalog, batch, n, box.tools.format).candidates, s, later, box)).Some? <==>
                WrittenBefore(batch, n, TableOf(file)) || ItemFor(file, PlannerOf(catalog.candidates, s, later, box)).Some?
    {
      var item := PlannedFor(batch, files, request.selected, plan, file);
      LaterItem(catalog, batch, n, s, request, later, box, item, file);
    }
  }

  /** What a rerun leaves for a selected table: the candidate written before, or its own, and its rendering. */
  ghost predicate Recovered(end: Catalog, catalog: Catalog, batch: seq<Item>, n: nat, s: Sources, later: Request, box: Toolbox, file: Loaded) {
    var t := TableOf(file);
    && t in end.candidates && end.candidates[t].Stored? && end.candidates[t].canonical
    && t in end.markdown && end.markdown[t] == Rendered(end.candidates[t].candidate.document, box.tools.format)
    && (if WrittenBefore(batch, n, t) then exists item :: item in batch && item.table == t && item.candidate == end.candidates[t].candidate
        else
          var own := ItemFor(file, PlannerOf(catalog.candidates, s, later, box));
          own.Some? && own.value.candidate == end.candidates[t].candidate)
  }

  /**
   * Crash recovery with a generator that may answer differently: tables whose candidate was written keep it,
   * the others get what the rerun would have planned for them from the start, all Markdown is the rendering,
   * and no other table is touched.
   */
  lemma CrashRecoversWith(catalog: Catalog, batch: seq<Item>, n: nat, s: Sources, request: Request, later: Request, box: Toolbox,
                          again: seq<Item>)
    requires CollisionFree(box.tools) && PlansFor(batch, catalog.candidates, s, request, box) && AllOwn(batch, request.identity)
    requires n <= 2 * |batch| && later.identity == request.identity && later.selected == request.selected
    requires PlansFor(again, AfterWrites(catalog, batch, n, box.tools.format).candidates, s, later, box)
    ensures var end := AllWritten(AfterWrites(catalog, batch, n, box.tools.format), again, box.tools.format);
            && (forall file :: file in Parsed(s.reviews) && IsSelected(file, later.selected) ==>
                  Recovered(end, catalog, batch, n, s, later, box, file))
            && (forall t :: !HasItem(batch, t) ==> SameAt(end, catalog, t))
  {
    hide Plans, PlannerOf, AllOwn, AfterWrites, AllWritten, Rendered, OneItemPerTable, CollisionFree, SameAt, ItemFor, IsSelected, Recovered, TableOf;
    var end := AllWritten(AfterWrites(catalog, batch, n, box.tools.format), again, box.tools.format);
    forall file | file in Parsed(s.reviews) && IsSelected(file, later.selected)
      ensures Recovered(end, catalog, batch, n, s, later, box, file)
    {
      RecoveredFile(catalog, batch, n, s, request, later, box, again, file);
    }
    forall t | !HasItem(batch, t) ensures SameAt(end, catalog, t) {
      LaterTables(catalog, batch, n, s, request, later, box, again, t);
      UntouchedTwice(catalog, batch, n, box.tools.format, again, t);
    }
  }

  lemma RecoveredFile(catalog: Catalog, batch: seq<Item>, n: nat, s: Sources, request: Request, later: Request, box: Toolbox,
                      again: seq<Item>, file: Loaded)
    requires CollisionFree(box.tools) && PlansFor(batch, catalog.candidates, s, request, box) && AllOwn(batch, request.identity)
    requires n <= 2 * |batch| && later.identity == request.identity && later.selected == request.selected
    requires PlansFor(again, AfterWrites(catalog, batch, n, box.tools.format).candidates, s, later, box)
    requires file in Parsed(s.reviews) && IsSelected(file, later.selected)
    ensures Recovered(AllWritten(AfterWrites(catalog, batch, n, box.tools.format), again, box.tools.format),
                      catalog, batch, n, s, later, box, file)
  {
    hide Plans, PlannerOf, AllOwn, AfterWrites, AllWritten, Rendered, OneItemPerTable, CollisionFree, ItemFor, IsSelected, TableOf, WrittenBefore;
    var files, cut := Parsed(s.reviews), AfterWrites(catalog, batch, n, box.tools.format);
    var plan, replan := PlannerOf(catalog.candidates, s, request, box), PlannerOf(cut.candidates, s, later, box);
    PlanTables(batch, files, request.selected, plan);
    PlanTables(again, files, later.selected, replan);
    var item := PlannedFor(batch, files, request.selected, plan, file);
    var next := PlannedFor(again, files, later.selected, replan, file);
    LaterItem(catalog, batch, n, s, request, later, box, item, file);
    FinalAt(cut, again, box.tools.format, next.table, next);
  }

  /** The rerun plans for no table the first run did not plan for. */
  lemma LaterTables(catalog: Catalog, batch: seq<Item>, n: nat, s: Sources, request: Request, later: Request, box: Toolbox,
                    again: seq<Item>, t: string)
    requires PlansFor(batch, catalog.candidates, s, request, box) && later.selected == request.selected && n <= 2 * |batch|
    requires PlansFor(again, AfterWrites(catalog, batch, n, box.tools.format).candidates, s, later, box)
    requires !HasItem(batch, t)
    ensures !HasItem(again, t)
  {
    hide Plans, PlannerOf, AfterWrites, ItemFor, IsSelected, TableOf;
    var files, cut := Parsed(s.reviews), AfterWrites(catalog, batch, n, box.tools.format);
    if y :| y in again && y.table == t {
      var file := PlannedBy(again, files, later.selected, PlannerOf(cut.candidates, s, later, box), y);
      var x := PlannedFor(batch, files, request.selected, PlannerOf(catalog.candidates, s, request, box), file);
    }
  }

  lemma UntouchedTwice(catalog: Catalog, batch: seq<Item>, n: nat, format: Format, again: seq<Item>, t: string)
    requires n <= 2 * |batch| && !HasItem(batch, t) && !HasItem(again, t)
    ensures SameAt(AllWritten(AfterWrites(catalog, batch, n, format), again, format), catalog, t)
  {
    hide AfterWrites, HasItem;
    OthersUntouched(catalog, batch, n, format, t);
    OthersUntouched(AfterWrites(catalog, batch, n, format), again, 2 * |again|, format, t);
  }

  /** After a completed sync a second one, with whatever commit and generator, or none, can be planned. */
  lemma SecondRunSucceeds(catalog: Catalog, batch: seq<Item>, s: Sources, request: Request, later: Request, box: Toolbox)
    requires CollisionFree(box.tools) && IsPlan(batch, catalog.candidates, s, request, box) && AllOwn(batch, request.identity)
    requires later.identity == request.identity && later.selected == request.selected
    ensures Plannable(AllWritten(catalog, batch, box.tools.format).candidates, s, later, box)
  {
    hide Clean, PlannerOf, Plans, ItemFor, AllOwn, AfterWrites, CollisionFree, Plannable, IsSelected;
    LaterRunSucceedsExactly(catalog, batch, 2 * |batch|, s, request, later, box);
    var files, plan := Parsed(s.reviews), PlannerOf(catalog.candidates, s, request, box);
    forall file | file in files && IsSelected(file, later.selected) ensures WrittenBefore(batch, 2 * |batch|, TableOf(file)) {
      var item := PlannedFor(batch, files, request.selected, plan, file);
      var i :| 0 <= i < |batch| && batch[i] == item;
    }
  }

  /**
   * Idempotence: after a completed sync, a second one on the same sources, selection and identity, whatever
   * its commit and generator, finds every table validated and changes no file.
   */
  lemma SecondRunValidates(catalog: Catalog, batch: seq<Item>, s: Sources, request: Request, later: Request, box: Toolbox,
                           again: seq<Item>)
    requires CollisionFree(box.tools) && PlansFor(batch, catalog.candidates, s, request, box) && AllOwn(batch, request.identity)
    requires later.identity == request.identity && later.selected == request.selected
    requires PlansFor(again, AllWritten(catalog, batch, box.tools.format).candidates, s, later, box)
    ensures forall item :: item in again ==> item.action.Validated?
    ensures AllWritten(AllWritten(catalog, batch, box.tools.format), again, box.tools.format)
            == AllWritten(catalog, batch, box.tools.format)
  {
    hide PlansFor, AllOwn, AllWritten, OneItemPerTable, CollisionFree, SameAt;
    var format := box.tools.format;
    var now := AllWritten(catalog, batch, format);
    assert OneItemPerTable(batch) && OneItemPerTable(again) by { TablesOnce(batch, catalog.candidates, s, request, box); TablesOnce(again, now.candidates, s, later, box); }
    forall item | item in again
      ensures item.action.Validated?
      ensures exists x :: x in batch && x.table == item.table && x.candidate == item.candidate
    {
      var x := SecondItem(catalog, batch, s, request, later, box, again, item);
    }
    forall t ensures SameAt(AllWritten(now, again, format), now, t) {
      if HasItem(again, t) {
        var item :| item in again && item.table == t;
        var x :| x in batch && x.table == item.table && x.candidate == item.candidate;
        BothFinal(catalog, batch, now, again, format, t, x, item);
      } else {
        AllUntouched(now, again, format, t);
      }
    }
    SameEverywhere(AllWritten(now, again, format), now);
  }

  lemma TablesOnce(batch: seq<Item>, candidates: map<string, Stored>, s: Sources, request: Request, box: Toolbox)
    requires PlansFor(batch, candidates, s, request, box)
    ensures OneItemPerTable(batch)
  {
    hide Plans, PlannerOf;
    PlanTables(batch, Parsed(s.reviews), request.selected, PlannerOf(candidates, s, request, box));
  }

  lemma AllUntouched(catalog: Catalog, batch: seq<Item>, format: Format, t: string)
    requires !HasItem(batch, t)
    ensures SameAt(AllWritten(catalog, batch, format), catalog, t)
  {
    hide AfterWrites, HasItem;
    OthersUntouched(catalog, batch, 2 * |batch|, format, t);
  }

  lemma SecondItem(catalog: Catalog, batch: seq<Item>, s: Sources, request: Request, later: Request, box: Toolbox,
                   again: seq<Item>, item: Item) returns (x: Item)
    requires CollisionFree(box.tools) && PlansFor(batch, catalog.candidates, s, request, box) && AllOwn(batch, request.identity)
    requires later.identity == request.identity && later.selected == request.selected
    requires PlansFor(again, AllWritten(catalog, batch, box.tools.format).candidates, s, later, box) && item in again
    ensures item.action.Validated?
    ensures x in batch && x.table == item.table && x.candidate == item.candidate
  {
    hide Plans, PlannerOf, ItemFor, OwnIdentity, AllWritten, TableOf, CollisionFree, Rendered;
    var files, now := Parsed(s.reviews), AllWritten(catalog, batch, box.tools.format);
    var plan := PlannerOf(catalog.candidates, s, request, box);
    var file := PlannedBy(again, files, later.selected, PlannerOf(now.candidates, s, later, box), item);
    x := PlannedFor(batch, files, request.selected, plan, file);
    PlanTables(batch, files, request.selected, plan);
    FinalAt(catalog, batch, box.tools.format, x.table, x);
    SettledOnce(x, file, catalog.candidates, now.candidates, s, request, later, box);
  }

  // ---- histories ----

  datatype World = World(sources: Sources, catalog: Catalog)

  /** A sync that may stop after any number of its writes. */
  ghost predicate SyncStep(w: World, next: World, request: Request, batch: seq<Item>, n: nat, box: Toolbox) {
    && next.sources == w.sources
    && IsPlan(batch, w.catalog.candidates, w.sources, request, box)
    && n <= 2 * |batch|
    && next.catalog == AfterWrites(w.catalog, batch, n, box.tools.format)
  }

  /** Reviewers and maintainers change any source; only syncs change candidates. */
  ghost predicate Step(w: World, next: World, box: Toolbox) {
    || next.catalog == w.catalog
    || exists request, batch, n :: SyncStep(w, next, request, batch, n, box)
  }

  /** A history that starts without candidates. */
  ghost predicate History(ws: seq<World>, box: Toolbox) {
    && ws != [] && ws[0].catalog.candidates == map[]
    && forall i :: 0 <= i < |ws| - 1 ==> Step(ws[i], ws[i + 1], box)
  }

  ghost predicate Keeps(w: World, t: string, c: Candidate) {
    t in w.catalog.candidates && w.catalog.candidates[t].Stored? && w.catalog.candidates[t].candidate == c
  }

  /** In this world a candidate `c` for the review of `t` can be created, of a document inside the fact lock. */
  ghost predicate Creates(w: World, t: string, c: Candidate, file: Loaded, document: PublishedDocument,
                          context: PublicationContext, box: Toolbox) {
    && file in Parsed(w.sources.reviews) && TableOf(file) == t
    && context.review == file.review && PublishedIssues(context, document, box.hash) == []
    && CreateCandidate(document, file.review, w.sources.inputs, box.tools) == Ok(c)
  }

  /** In this world `p` is the promotion of the stored candidate `c` by an approved review. */
  ghost predicate Promotes(w: World, t: string, c: Candidate, p: Candidate, file: Loaded, commit: string, box: Toolbox) {
    && Keeps(w, t, c)
    && file in Parsed(w.sources.reviews) && TableOf(file) == t
    && PromoteCandidate(c, file.review, commit, w.sources.inputs, box.tools) == Ok(p)
  }

  /** How a stored candidate came to be, somewhere before world `i`. */
  ghost predicate Explained(ws: seq<World>, i: nat, t: string, c: Candidate, box: Toolbox)
    requires i <= |ws|
  {
    || (c.stage.Review? && exists k, file, document, context :: 0 <= k < i && Creates(ws[k], t, c, file, document, context, box))
    || (c.stage.Promoted? && exists k, b, file, commit :: 0 <= k < i && Promotes(ws[k], t, b, c, file, commit, box))
  }

  lemma ExplainedLater(ws: seq<World>, i: nat, j: nat, t: string, c: Candidate, box: Toolbox)
    requires i <= j <= |ws| && Explained(ws, i, t, c, box)
    ensures Explained(ws, j, t, c, box)
  {
    hide Creates, Promotes;
  }

  lemma PromotionStage(c: Candidate, review: ReviewDocument, commit: string, inputs: Inputs, tools: Tools)
    requires PromoteCandidate(c, review, commit, inputs, tools).Ok?
    ensures PromoteCandidate(c, review, commit, inputs, tools).value.stage.Promoted?
    ensures c.stage.Review? && review.documentStatus.Approved? && ValidateCandidate(c, review, inputs, tools).Ok?
  {
    hide ValidateCandidate, ReviewableBodyHash;
  }

  lemma DecidedPromotion(review: ReviewDocument, stored: Option<Candidate>, s: Sources, request: Request, box: Toolbox, p: Candidate)
    requires Decide(review, stored, s, request, box) == Promote(p)
    ensures stored.Some? && PromoteCandidate(stored.value, review, request.commit, s.inputs, box.tools) == Ok(p)
  {
    hide ValidateCandidate, PromoteCandidate, Matches;
  }

  lemma DecidedKeep(review: ReviewDocument, stored: Option<Candidate>, s: Sources, request: Request, box: Toolbox, c: Candidate)
    requires Decide(review, stored, s, request, box) == Keep(c)
    ensures stored == Some(c)
  {
    hide ValidateCandidate, PromoteCandidate, Matches;
  }

  lemma PublishedInside(file: Loaded, s: Sources, commit: string, generator: Generator, box: Toolbox) returns (context: PublicationContext)
    requires PublishFor(file, s, commit, generator, box.hash).Ok?
    ensures context.review == file.review
    ensures PublishedIssues(context, PublishFor(file, s, commit, generator, box.hash).value, box.hash) == []
  {
    hide PublishedIssues, TableMap;
    context := ContextFor(file, s.schema.value, s.schemaPath, commit);
  }

  lemma PromotionExplained(ws: seq<World>, i: nat, request: Request, t: string, p: Candidate, file: Loaded, box: Toolbox)
    requires i < |ws| && file in Parsed(ws[i].sources.reviews) && TableOf(file) == t
    requires Decide(file.review, Load(ws[i].catalog.candidates, t), ws[i].sources, request, box) == Promote(p)
    ensures Explained(ws, i + 1, t, p, box)
  {
    hide Decide, PromoteCandidate, ValidateCandidate, Creates, Candidate.Valid;
    var w := ws[i];
    var stored := Load(w.catalog.candidates, t);
    DecidedPromotion(file.review, stored, w.sources, request, box, p);
    PromotionStage(stored.value, file.review, request.commit, w.sources.inputs, box.tools);
    assert Promotes(w, t, stored.value, p, file, request.commit, box);
  }

  lemma CreationExplained(ws: seq<World>, i: nat, t: string, c: Candidate, file: Loaded, document: PublishedDocument,
                          context: PublicationContext, box: Toolbox)
    requires i < |ws| && file in Parsed(ws[i].sources.reviews) && TableOf(file) == t && context.review == file.review
    requires PublishedIssues(context, document, box.hash) == []
    requires CreateCandidate(document, file.review, ws[i].sources.inputs, box.tools) == Ok(c)
    ensures Explained(ws, i + 1, t, c, box)
  {
    hide CreateCandidate, PublishedIssues, Promotes, ValidateCandidate, CheckIntegrity, Candidate.Valid;
    CreatedValidates(document, file.review, ws[i].sources.inputs, box.tools);
    assert Creates(ws[i], t, c, file, document, context, box);
  }

  /** A write of a sync step keeps, promotes or creates. */
  lemma ItemExplained(ws: seq<World>, i: nat, request: Request, item: Item, file: Loaded, box: Toolbox)
    requires i < |ws| && file in Parsed(ws[i].sources.reviews)
    requires ItemFor(file, PlannerOf(ws[i].catalog.candidates, ws[i].sources, request, box)) == Some(item)
    ensures Keeps(ws[i], item.table, item.candidate) || Explained(ws, i + 1, item.table, item.candidate, box)
  {
    hide Decide, PublishFor, CreateFor, CreateCandidate, PromoteCandidate, AsksIdentity, PublishedIssues, Explained, Candidate.Valid;
    var w, t, c := ws[i], item.table, item.candidate;
    var stored := Load(w.catalog.candidates, t);
    match Decide(file.review, stored, w.sources, request, box)
    case Keep(k) => DecidedKeep(file.review, stored, w.sources, request, box, k);
    case Fail(_) =>
    case Promote(p) => PromotionExplained(ws, i, request, t, p, file, box);
    case Regenerate =>
      var document := PublishFor(file, w.sources, request.commit, request.generator.value, box.hash).value;
      var context := PublishedInside(file, w.sources, request.commit, request.generator.value, box);
      CreatedFrom(document, file, w.sources, box);
      CreationExplained(ws, i, t, c, file, document, context, box);
  }

  /** What one step stores was stored before it, or was one of its items. */
  lemma StepStores(ws: seq<World>, i: nat, t: string, c: Candidate, box: Toolbox)
    requires i < |ws| - 1 && Step(ws[i], ws[i + 1], box) && Keeps(ws[i + 1], t, c)
    ensures Keeps(ws[i], t, c) || Explained(ws, i + 1, t, c, box)
  {
    hide Clean, Plans, PlannerOf, AfterWrites, Explained, ItemFor, TableOf, Rendered, OneItemPerTable;
    var w, next := ws[i], ws[i + 1];
    if next.catalog != w.catalog {
      var request: Request, batch: seq<Item>, n: nat :| SyncStep(w, next, request, batch, n, box);
      var files, plan := Parsed(w.sources.reviews), PlannerOf(w.catalog.candidates, w.sources, request, box);
      if HasItem(batch, t) {
        var item :| item in batch && item.table == t;
        PlanTables(batch, files, request.selected, plan);
        var k :| 0 <= k < |batch| && batch[k] == item;
        WrittenItem(w.catalog, batch, n, box.tools.format, k);
        var file := PlannedBy(batch, files, request.selected, plan, item);
        ItemExplained(ws, i, request, item, file, box);
      } else {
        OthersUntouched(w.catalog, batch, n, box.tools.format, t);
      }
    }
  }

  /** Every stored candidate was created, or promoted from a stored one, earlier in the history. */
  lemma {:induction false} StoredExplained(ws: seq<World>, i: nat, t: string, c: Candidate, box: Toolbox)
    requires History(ws, box) && i < |ws| && Keeps(ws[i], t, c)
    ensures Explained(ws, i, t, c, box)
    decreases i
  {
    hide Step, Explained;
    if i > 0 {
      assert Step(ws[i - 1], ws[i - 1 + 1], box);
      StepStores(ws, i - 1, t, c, box);
      if Keeps(ws[i - 1], t, c) {
        StoredExplained(ws, i - 1, t, c, box);
        ExplainedLater(ws, i - 1, i, t, c, box);
      }
    }
  }

  /**
   * What is approved is text that was stored for review: a promoted candidate stored at any time was stored
   * before in review state with the same reviewable text, and that one was created earlier still from a
   * review with the content of the approving one, up to status, and from the same contract and guideline,
   * and its document passed the fact lock of that review.
   */
  lemma PromotedWasReviewed(ws: seq<World>, i: nat, t: string, p: Candidate, box: Toolbox)
    returns (created: nat, promoted: nat, c: Candidate, source: Loaded, approving: Loaded, context: PublicationContext)
    requires CollisionFree(box.tools) && History(ws, box) && i < |ws| && Keeps(ws[i], t, p) && p.stage.Promoted?
    ensures created < promoted < i
    ensures Keeps(ws[promoted], t, c) && c.stage.Review?
    ensures Reviewable(c.document, box.tools.format) == Reviewable(p.document, box.tools.format)
    ensures p == c.(stage := Promoted, document := ApprovedDocument(c.document, p.document.provenance.sourceReviewCommit))
    ensures source in Parsed(ws[created].sources.reviews) && TableOf(source) == t
    ensures approving in Parsed(ws[promoted].sources.reviews) && TableOf(approving) == t
    ensures approving.review.documentStatus.Approved? && SameReview(source.review, approving.review)
    ensures ws[created].sources.inputs == ws[promoted].sources.inputs
    ensures CreateCandidate(c.document, source.review, ws[created].sources.inputs, box.tools) == Ok(c)
    ensures context.review == source.review && PublishedIssues(context, c.document, box.hash) == []
  {
    hide History, CreateCandidate, PromoteCandidate, ValidateCandidate, Reviewable, SameReview, PublishedIssues, CollisionFree;
    StoredExplained(ws, i, t, p, box);
    var k, b, approvedFile, commit :| 0 <= k < i && Promotes(ws[k], t, b, p, approvedFile, commit, box);
    promoted, c, approving := k, b, approvedFile;
    PromotionStage(c, approving.review, commit, ws[k].sources.inputs, box.tools);
    PromotedUnchanged(c, approving.review, commit, ws[k].sources.inputs, box.tools);
    StoredExplained(ws, promoted, t, c, box);
    var m, file, document, origin :| 0 <= m < promoted && Creates(ws[m], t, c, file, document, origin, box);
    created, source, context := m, file, origin;
    CreatedValidates(document, source.review, ws[m].sources.inputs, box.tools);
    ValidatesExactly(document, source.review, ws[m].sources.inputs, approving.review, ws[k].sources.inputs, box.tools);
  }
}
