/** The planning of a candidate sync, for whatever decides about each table and generates documents. */
module CandidatePlanning {
  import opened Wrappers
  import opened Ordering
  import opened Sorting
  import opened Models
  import opened CandidateLifecycle

  /** A parsed reviewer file. */
  datatype Loaded = Loaded(path: string, review: ReviewDocument)

  datatype Action = Generated | Validated | PromotedNow

  datatype Item = Item(table: string, candidate: Candidate, action: Action)

  datatype SyncError =
    | PreflightFailed | UnknownSelectedTable | GenerationRequired | PublicationFailed
    | CandidateFailed(error: CandidateError)

  datatype Decision = Keep(candidate: Candidate) | Promote(candidate: Candidate) | Regenerate | Fail(error: CandidateError)

  /**
   * What planning asks about a file: the decision, whether reaching it needs the configured identity, the
   * validated document of a generator, if there is one, and the candidate frozen from such a document.
   */
  datatype Planner = Planner(
    decide: Loaded -> Decision,
    asks: Loaded -> bool,
    publish: Option<Loaded -> Result<PublishedDocument, SyncError>>,
    create: (PublishedDocument, Loaded) -> Result<Candidate, SyncError>
  )

  function TableOf(file: Loaded): string {
    file.review.table
  }

  function ItemTable(item: Item): string {
    item.table
  }

  /** Published documents are about the table of their review. */
  ghost predicate OnTable(plan: Planner) {
    plan.publish.Some? ==> forall file :: plan.publish.value(file).Ok? ==> plan.publish.value(file).value.table == TableOf(file)
  }

  function GeneratedFor(file: Loaded, plan: Planner): Result<Candidate, SyncError> {
    if plan.publish.None? then Err(GenerationRequired)
    else
      var document := plan.publish.value(file);
      if document.Err? then Err(document.error) else plan.create(document.value, file)
  }

  /** The item planned for a file, unless planning it fails. */
  function ItemFor(file: Loaded, plan: Planner): Option<Item> {
    match plan.decide(file)
    case Keep(c) => Some(Item(TableOf(file), c, Validated))
    case Promote(c) => Some(Item(TableOf(file), c, PromotedNow))
    case Fail(_) => None
    case Regenerate =>
      var c := GeneratedFor(file, plan);
      if c.Ok? then Some(Item(TableOf(file), c.value, Generated)) else None
  }

  // ---- the selection ----

  predicate IsSelected(file: Loaded, selected: seq<string>) {
    selected == [] || TableOf(file) in selected
  }

  function Chosen(files: seq<Loaded>, selected: seq<string>): seq<Loaded> {
    if files == [] then []
    else Chosen(files[..|files| - 1], selected) + if IsSelected(files[|files| - 1], selected) then [files[|files| - 1]] else []
  }

  ghost predicate SelectionKnown(files: seq<Loaded>, selected: seq<string>) {
    forall t :: t in selected ==> exists file :: file in files && TableOf(file) == t
  }

  lemma {:induction false} ChosenMembers(files: seq<Loaded>, selected: seq<string>, file: Loaded)
    ensures file in Chosen(files, selected) <==> file in files && IsSelected(file, selected)
    decreases |files|
  {
    if files != [] {
      var init, last := files[..|files| - 1], files[|files| - 1];
      assert files == init + [last];
      ChosenMembers(init, selected, file);
    }
  }

  lemma {:induction false} ChosenDistinct(files: seq<Loaded>, selected: seq<string>)
    requires DistinctKeys(files, TableOf)
    ensures DistinctKeys(Chosen(files, selected), TableOf)
    decreases |files|
  {
    if files != [] {
      var init, last := files[..|files| - 1], files[|files| - 1];
      assert files == init + [last];
      DistinctAppend(init, last, TableOf);
      ChosenDistinct(init, selected);
      forall x | x in Chosen(init, selected) { ChosenMembers(init, selected, x); }
      DistinctAppend(Chosen(init, selected), last, TableOf);
      assert Chosen(init, selected) + [] == Chosen(init, selected);
    }
  }

  method LoadSelected(files: seq<Loaded>, selected: seq<string>) returns (r: Result<seq<Loaded>, SyncError>)
    ensures r.Ok? <==> SelectionKnown(files, selected)
    ensures r.Ok? ==> r.value == Chosen(files, selected)
  {
    var available := set file | file in files :: TableOf(file);
    for i := 0 to |selected|
      invariant forall k :: 0 <= k < i ==> selected[k] in available
    {
      if selected[i] !in available {
        assert selected[i] in selected;
        return Err(UnknownSelectedTable);
      }
    }
    var chosen: seq<Loaded> := [];
    for i := 0 to |files|
      invariant chosen == Chosen(files[..i], selected)
    {
      assert files[..i + 1][..i] == files[..i];
      if IsSelected(files[i], selected) {
        chosen := chosen + [files[i]];
      }
    }
    assert files[..|files|] == files;
    return Ok(chosen);
  }

  // ---- the plan ----

  ghost predicate IsPlanned(item: Item, file: Loaded, files: seq<Loaded>, selected: seq<string>, plan: Planner) {
    file in files && IsSelected(file, selected) && ItemFor(file, plan) == Some(item)
  }

  /** One item for every selected file, in table order. */
  ghost predicate Plans(batch: seq<Item>, files: seq<Loaded>, selected: seq<string>, plan: Planner) {
    && DistinctKeys(files, TableOf) && SelectionKnown(files, selected)
    && StrictlyOrdered(batch, ItemTable, StrLess)
    && (forall file :: file in files && IsSelected(file, selected) ==>
          exists item :: item in batch && IsPlanned(item, file, files, selected, plan))
    && (forall item :: item in batch ==> exists file :: IsPlanned(item, file, files, selected, plan))
  }

  /** Whether planning succeeds. */
  ghost predicate CanPlan(files: seq<Loaded>, selected: seq<string>, plan: Planner) {
    && SelectionKnown(files, selected)
    && forall file :: file in files && IsSelected(file, selected) ==> ItemFor(file, plan).Some?
  }

  lemma PlannedTable(item: Item, file: Loaded, files: seq<Loaded>, selected: seq<string>, plan: Planner)
    requires IsPlanned(item, file, files, selected, plan)
    ensures item.table == TableOf(file)
  {
  }

  ghost predicate OneItemPerTable(batch: seq<Item>) {
    forall i, j :: 0 <= i < j < |batch| ==> batch[i].table != batch[j].table
  }

  /** No run plans two items for one table. */
  lemma PlanTables(batch: seq<Item>, files: seq<Loaded>, selected: seq<string>, plan: Planner)
    requires Plans(batch, files, selected, plan)
    ensures OneItemPerTable(batch)
  {
    StrLessTotal();
    forall i, j | 0 <= i < j < |batch| ensures batch[i].table != batch[j].table {
      assert StrLess(ItemTable(batch[i]), ItemTable(batch[j]));
    }
  }

  lemma PlannedBy(batch: seq<Item>, files: seq<Loaded>, selected: seq<string>, plan: Planner, item: Item) returns (file: Loaded)
    requires Plans(batch, files, selected, plan) && item in batch
    ensures IsPlanned(item, file, files, selected, plan) && item.table == TableOf(file)
  {
    file :| IsPlanned(item, file, files, selected, plan);
  }

  lemma PlannedFor(batch: seq<Item>, files: seq<Loaded>, selected: seq<string>, plan: Planner, file: Loaded) returns (item: Item)
    requires Plans(batch, files, selected, plan) && file in files && IsSelected(file, selected)
    ensures item in batch && IsPlanned(item, file, files, selected, plan) && item.table == TableOf(file)
  {
    item :| item in batch && IsPlanned(item, file, files, selected, plan);
  }

  // ---- decisions ----

  ghost predicate DecidedAt(items: map<string, Item>, pending: seq<Loaded>, file: Loaded, plan: Planner) {
    var t := TableOf(file);
    match plan.decide(file)
    case Keep(c) => t in items && items[t] == Item(t, c, Validated) && file !in pending
    case Promote(c) => t in items && items[t] == Item(t, c, PromotedNow) && file !in pending
    case Regenerate => t !in items && file in pending
    case Fail(_) => false
  }

  /** The items decided for the first `n` files, and the files left to generate for. */
  ghost predicate Decided(items: map<string, Item>, pending: seq<Loaded>, files: seq<Loaded>, n: nat, plan: Planner)
    requires n <= |files|
  {
    && (forall k :: 0 <= k < n ==> DecidedAt(items, pending, files[k], plan))
    && (forall t :: t in items ==> exists k :: 0 <= k < n && TableOf(files[k]) == t)
    && (forall file :: file in pending ==> exists k :: 0 <= k < n && files[k] == file)
    && DistinctKeys(pending, TableOf)
  }

  lemma NotYetDecided(items: map<string, Item>, pending: seq<Loaded>, files: seq<Loaded>, n: nat, plan: Planner)
    requires n < |files| && DistinctKeys(files, TableOf) && Decided(items, pending, files, n, plan)
    ensures TableOf(files[n]) !in items && files[n] !in pending
    ensures DistinctKeys(pending + [files[n]], TableOf)
  {
    DistinctAppend(pending, files[n], TableOf);
  }

  lemma StillDecided(items: map<string, Item>, pending: seq<Loaded>, file: Loaded, next: Loaded, plan: Planner,
                     nextItems: map<string, Item>, nextPending: seq<Loaded>)
    requires TableOf(file) != TableOf(next) && DecidedAt(items, pending, file, plan)
    requires nextPending == pending || nextPending == pending + [next]
    requires nextItems.Keys <= items.Keys + {TableOf(next)}
    requires forall t :: t in items && t != TableOf(next) ==> t in nextItems && nextItems[t] == items[t]
    ensures DecidedAt(nextItems, nextPending, file, plan)
  {
  }

  lemma DecidedNext(items: map<string, Item>, pending: seq<Loaded>, files: seq<Loaded>, n: nat, plan: Planner,
                    nextItems: map<string, Item>, nextPending: seq<Loaded>)
    requires n < |files| && DistinctKeys(files, TableOf) && Decided(items, pending, files, n, plan)
    requires nextPending == pending || nextPending == pending + [files[n]]
    requires nextItems.Keys <= items.Keys + {TableOf(files[n])}
    requires forall t :: t in items && t != TableOf(files[n]) ==> t in nextItems && nextItems[t] == items[t]
    requires DecidedAt(nextItems, nextPending, files[n], plan)
    ensures Decided(nextItems, nextPending, files, n + 1, plan)
  {
    hide TableOf;
    NotYetDecided(items, pending, files, n, plan);
    forall k | 0 <= k < n + 1 ensures DecidedAt(nextItems, nextPending, files[k], plan) {
      if k < n {
        StillDecided(items, pending, files[k], files[n], plan, nextItems, nextPending);
      }
    }
    hide DecidedAt;
    forall file | file in nextPending ensures exists k :: 0 <= k < n + 1 && files[k] == file {
      if file in pending {
        var k :| 0 <= k < n && files[k] == file;
      } else {
        assert files[n] == file;
      }
    }
  }

  method DecideOne(items: map<string, Item>, pending: seq<Loaded>, files: seq<Loaded>, n: nat, plan: Planner)
    returns (r: Result<(map<string, Item>, seq<Loaded>), SyncError>)
    requires n < |files| && DistinctKeys(files, TableOf) && Decided(items, pending, files, n, plan)
    ensures r.Ok? <==> !plan.decide(files[n]).Fail?
    ensures r.Ok? ==> Decided(r.value.0, r.value.1, files, n + 1, plan)
  {
    hide Decided, TableOf;
    var t := TableOf(files[n]);
    NotYetDecided(items, pending, files, n, plan);
    var nextItems, nextPending := items, pending;
    match plan.decide(files[n]) {
      case Keep(c) => nextItems := items[t := Item(t, c, Validated)];
      case Promote(c) => nextItems := items[t := Item(t, c, PromotedNow)];
      case Regenerate => nextPending := pending + [files[n]];
      case Fail(error) => return Err(CandidateFailed(error));
    }
    DecidedNext(items, pending, files, n, plan, nextItems, nextPending);
    return Ok((nextItems, nextPending));
  }

  /** The identity is asked for at most once, and only when some file needs it. */
  method DecideAll(files: seq<Loaded>, plan: Planner)
    returns (r: Result<(map<string, Item>, seq<Loaded>), SyncError>, identityCalls: nat)
    requires DistinctKeys(files, TableOf)
    ensures r.Ok? <==> forall file :: file in files ==> !plan.decide(file).Fail?
    ensures r.Ok? ==> Decided(r.value.0, r.value.1, files, |files|, plan)
    ensures identityCalls <= 1 && ((forall file :: file in files ==> !plan.asks(file)) ==> identityCalls == 0)
    ensures r.Ok? && (exists file :: file in files && plan.asks(file)) ==> identityCalls == 1
  {
    hide DecidedAt;
    var items: map<string, Item> := map[];
    var pending: seq<Loaded> := [];
    identityCalls := 0;
    for i := 0 to |files|
      invariant identityCalls <= 1 && ((forall file :: file in files ==> !plan.asks(file)) ==> identityCalls == 0)
      invariant (exists k :: 0 <= k < i && plan.asks(files[k])) ==> identityCalls == 1
      invariant forall k :: 0 <= k < i ==> !plan.decide(files[k]).Fail?
      invariant Decided(items, pending, files, i, plan)
    {
      assert files[i] in files;
      if identityCalls == 0 && plan.asks(files[i]) {
        identityCalls := 1;
      }
      var step := DecideOne(items, pending, files, i, plan);
      if step.Err? {
        return step, identityCalls;
      }
      items, pending := step.value.0, step.value.1;
    }
    return Ok((items, pending)), identityCalls;
  }

  // ---- generation ----

  method PublishAll(pending: seq<Loaded>, publish: Loaded -> Result<PublishedDocument, SyncError>)
    returns (r: Result<seq<PublishedDocument>, SyncError>)
    ensures r.Ok? <==> forall file :: file in pending ==> publish(file).Ok?
    ensures r.Ok? ==> |r.value| == |pending| && forall k :: 0 <= k < |pending| ==> publish(pending[k]) == Ok(r.value[k])
  {
    var documents: seq<PublishedDocument> := [];
    var failed := false;
    for i := 0 to |pending|
      invariant failed <==> !forall k :: (0 <= k < i ==> publish(pending[k]).Ok?)
      invariant !failed ==> |documents| == i
      invariant !failed ==> forall k :: 0 <= k < i ==> publish(pending[k]) == Ok(documents[k])
    {
      assert pending[i] in pending;
      var p := publish(pending[i]);
      if p.Err? {
        failed := true;
      } else {
        documents := documents + [p.value];
      }
    }
    if failed {
      var k :| 0 <= k < |pending| && publish(pending[k]).Err?;
      assert pending[k] in pending;
      return Err(PublicationFailed);
    }
    return Ok(documents);
  }

  ghost predicate GeneratedAt(all: map<string, Item>, file: Loaded, plan: Planner) {
    var c := GeneratedFor(file, plan);
    c.Ok? && TableOf(file) in all && all[TableOf(file)] == Item(TableOf(file), c.value, Generated)
  }

  /** `all` is `items` with the candidates of the first `n` pending files added. */
  ghost predicate HasGenerated(items: map<string, Item>, all: map<string, Item>, pending: seq<Loaded>, n: nat, plan: Planner)
    requires n <= |pending|
  {
    && (forall t :: t in items && (forall file :: file in pending ==> TableOf(file) != t) ==> t in all && all[t] == items[t])
    && (forall t :: t in all ==> t in items || exists k :: 0 <= k < n && TableOf(pending[k]) == t)
    && (forall k :: 0 <= k < n ==> GeneratedAt(all, pending[k], plan))
  }

  lemma GeneratedNext(items: map<string, Item>, before: map<string, Item>, pending: seq<Loaded>, n: nat, plan: Planner, c: Candidate)
    requires n < |pending| && DistinctKeys(pending, TableOf) && HasGenerated(items, before, pending, n, plan)
    requires GeneratedFor(pending[n], plan) == Ok(c)
    ensures var t := TableOf(pending[n]);
            HasGenerated(items, before[t := Item(t, c, Generated)], pending, n + 1, plan)
  {
    hide GeneratedFor, TableOf;
    var t := TableOf(pending[n]);
    var all := before[t := Item(t, c, Generated)];
    assert pending[n] in pending;
    forall k | 0 <= k < n + 1 ensures GeneratedAt(all, pending[k], plan) {
      if k < n {
        assert GeneratedAt(before, pending[k], plan);
        assert TableOf(pending[k]) != t;
      }
    }
  }

  /** Publishes for every pending file before any candidate is frozen. */
  method GenerateAll(items: map<string, Item>, pending: seq<Loaded>, plan: Planner) returns (r: Result<map<string, Item>, SyncError>)
    requires plan.publish.Some? && OnTable(plan) && DistinctKeys(pending, TableOf)
    ensures r.Ok? <==> forall file :: file in pending ==> GeneratedFor(file, plan).Ok?
    ensures r.Ok? ==> HasGenerated(items, r.value, pending, |pending|, plan)
  {
    hide HasGenerated;
    var documents := PublishAll(pending, plan.publish.value);
    if documents.Err? {
      var file :| file in pending && plan.publish.value(file).Err?;
      assert GeneratedFor(file, plan).Err?;
      return Err(documents.error);
    }
    var all := items;
    assert HasGenerated(items, all, pending, 0, plan) by { NothingGenerated(items, pending, plan); }
    for i := 0 to |pending|
      invariant HasGenerated(items, all, pending, i, plan)
      invariant forall k :: 0 <= k < i ==> GeneratedFor(pending[k], plan).Ok?
    {
      var document := documents.value[i];
      assert pending[i] in pending && document.table == TableOf(pending[i]);
      var created := plan.create(document, pending[i]);
      if created.Err? {
        assert GeneratedFor(pending[i], plan).Err?;
        return Err(created.error);
      }
      ghost var before := all;
      all := all[document.table := Item(document.table, created.value, Generated)];
      GeneratedNext(items, before, pending, i, plan, created.value);
    }
    return Ok(all);
  }

  lemma NothingGenerated(items: map<string, Item>, pending: seq<Loaded>, plan: Planner)
    ensures HasGenerated(items, items, pending, 0, plan)
  {
  }

  // ---- putting the plan together ----

  function ItemsAt(items: map<string, Item>, keys: seq<string>): (batch: seq<Item>)
    requires forall k :: k in keys ==> k in items
    ensures |batch| == |keys| && forall i :: 0 <= i < |keys| ==> keys[i] in items && batch[i] == items[keys[i]]
  {
    seq(|keys|, i requires 0 <= i < |keys| && keys[i] in items => items[keys[i]])
  }

  /** `[items[table] for table in sorted(items)]`. */
  function InOrder(items: map<string, Item>): seq<Item> {
    ItemsAt(items, SortedSet(items.Keys))
  }

  /** `items` holds exactly the planned items of the selected files. */
  ghost predicate IsPlanMap(items: map<string, Item>, files: seq<Loaded>, selected: seq<string>, plan: Planner) {
    && (forall file :: file in files && IsSelected(file, selected) ==>
          TableOf(file) in items && ItemFor(file, plan) == Some(items[TableOf(file)]))
    && (forall t :: t in items ==> exists file :: file in files && IsSelected(file, selected) && TableOf(file) == t)
  }

  lemma PlanMapNamed(items: map<string, Item>, files: seq<Loaded>, selected: seq<string>, plan: Planner)
    requires IsPlanMap(items, files, selected, plan)
    ensures forall t :: t in items ==> ItemTable(items[t]) == t
  {
    forall t | t in items ensures ItemTable(items[t]) == t {
      var file :| file in files && IsSelected(file, selected) && TableOf(file) == t;
      PlannedTable(items[t], file, files, selected, plan);
    }
  }

  lemma ItemsInOrder(items: map<string, Item>, batch: seq<Item>)
    requires forall t :: t in items ==> ItemTable(items[t]) == t
    requires batch == InOrder(items)
    ensures StrictlyOrdered(batch, ItemTable, StrLess)
    ensures forall item :: item in batch <==> exists t :: t in items && items[t] == item
  {
    hide SortedSet, StrLess;
    var keys := SortedSet(items.Keys);
    SortedSetSorted(items.Keys);
    forall i, j | 0 <= i < j < |batch| ensures StrLess(ItemTable(batch[i]), ItemTable(batch[j])) {
      assert keys[i] in keys && keys[j] in keys;
    }
    forall t | t in items ensures items[t] in batch {
      assert t in keys;
      var i :| 0 <= i < |keys| && keys[i] == t;
      assert batch[i] == items[t];
    }
  }

  lemma PlanInOrder(items: map<string, Item>, files: seq<Loaded>, selected: seq<string>, plan: Planner)
    requires DistinctKeys(files, TableOf) && SelectionKnown(files, selected)
    requires IsPlanMap(items, files, selected, plan)
    ensures Plans(InOrder(items), files, selected, plan)
    ensures CanPlan(files, selected, plan)
  {
    hide DistinctKeys, SelectionKnown, StrictlyOrdered, ItemFor, InOrder, TableOf;
    PlanMapNamed(items, files, selected, plan);
    var batch := InOrder(items);
    ItemsInOrder(items, batch);
    forall file | file in files && IsSelected(file, selected)
      ensures exists item :: item in batch && IsPlanned(item, file, files, selected, plan)
    {
      assert items[TableOf(file)] in batch;
      assert IsPlanned(items[TableOf(file)], file, files, selected, plan);
    }
    forall item | item in batch ensures exists file :: IsPlanned(item, file, files, selected, plan) {
      var t :| t in items && items[t] == item;
      var file :| file in files && IsSelected(file, selected) && TableOf(file) == t;
      assert IsPlanned(item, file, files, selected, plan);
    }
  }

  /** Items and pending files together are the plan. */
  lemma DecidedPlan(items: map<string, Item>, pending: seq<Loaded>, all: map<string, Item>, files: seq<Loaded>,
                    selected: seq<string>, plan: Planner)
    requires DistinctKeys(Chosen(files, selected), TableOf)
    requires Decided(items, pending, Chosen(files, selected), |Chosen(files, selected)|, plan)
    requires if pending == [] then all == items else HasGenerated(items, all, pending, |pending|, plan)
    ensures IsPlanMap(all, files, selected, plan)
  {
    hide GeneratedFor, IsSelected, TableOf, Chosen;
    var chosen := Chosen(files, selected);
    forall file | file in files && IsSelected(file, selected)
      ensures TableOf(file) in all && ItemFor(file, plan) == Some(all[TableOf(file)])
    {
      ChosenMembers(files, selected, file);
      DecidedItem(items, pending, all, chosen, plan, file);
    }
    forall t | t in all ensures exists file :: file in files && IsSelected(file, selected) && TableOf(file) == t {
      var file := PlannedFrom(items, pending, all, chosen, plan, t);
      ChosenMembers(files, selected, file);
    }
  }

  lemma PlannedFrom(items: map<string, Item>, pending: seq<Loaded>, all: map<string, Item>, chosen: seq<Loaded>, plan: Planner, t: string)
    returns (file: Loaded)
    requires Decided(items, pending, chosen, |chosen|, plan)
    requires if pending == [] then all == items else HasGenerated(items, all, pending, |pending|, plan)
    requires t in all
    ensures file in chosen && TableOf(file) == t
  {
    hide DecidedAt, GeneratedAt, TableOf;
    if t in items {
      var k :| 0 <= k < |chosen| && TableOf(chosen[k]) == t;
      file := chosen[k];
    } else {
      var k :| 0 <= k < |pending| && TableOf(pending[k]) == t;
      file := pending[k];
      assert file in pending;
    }
  }

  lemma DecidedItem(items: map<string, Item>, pending: seq<Loaded>, all: map<string, Item>, chosen: seq<Loaded>, plan: Planner, file: Loaded)
    requires DistinctKeys(chosen, TableOf) && file in chosen && Decided(items, pending, chosen, |chosen|, plan)
    requires if pending == [] then all == items else HasGenerated(items, all, pending, |pending|, plan)
    ensures TableOf(file) in all && ItemFor(file, plan) == Some(all[TableOf(file)])
  {
    hide GeneratedFor;
    var k :| 0 <= k < |chosen| && chosen[k] == file;
    assert DecidedAt(items, pending, chosen[k], plan);
    if plan.decide(file).Regenerate? {
      var p :| 0 <= p < |pending| && pending[p] == file;
      assert GeneratedAt(all, pending[p], plan);
    } else {
      forall other | other in pending ensures TableOf(other) != TableOf(file) {
        var q :| 0 <= q < |chosen| && chosen[q] == other;
        assert DecidedAt(items, pending, chosen[q], plan);
      }
    }
  }

  lemma PendingRegenerates(items: map<string, Item>, pending: seq<Loaded>, chosen: seq<Loaded>, plan: Planner)
    requires Decided(items, pending, chosen, |chosen|, plan)
    ensures DistinctKeys(pending, TableOf)
    ensures forall file :: file in pending <==> file in chosen && plan.decide(file).Regenerate?
  {
    forall file | file in chosen && plan.decide(file).Regenerate? ensures file in pending {
      var k :| 0 <= k < |chosen| && chosen[k] == file;
      assert DecidedAt(items, pending, chosen[k], plan);
    }
    forall file | file in pending ensures file in chosen && plan.decide(file).Regenerate? {
      var k :| 0 <= k < |chosen| && chosen[k] == file;
      assert DecidedAt(items, pending, chosen[k], plan);
    }
  }

  /** How often each factory was called. */
  datatype Calls = Calls(identity: nat, generator: nat)

  /**
   * Decides every selected table, then generates what is missing; nothing is written. The generator is made
   * only if some table is left to generate.
   */
  method PlanSync(files: seq<Loaded>, selected: seq<string>, plan: Planner) returns (r: Result<seq<Item>, SyncError>, calls: Calls)
    requires DistinctKeys(files, TableOf) && OnTable(plan)
    ensures r.Ok? <==> CanPlan(files, selected, plan)
    ensures r.Ok? ==> Plans(r.value, files, selected, plan)
    ensures calls.identity <= 1 && calls.generator <= 1
    ensures (forall file :: file in files && IsSelected(file, selected) ==> !plan.asks(file) && !plan.decide(file).Regenerate?) ==>
              calls == Calls(0, 0)
    ensures r.Ok? ==> (calls.identity == 1 <==> exists file :: file in files && IsSelected(file, selected) && plan.asks(file))
    ensures r.Ok? ==> (calls.generator == 1 <==> exists file :: file in files && IsSelected(file, selected) && plan.decide(file).Regenerate?)
  {
    hide DistinctKeys, Decided, HasGenerated, IsPlanMap, Plans, GeneratedFor, IsSelected, InOrder, OnTable;
    calls := Calls(0, 0);
    var selection := LoadSelected(files, selected);
    if selection.Err? {
      return Err(selection.error), calls;
    }
    var chosen := selection.value;
    forall file { ChosenMembers(files, selected, file); }
    ChosenDistinct(files, selected);
    var decided, identityCalls := DecideAll(chosen, plan);
    calls := Calls(identityCalls, 0);
    if decided.Err? {
      var file :| file in chosen && plan.decide(file).Fail?;
      assert ItemFor(file, plan).None?;
      return Err(decided.error), calls;
    }
    var items, pending := decided.value.0, decided.value.1;
    PendingRegenerates(items, pending, chosen, plan);
    var all := items;
    if pending != [] {
      assert pending[0] in pending;
      if plan.publish.None? {
        NothingToGenerateWith(pending[0], plan);
        return Err(GenerationRequired), calls;
      }
      calls := Calls(identityCalls, 1);
      var generated := GenerateAll(items, pending, plan);
      if generated.Err? {
        var file :| file in pending && GeneratedFor(file, plan).Err?;
        assert ItemFor(file, plan).None?;
        return Err(generated.error), calls;
      }
      all := generated.value;
    }
    DecidedPlan(items, pending, all, files, selected, plan);
    PlanInOrder(all, files, selected, plan);
    return Ok(InOrder(all)), calls;
  }

  lemma NothingToGenerateWith(file: Loaded, plan: Planner)
    requires plan.publish.None? && plan.decide(file).Regenerate?
    ensures ItemFor(file, plan).None?
  {
  }
}
