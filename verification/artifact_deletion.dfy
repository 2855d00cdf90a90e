/**
 Deleting a workspace: every claimed file is moved to a planned quarantine name and removed, each step
 recorded before the next, so that a deletion cut short anywhere can be taken up again.
 */
module ArtifactDeletion {
  import opened Outcomes
  import opened Registry
  import opened RegistryInvariant
  import opened ArtifactLayout
  import opened ArtifactSteps
  import opened ArtifactStore

  function QuarantineName(token: string): string {
    ".artifact-delete-" + token + ".quarantine"
  }

  function QuarantinePath(claim: ArtifactClaim, name: string): string {
    Path(claim.collection, name)
  }

  /** Where a delete item's file may still be: at its slot, at its quarantine name, or nowhere. */
  function NamesOf(item: DeleteItem): set<string> {
    var quarantine := if item.quarantineName.Some? then {QuarantinePath(item.claim, item.quarantineName.value)} else {};
    match item.phase
    case Planned => {item.slot} + quarantine
    case Quarantined => quarantine
    case Removed => {}
  }

  /** Some item still has the path as one of its names. */
  predicate Named(items: map<string, DeleteItem>, path: string) {
    exists slot | slot in items :: path in NamesOf(items[slot])
  }

  /** Every file belongs to some item under a name the item still has, and is the claimed file. */
  predicate LayoutIsKnown(sha: Digest, s: Space, files: Files) {
    && (forall path | path in files :: Named(s.deleteItems, path))
    && (forall slot | slot in s.deleteItems ::
          forall path | path in NamesOf(s.deleteItems[slot]) ::
            path in files ==> Holds(sha, files, path, s.deleteItems[slot].claim))
  }

  /** The item's file may still be here: in its slot until it is moved, under its quarantine name until it is gone. */
  ghost predicate MayStand(item: DeleteItem, path: string) {
    || (item.phase == Planned && path == item.slot)
    || (item.phase != Removed && item.quarantineName.Some?
        && path == DirectoryOf(item.claim.collection) + "/" + item.quarantineName.value)
  }

  /** No file but an item's own stands anywhere, and what stands in an item's place is its file, byte for byte. */
  ghost predicate OnlyOwnFiles(sha: Digest, s: Space, files: Files) {
    && (forall path | path in files :: exists slot | slot in s.deleteItems :: MayStand(s.deleteItems[slot], path))
    && forall slot, path | slot in s.deleteItems && path in files && MayStand(s.deleteItems[slot], path) ::
         var claim := s.deleteItems[slot].claim;
         && files[path].identity == claim.identity
         && sha(files[path].content) == claim.sha256 && |files[path].content| == claim.size
  }

  lemma LayoutTells(sha: Digest, s: Space, files: Files)
    ensures LayoutIsKnown(sha, s, files) <==> OnlyOwnFiles(sha, s, files)
  {
    forall item: DeleteItem, path: string
      ensures MayStand(item, path) <==> path in NamesOf(item)
    {}
    hide MayStand, NamesOf;
  }

  // ---------------------------------------------------------------- what a deletion may do

  /** Files may only go if they are a delete item's claimed file, and every file left was there before. */
  ghost predicate OnlyClaimedGo(sha: Digest, s: Space, files: Files, next: Files) {
    && (forall path | path in files ::
          (path in next && next[path] == files[path])
          || exists slot | slot in s.deleteItems :: Holds(sha, files, path, s.deleteItems[slot].claim))
    && (forall path | path in next :: exists source | source in files :: next[path] == files[source])
  }

  ghost predicate SameClaims(s: Space, t: Space) {
    && s.deleteItems.Keys == t.deleteItems.Keys
    && forall slot | slot in s.deleteItems :: s.deleteItems[slot].claim == t.deleteItems[slot].claim
  }

  lemma OnlyClaimedGoChains(sha: Digest, s: Space, t: Space, first: Files, second: Files, third: Files)
    requires SameClaims(s, t)
    requires OnlyClaimedGo(sha, s, first, second) && OnlyClaimedGo(sha, t, second, third)
    ensures OnlyClaimedGo(sha, s, first, third)
  {
    forall path | path in first
      ensures (path in third && third[path] == first[path])
              || exists slot | slot in s.deleteItems :: Holds(sha, first, path, s.deleteItems[slot].claim)
    {
      if path in second && second[path] == first[path] && !(path in third && third[path] == second[path]) {
        var slot :| slot in t.deleteItems && Holds(sha, second, path, t.deleteItems[slot].claim);
        assert Holds(sha, first, path, s.deleteItems[slot].claim);
      }
    }
  }

  // ---------------------------------------------------------------- progress

  function Planneds(items: map<string, DeleteItem>): set<string> {
    set slot | slot in items && items[slot].phase == Planned
  }

  function Unfinished(items: map<string, DeleteItem>): set<string> {
    set slot | slot in items && items[slot].phase != Removed
  }

  /** The phases still ahead of all items: two for a planned one, one for a quarantined one. */
  function Remaining(s: Space): nat {
    |Planneds(s.deleteItems)| + |Unfinished(s.deleteItems)|
  }

  /** Recording one phase of one item leaves exactly one phase less to go. */
  lemma AdvancingMakesProgress(s: Space, op: Operation)
    requires op.AdvanceDelete? && Decide(s, op).Changed?
    ensures Remaining(Decide(s, op).next) == Remaining(s) - 1
  {
    var t := Decide(s, op).next;
    if op.fromItem == Planned {
      assert Planneds(t.deleteItems) == Planneds(s.deleteItems) - {op.slot};
      assert Unfinished(t.deleteItems) == Unfinished(s.deleteItems);
    } else {
      assert Planneds(t.deleteItems) == Planneds(s.deleteItems);
      assert Unfinished(t.deleteItems) == Unfinished(s.deleteItems) - {op.slot};
    }
  }

  lemma PlanningKeepsProgress(s: Space, op: Operation)
    requires op.PlanQuarantine? && Decide(s, op).Changed?
    ensures Remaining(Decide(s, op).next) == Remaining(s)
  {
    var t := Decide(s, op).next;
    assert Planneds(t.deleteItems) == Planneds(s.deleteItems);
    assert Unfinished(t.deleteItems) == Unfinished(s.deleteItems);
  }

  // ---------------------------------------------------------------- the layouts of a deletion

  ghost predicate ItemLayout(sha: Digest, files: Files, item: DeleteItem) {
    var slot := item.slot;
    match item.quarantineName
    case None => Holds(sha, files, slot, item.claim)
    case Some(name) =>
      var path := QuarantinePath(item.claim, name);
      match item.phase
      case Planned =>
        || (Holds(sha, files, slot, item.claim) && path !in files)
        || (slot !in files && Holds(sha, files, path, item.claim))
      case Quarantined => slot !in files && (path in files ==> Holds(sha, files, path, item.claim))
      case Removed => slot !in files && path !in files
  }

  /** The planned quarantine names are no one's slot and no other item's quarantine. */
  ghost predicate QuarantinesDistinct(items: map<string, DeleteItem>) {
    forall slot | slot in items :: items[slot].quarantineName.Some? ==>
      UnusedQuarantine(items, slot, QuarantinePath(items[slot].claim, items[slot].quarantineName.value))
  }

  ghost predicate UnusedQuarantine(items: map<string, DeleteItem>, slot: string, path: string) {
    && path !in items
    && forall other | other in items && other != slot :: items[other].quarantineName.Some? ==>
         QuarantinePath(items[other].claim, items[other].quarantineName.value) != path
  }

  ghost predicate ItemsLaidOut(sha: Digest, items: map<string, DeleteItem>, files: Files) {
    forall slot | slot in items :: items[slot].slot == slot && ItemLayout(sha, files, items[slot])
  }

  ghost predicate AllNamed(items: map<string, DeleteItem>, files: Files) {
    forall path | path in files :: Named(items, path)
  }

  ghost predicate ItemsFit(sha: Digest, items: map<string, DeleteItem>, files: Files) {
    QuarantinesDistinct(items) && ItemsLaidOut(sha, items, files) && AllNamed(items, files)
  }

  /** Every durable state a deletion of a settled workspace can be cut short in. */
  ghost predicate Deletable(id: string, sha: Digest, s: Space, files: Files) {
    && SpaceInv(id, s) && s.workspace.Some? && s.workspace.value.phase == Deleting
    && ItemsFit(sha, s.deleteItems, files)
  }

  lemma DeletableLayoutIsKnown(id: string, sha: Digest, s: Space, files: Files)
    requires Deletable(id, sha, s, files)
    ensures LayoutIsKnown(sha, s, files)
  {
    hide SpaceInv, Named, QuarantinesDistinct;
    forall slot | slot in s.deleteItems
      ensures forall path | path in NamesOf(s.deleteItems[slot]) ::
                path in files ==> Holds(sha, files, path, s.deleteItems[slot].claim)
    {
      assert ItemLayout(sha, files, s.deleteItems[slot]);
    }
  }

  // ---------------------------------------------------------------- one item's steps

  function PlanOp(item: DeleteItem, name: string): Operation {
    PlanQuarantine(item.workspaceId, item.slot, name, item.generation)
  }

  /** Records the next phase of an item that has its quarantine name. */
  function AdvanceItemOp(item: DeleteItem): Operation
    requires item.quarantineName.Some?
  {
    if item.phase == Planned
    then AdvanceDelete(item.workspaceId, item.slot, item.generation, Planned, Quarantined, item.quarantineName.value)
    else AdvanceDelete(item.workspaceId, item.slot, item.generation, Quarantined, Removed, item.quarantineName.value)
  }

  function WithItem(s: Space, item: DeleteItem): Space {
    s.(deleteItems := s.deleteItems[item.slot := item])
  }

  lemma ItemFacts(id: string, s: Space, slot: string)
    requires SpaceInv(id, s) && slot in s.deleteItems
    ensures var item := s.deleteItems[slot];
            && item.workspaceId == id && item.slot == slot && ValidGeneration(item.generation)
            && slot in s.artifacts && s.artifacts[slot] == item.claim
            && (item.phase != Planned ==> item.quarantineName.Some?)
            && (item.quarantineName.Some? ==> ValidName(item.quarantineName.value))
  {
    assert DeleteItemValid(id, s, slot, s.deleteItems[slot]);
  }

  lemma PlanCall(id: string, s: Space, slot: string, name: string)
    requires SpaceInv(id, s) && slot in s.deleteItems && s.deleteItems[slot].phase == Planned
    requires s.deleteItems[slot].quarantineName.None?
    ensures Decide(s, PlanOp(s.deleteItems[slot], name)) ==
            Changed(WithItem(s, s.deleteItems[slot].(quarantineName := Some(name))))
  {
    ItemFacts(id, s, slot);
    hide SpaceInv, ValidName, ValidGeneration;
  }

  /** The item with its next phase recorded. */
  function Advanced(item: DeleteItem): DeleteItem {
    item.(phase := if item.phase == Planned then Quarantined else Removed)
  }

  lemma AdvanceCall(id: string, s: Space, slot: string)
    requires SpaceInv(id, s) && slot in s.deleteItems && s.deleteItems[slot].phase != Removed
    requires s.deleteItems[slot].quarantineName.Some?
    ensures Decide(s, AdvanceItemOp(s.deleteItems[slot])) == Changed(WithItem(s, Advanced(s.deleteItems[slot])))
  {
    ItemFacts(id, s, slot);
    hide SpaceInv, ValidName, ValidGeneration;
  }

  /** A step on one item keeps the deletion resumable if it leaves that item in one of its layouts. */
  lemma ItemStepFits(sha: Digest, items: map<string, DeleteItem>, files: Files, item: DeleteItem, next: Files)
    requires ItemsFit(sha, items, files) && ReplacesItem(items, item)
    requires SameElsewhere(files, next, {item.slot, QuarantinePath(item.claim, item.quarantineName.value)})
    requires ItemLayout(sha, next, item)
    ensures ItemsFit(sha, items[item.slot := item], next)
  {
    hide ItemLayout, QuarantinePath, Named, SameElsewhere;
    var path := QuarantinePath(item.claim, item.quarantineName.value);
    forall slot | slot in items && slot != item.slot
      ensures ItemLayout(sha, next, items[slot])
    {
      if items[slot].quarantineName.Some? {
        assert UnusedQuarantine(items, slot, QuarantinePath(items[slot].claim, items[slot].quarantineName.value));
      }
      ItemLayoutFrame(sha, files, next, items[slot], {item.slot, path});
    }
    NamesStayKnown(sha, items, files, item, next);
    QuarantinesStayDistinct(items, item);
  }

  /** The item is a later form of the one in its slot, with a quarantine name nothing else uses. */
  ghost predicate ReplacesItem(items: map<string, DeleteItem>, item: DeleteItem) {
    && item.slot in items && items[item.slot].slot == item.slot && items[item.slot].claim == item.claim
    && item.quarantineName.Some?
    && UnusedQuarantine(items, item.slot, QuarantinePath(item.claim, item.quarantineName.value))
    && (items[item.slot].quarantineName.Some? ==> items[item.slot].quarantineName == item.quarantineName)
  }

  lemma QuarantinesStayDistinct(items: map<string, DeleteItem>, item: DeleteItem)
    requires QuarantinesDistinct(items) && ReplacesItem(items, item)
    ensures QuarantinesDistinct(items[item.slot := item])
  {
    hide QuarantinePath;
  }

  lemma ItemLayoutFrame(sha: Digest, files: Files, next: Files, item: DeleteItem, busy: set<string>)
    requires ItemLayout(sha, files, item) && SameElsewhere(files, next, busy) && item.slot !in busy
    requires item.quarantineName.Some? ==> QuarantinePath(item.claim, item.quarantineName.value) !in busy
    ensures ItemLayout(sha, next, item)
  {
    hide QuarantinePath;
  }

  lemma NamesStayKnown(sha: Digest, items: map<string, DeleteItem>, files: Files, item: DeleteItem, next: Files)
    requires AllNamed(items, files) && ReplacesItem(items, item)
    requires SameElsewhere(files, next, {item.slot, QuarantinePath(item.claim, item.quarantineName.value)})
    requires ItemLayout(sha, next, item)
    ensures AllNamed(items[item.slot := item], next)
  {
    hide ItemLayout, QuarantinePath, NamesOf, Named;
    var quarantine := QuarantinePath(item.claim, item.quarantineName.value);
    forall path | path in next
      ensures Named(items[item.slot := item], path)
    {
      if path == item.slot || path == quarantine {
        ItemNamesItsFiles(sha, next, item, path);
        NamedHere(items, item, path);
      } else {
        assert path in files;
        NamesBound(items[item.slot], path);
        NamedElsewhere(items, item, path);
      }
    }
  }

  lemma NamesBound(item: DeleteItem, path: string)
    requires path != item.slot
    requires item.quarantineName.Some? ==> path != QuarantinePath(item.claim, item.quarantineName.value)
    ensures path !in NamesOf(item)
  {}

  lemma NamedHere(items: map<string, DeleteItem>, item: DeleteItem, path: string)
    requires path in NamesOf(item)
    ensures Named(items[item.slot := item], path)
  {
    assert items[item.slot := item][item.slot] == item;
  }

  lemma NamedElsewhere(items: map<string, DeleteItem>, item: DeleteItem, path: string)
    requires Named(items, path) && item.slot in items && path !in NamesOf(items[item.slot])
    ensures Named(items[item.slot := item], path)
  {
    hide NamesOf;
    var slot :| slot in items && path in NamesOf(items[slot]);
    assert items[item.slot := item][slot] == items[slot];
  }

  lemma ItemNamesItsFiles(sha: Digest, files: Files, item: DeleteItem, path: string)
    requires ItemLayout(sha, files, item) && path in files && item.quarantineName.Some?
    requires path == item.slot || path == QuarantinePath(item.claim, item.quarantineName.value)
    ensures path in NamesOf(item)
  {}

  // ---------------------------------------------------------------- a deletion as a whole

  /** What holds of a deletion between any two of its steps, whatever the directory looks like. */
  ghost predicate Erasing(id: string, sha: Digest, s: Space, files: Files, t: Space, next: Files) {
    && SpaceInv(id, t) && t.workspace == s.workspace
    && SameClaims(s, t) && OnlyClaimedGo(sha, s, files, next)
    && Remaining(t) <= Remaining(s)
  }

  lemma ErasingStarts(id: string, sha: Digest, s: Space, files: Files)
    requires SpaceInv(id, s)
    ensures Erasing(id, sha, s, files, s, files)
  {}

  lemma ErasingFiles(id: string, sha: Digest, s: Space, files: Files, t: Space, next: Files, last: Files)
    requires Erasing(id, sha, s, files, t, next) && OnlyClaimedGo(sha, t, next, last)
    ensures Erasing(id, sha, s, files, t, last)
  {
    hide SpaceInv, Remaining, OnlyClaimedGo;
    OnlyClaimedGoChains(sha, s, t, files, next, last);
  }

  /** Recording the plan of an item's quarantine. */
  lemma ErasingPlan(id: string, sha: Digest, s: Space, files: Files, t: Space, next: Files, slot: string, name: string)
    requires Erasing(id, sha, s, files, t, next) && slot in t.deleteItems && ValidName(name)
    requires t.deleteItems[slot].phase == Planned && t.deleteItems[slot].quarantineName.None?
    ensures var op := PlanOp(t.deleteItems[slot], name);
            var u := WithItem(t, t.deleteItems[slot].(quarantineName := Some(name)));
            && RowsAccept(id, t, op) && Decide(t, op).next == u && Erasing(id, sha, s, files, u, next)
  {
    hide SpaceInv, SpaceValid, Decide, OnlyClaimedGo, Remaining, ValidName, ValidGeneration;
    ItemFacts(id, t, slot);
    PlanCall(id, t, slot, name);
    Accepted(id, t, PlanOp(t.deleteItems[slot], name));
    PlanningKeepsProgress(t, PlanOp(t.deleteItems[slot], name));
  }

  /** Recording an item's next phase. */
  lemma ErasingAdvance(id: string, sha: Digest, s: Space, files: Files, t: Space, next: Files, slot: string)
    requires Erasing(id, sha, s, files, t, next) && slot in t.deleteItems
    requires t.deleteItems[slot].phase != Removed && t.deleteItems[slot].quarantineName.Some?
    ensures var op := AdvanceItemOp(t.deleteItems[slot]);
            var u := WithItem(t, Advanced(t.deleteItems[slot]));
            && RowsAccept(id, t, op) && Decide(t, op).next == u
            && Erasing(id, sha, s, files, u, next) && Remaining(u) == Remaining(t) - 1
  {
    hide SpaceInv, SpaceValid, Decide, OnlyClaimedGo, Remaining, ValidName, ValidGeneration;
    ItemFacts(id, t, slot);
    AdvanceCall(id, t, slot);
    Accepted(id, t, AdvanceItemOp(t.deleteItems[slot]));
    AdvancingMakesProgress(t, AdvanceItemOp(t.deleteItems[slot]));
  }

  /** Moving a claimed file to a free name, or removing it, touches nothing that is not claimed. */
  lemma ClaimedFileGoes(sha: Digest, s: Space, files: Files, slot: string, path: string, destination: string)
    requires slot in s.deleteItems && Holds(sha, files, path, s.deleteItems[slot].claim) && destination !in files
    ensures OnlyClaimedGo(sha, s, files, Moved(files, path, destination))
  {
    var moved := Moved(files, path, destination);
    forall p | p in moved
      ensures exists source | source in files :: moved[p] == files[source]
    {
      assert moved[p] == files[if p == destination then path else p];
    }
  }

  lemma ClaimedFileLeaves(sha: Digest, s: Space, files: Files, slot: string, path: string)
    requires slot in s.deleteItems && Holds(sha, files, path, s.deleteItems[slot].claim)
    ensures OnlyClaimedGo(sha, s, files, files - {path})
  {
    forall p | p in files - {path}
      ensures exists source | source in files :: (files - {path})[p] == files[source]
    {
      assert (files - {path})[p] == files[p];
    }
  }

  /** The step of one item, seen from the whole deletion. */
  lemma DeletableStep(id: string, sha: Digest, s: Space, files: Files, item: DeleteItem, next: Files)
    requires Deletable(id, sha, s, files) && SpaceInv(id, WithItem(s, item)) && ReplacesItem(s.deleteItems, item)
    requires SameElsewhere(files, next, {item.slot, QuarantinePath(item.claim, item.quarantineName.value)})
    requires ItemLayout(sha, next, item)
    ensures Deletable(id, sha, WithItem(s, item), next)
  {
    hide SpaceInv, ItemsFit, ItemLayout;
    ItemStepFits(sha, s.deleteItems, files, item, next);
  }

  lemma DeletableFilesStep(id: string, sha: Digest, s: Space, files: Files, item: DeleteItem, next: Files)
    requires Deletable(id, sha, s, files) && item.slot in s.deleteItems && s.deleteItems[item.slot] == item
    requires item.quarantineName.Some?
    requires SameElsewhere(files, next, {item.slot, QuarantinePath(item.claim, item.quarantineName.value)})
    requires ItemLayout(sha, next, item)
    ensures Deletable(id, sha, s, next)
  {
    hide SpaceInv, ItemLayout, ItemsLaidOut, AllNamed, SameElsewhere, QuarantinePath;
    assert WithItem(s, item) == s;
    assert UnusedQuarantine(s.deleteItems, item.slot, QuarantinePath(item.claim, item.quarantineName.value));
    DeletableStep(id, sha, s, files, item, next);
  }

  lemma UnusedIsFree(sha: Digest, items: map<string, DeleteItem>, files: Files, slot: string, path: string)
    requires ItemsFit(sha, items, files) && slot in items && items[slot].quarantineName.None?
    requires UnusedQuarantine(items, slot, path)
    ensures path !in files && Holds(sha, files, slot, items[slot].claim)
  {
    hide QuarantinePath;
    forall other | other in items
      ensures path !in NamesOf(items[other])
    {
      assert items[other].slot == other;
    }
  }

  /** A fresh plan of an item's quarantine keeps the deletion resumable. */
  lemma DeletablePlan(id: string, sha: Digest, s: Space, files: Files, item: DeleteItem)
    requires Deletable(id, sha, s, files) && SpaceInv(id, WithItem(s, item)) && ReplacesItem(s.deleteItems, item)
    requires s.deleteItems[item.slot].quarantineName.None? && item.phase == Planned
    ensures Deletable(id, sha, WithItem(s, item), files)
  {
    hide SpaceInv, QuarantinePath;
    UnusedIsFree(sha, s.deleteItems, files, item.slot, QuarantinePath(item.claim, item.quarantineName.value));
    hide ItemsFit;
    DeletableStep(id, sha, s, files, item, files);
  }

  lemma DeletableItemLayout(id: string, sha: Digest, s: Space, files: Files, slot: string)
    requires Deletable(id, sha, s, files) && slot in s.deleteItems
    ensures s.deleteItems[slot].slot == slot && ItemLayout(sha, files, s.deleteItems[slot])
    ensures s.deleteItems[slot].quarantineName.Some? ==>
              var path := QuarantinePath(s.deleteItems[slot].claim, s.deleteItems[slot].quarantineName.value);
              UnusedQuarantine(s.deleteItems, slot, path) && path != slot
  {
    hide SpaceInv, ItemLayout, QuarantinePath;
  }

  /** Recording a phase that the files already are in keeps the deletion resumable. */
  lemma DeletableAdvance(id: string, sha: Digest, s: Space, files: Files, slot: string)
    requires Deletable(id, sha, s, files) && slot in s.deleteItems && s.deleteItems[slot].quarantineName.Some?
    requires SpaceInv(id, WithItem(s, Advanced(s.deleteItems[slot])))
    requires ItemLayout(sha, files, Advanced(s.deleteItems[slot]))
    ensures Deletable(id, sha, WithItem(s, Advanced(s.deleteItems[slot])), files)
  {
    DeletableItemLayout(id, sha, s, files, slot);
    hide SpaceInv, ItemLayout, QuarantinePath, Deletable;
    DeletableStep(id, sha, s, files, Advanced(s.deleteItems[slot]), files);
  }

  // ---------------------------------------------------------------- steps that follow one another

  /** The name is planned by no item and no item's slot, as 128 random bits are not. */
  ghost predicate FreshName(s: Space, slot: string, name: string) {
    && ValidName(name) && slot in s.deleteItems
    && UnusedQuarantine(s.deleteItems, slot, QuarantinePath(s.deleteItems[slot].claim, name))
  }

  /** No item but this one differs. */
  ghost predicate OnlyItemChanges(s: Space, t: Space, slot: string) {
    && t.deleteItems.Keys == s.deleteItems.Keys
    && forall other | other in s.deleteItems && other != slot :: t.deleteItems[other] == s.deleteItems[other]
  }

  lemma ErasingGivesInv(id: string, sha: Digest, s: Space, files: Files, t: Space, next: Files)
    requires Erasing(id, sha, s, files, t, next)
    ensures SpaceInv(id, t) && t.workspace == s.workspace && SameClaims(s, t)
  {}

  /** One durable step on one item: it erases at most, touches no other item, and keeps a resumable deletion so. */
  ghost predicate ItemStepped(id: string, sha: Digest, s: Space, files: Files, t: Space, next: Files, slot: string,
                              fits: bool) {
    && Erasing(id, sha, s, files, t, next) && OnlyItemChanges(s, t, slot)
    && (fits && Deletable(id, sha, s, files) ==> Deletable(id, sha, t, next))
  }

  lemma StepStarts(id: string, sha: Digest, s: Space, files: Files, slot: string, fits: bool)
    requires SpaceInv(id, s)
    ensures ItemStepped(id, sha, s, files, s, files, slot, fits)
  {
    hide SpaceInv, Deletable, OnlyClaimedGo, Remaining;
    ErasingStarts(id, sha, s, files);
  }

  lemma StepsChain(id: string, sha: Digest, s: Space, f: Files, t: Space, g: Files, u: Space, h: Files, slot: string,
                   fits: bool)
    requires ItemStepped(id, sha, s, f, t, g, slot, fits) && ItemStepped(id, sha, t, g, u, h, slot, fits)
    ensures ItemStepped(id, sha, s, f, u, h, slot, fits)
  {
    hide SpaceInv, Deletable, OnlyClaimedGo, Remaining;
    OnlyClaimedGoChains(sha, s, t, f, g, h);
  }

  lemma MakeStep(id: string, sha: Digest, s: Space, files: Files, t: Space, next: Files, slot: string, fits: bool)
    requires Erasing(id, sha, s, files, t, next) && OnlyItemChanges(s, t, slot)
    requires fits && Deletable(id, sha, s, files) ==> Deletable(id, sha, t, next)
    ensures ItemStepped(id, sha, s, files, t, next, slot, fits)
  {}

  lemma WithItemChangesOne(s: Space, item: DeleteItem)
    requires item.slot in s.deleteItems
    ensures OnlyItemChanges(s, WithItem(s, item), item.slot)
  {}

  lemma FreshReplaces(id: string, s: Space, slot: string, name: string)
    requires SpaceInv(id, s) && FreshName(s, slot, name) && s.deleteItems[slot].quarantineName.None?
    ensures ReplacesItem(s.deleteItems, s.deleteItems[slot].(quarantineName := Some(name)))
  {
    ItemFacts(id, s, slot);
    hide SpaceInv, QuarantinePath;
  }

  lemma PlanSteps(id: string, sha: Digest, s: Space, files: Files, slot: string, name: string)
    requires SpaceInv(id, s) && slot in s.deleteItems && ValidName(name)
    requires s.deleteItems[slot].phase == Planned && s.deleteItems[slot].quarantineName.None?
    ensures var item := s.deleteItems[slot].(quarantineName := Some(name));
            var op, t := PlanOp(s.deleteItems[slot], name), WithItem(s, item);
            && RowsAccept(id, s, op) && Decide(s, op).next == t && item.slot == slot
            && ItemStepped(id, sha, s, files, t, files, slot, FreshName(s, slot, name))
  {
    hide *;
    var item := s.deleteItems[slot].(quarantineName := Some(name));
    ItemFacts(id, s, slot);
    ErasingStarts(id, sha, s, files);
    ErasingPlan(id, sha, s, files, s, files, slot, name);
    ErasingGivesInv(id, sha, s, files, WithItem(s, item), files);
    WithItemChangesOne(s, item);
    if Deletable(id, sha, s, files) && FreshName(s, slot, name) {
      FreshReplaces(id, s, slot, name);
      DeletablePlan(id, sha, s, files, item);
    }
    MakeStep(id, sha, s, files, WithItem(s, item), files, slot, FreshName(s, slot, name));
  }

  lemma AdvanceSteps(id: string, sha: Digest, s: Space, files: Files, slot: string)
    requires SpaceInv(id, s) && slot in s.deleteItems
    requires s.deleteItems[slot].phase != Removed && s.deleteItems[slot].quarantineName.Some?
    ensures var item := Advanced(s.deleteItems[slot]);
            var op, t := AdvanceItemOp(s.deleteItems[slot]), WithItem(s, item);
            && RowsAccept(id, s, op) && Decide(s, op).next == t && item.slot == slot
            && ItemStepped(id, sha, s, files, t, files, slot, ItemLayout(sha, files, item))
  {
    var item := Advanced(s.deleteItems[slot]);
    ItemFacts(id, s, slot);
    assert item.slot == slot;
    hide *;
    ErasingStarts(id, sha, s, files);
    ErasingAdvance(id, sha, s, files, s, files, slot);
    ErasingGivesInv(id, sha, s, files, WithItem(s, item), files);
    WithItemChangesOne(s, item);
    if Deletable(id, sha, s, files) && ItemLayout(sha, files, item) {
      DeletableAdvance(id, sha, s, files, slot);
    }
    MakeStep(id, sha, s, files, WithItem(s, item), files, slot, ItemLayout(sha, files, item));
  }

  lemma MovedElsewhere(files: Files, a: string, b: string)
    ensures SameElsewhere(files, Moved(files, a, b), {a, b})
  {}

  lemma RemovedElsewhere(files: Files, a: string, b: string)
    ensures SameElsewhere(files, files - {b}, {a, b})
  {}

  lemma NoItemChanges(s: Space, slot: string)
    ensures OnlyItemChanges(s, s, slot)
  {}

  /** A claimed file moves to its item's free quarantine name. */
  lemma MoveSteps(id: string, sha: Digest, s: Space, files: Files, slot: string)
    requires SpaceInv(id, s) && slot in s.deleteItems && s.deleteItems[slot].quarantineName.Some?
    requires var item := s.deleteItems[slot];
             var path := QuarantinePath(item.claim, item.quarantineName.value);
             Holds(sha, files, slot, item.claim) && path !in files
    ensures var item := s.deleteItems[slot];
            var next := Moved(files, slot, QuarantinePath(item.claim, item.quarantineName.value));
            ItemStepped(id, sha, s, files, s, next, slot, ItemLayout(sha, next, item))
  {
    hide *;
    var item := s.deleteItems[slot];
    ItemFacts(id, s, slot);
    ErasingStarts(id, sha, s, files);
    var path := QuarantinePath(item.claim, item.quarantineName.value);
    var next := Moved(files, slot, path);
    MovedElsewhere(files, slot, path);
    NoItemChanges(s, slot);
    ClaimedFileGoes(sha, s, files, slot, slot, path);
    ErasingFiles(id, sha, s, files, s, files, next);
    if Deletable(id, sha, s, files) && ItemLayout(sha, next, item) {
      DeletableFilesStep(id, sha, s, files, item, next);
    }
    MakeStep(id, sha, s, files, s, next, slot, ItemLayout(sha, next, item));
  }

  /** A quarantined file is removed. */
  lemma RemoveSteps(id: string, sha: Digest, s: Space, files: Files, slot: string)
    requires SpaceInv(id, s) && slot in s.deleteItems && s.deleteItems[slot].quarantineName.Some?
    requires var item := s.deleteItems[slot];
             Holds(sha, files, QuarantinePath(item.claim, item.quarantineName.value), item.claim)
    ensures var item := s.deleteItems[slot];
            var next := files - {QuarantinePath(item.claim, item.quarantineName.value)};
            ItemStepped(id, sha, s, files, s, next, slot, ItemLayout(sha, next, item))
  {
    hide *;
    var item := s.deleteItems[slot];
    ItemFacts(id, s, slot);
    ErasingStarts(id, sha, s, files);
    var path := QuarantinePath(item.claim, item.quarantineName.value);
    var next := files - {path};
    RemovedElsewhere(files, slot, path);
    NoItemChanges(s, slot);
    ClaimedFileLeaves(sha, s, files, slot, path);
    ErasingFiles(id, sha, s, files, s, files, next);
    if Deletable(id, sha, s, files) && ItemLayout(sha, next, item) {
      DeletableFilesStep(id, sha, s, files, item, next);
    }
    MakeStep(id, sha, s, files, s, next, slot, ItemLayout(sha, next, item));
  }

  // ---------------------------------------------------------------- the deletion itself

  /** Plans where one planned item's file is to go, unless that is already planned. */
  method PlanItem(store: Store, slot: string, name: string, quiet: bool) returns (p: Progress)
    requires SpaceInv(store.id, store.rows) && slot in store.rows.deleteItems
    requires store.rows.deleteItems[slot].phase == Planned && ValidName(name)
    modifies store`rows
    ensures ItemStepped(store.id, store.sha, old(store.rows), store.files, store.rows, store.files, slot,
                        FreshName(old(store.rows), slot, name))
    ensures store.rows == old(store.rows)
         || store.rows == WithItem(old(store.rows), old(store.rows).deleteItems[slot].(quarantineName := Some(name)))
    ensures p == Done ==>
              store.rows.deleteItems[slot].phase == Planned && store.rows.deleteItems[slot].quarantineName.Some?
    ensures quiet ==> p == Done
  {
    ItemFacts(store.id, store.rows, slot);
    hide *;
    StepStarts(store.id, store.sha, store.rows, store.files, slot, FreshName(store.rows, slot, name));
    if store.rows.deleteItems[slot].quarantineName.Some? { return Done; }
    PlanSteps(store.id, store.sha, store.rows, store.files, slot, name);
    WithItemGives(store.rows, store.rows.deleteItems[slot].(quarantineName := Some(name)));
    p := store.Record(PlanOp(store.rows.deleteItems[slot], name), quiet);
  }

  lemma WithItemGives(s: Space, item: DeleteItem)
    ensures item.slot in WithItem(s, item).deleteItems && WithItem(s, item).deleteItems[item.slot] == item
  {}

  function QuarantineOf(item: DeleteItem): string
    requires item.quarantineName.Some?
  {
    QuarantinePath(item.claim, item.quarantineName.value)
  }

  lemma Unconditional(id: string, sha: Digest, s: Space, f: Files, t: Space, g: Files, slot: string, fits: bool)
    requires ItemStepped(id, sha, s, f, t, g, slot, fits) && fits
    ensures ItemStepped(id, sha, s, f, t, g, slot, true)
  {}

  lemma MoveIsAStep(id: string, sha: Digest, s: Space, files: Files, slot: string)
    requires SpaceInv(id, s) && slot in s.deleteItems
    requires s.deleteItems[slot].phase == Planned && s.deleteItems[slot].quarantineName.Some?
    requires Holds(sha, files, slot, s.deleteItems[slot].claim) && QuarantineOf(s.deleteItems[slot]) !in files
    ensures var next := Moved(files, slot, QuarantineOf(s.deleteItems[slot]));
            && ItemStepped(id, sha, s, files, s, next, slot, true)
            && slot !in next && Holds(sha, next, QuarantineOf(s.deleteItems[slot]), s.deleteItems[slot].claim)
  {
    var item := s.deleteItems[slot];
    var next := Moved(files, slot, QuarantineOf(item));
    ItemFacts(id, s, slot);
    hide SpaceInv, ItemStepped, QuarantinePath;
    MoveSteps(id, sha, s, files, slot);
    assert ItemLayout(sha, next, item);
    Unconditional(id, sha, s, files, s, next, slot, ItemLayout(sha, next, item));
  }

  lemma RemovalIsAStep(id: string, sha: Digest, s: Space, files: Files, slot: string)
    requires SpaceInv(id, s) && slot in s.deleteItems
    requires s.deleteItems[slot].phase == Quarantined && s.deleteItems[slot].quarantineName.Some?
    requires slot !in files && Holds(sha, files, QuarantineOf(s.deleteItems[slot]), s.deleteItems[slot].claim)
    ensures ItemStepped(id, sha, s, files, s, files - {QuarantineOf(s.deleteItems[slot])}, slot, true)
  {
    var item := s.deleteItems[slot];
    var next := files - {QuarantineOf(item)};
    ItemFacts(id, s, slot);
    hide SpaceInv, ItemStepped, QuarantinePath;
    RemoveSteps(id, sha, s, files, slot);
    assert ItemLayout(sha, next, item);
    Unconditional(id, sha, s, files, s, next, slot, ItemLayout(sha, next, item));
  }

  lemma AdvanceIsAStep(id: string, sha: Digest, s: Space, files: Files, slot: string)
    requires SpaceInv(id, s) && slot in s.deleteItems && s.deleteItems[slot].quarantineName.Some?
    requires s.deleteItems[slot].phase != Removed && slot !in files
    requires if s.deleteItems[slot].phase == Planned
             then Holds(sha, files, QuarantineOf(s.deleteItems[slot]), s.deleteItems[slot].claim)
             else QuarantineOf(s.deleteItems[slot]) !in files
    ensures var op, t := AdvanceItemOp(s.deleteItems[slot]), WithItem(s, Advanced(s.deleteItems[slot]));
            && RowsAccept(id, s, op) && Decide(s, op).next == t
            && slot in t.deleteItems && t.deleteItems[slot] == Advanced(s.deleteItems[slot])
            && ItemStepped(id, sha, s, files, t, files, slot, true)
  {
    var item := Advanced(s.deleteItems[slot]);
    ItemFacts(id, s, slot);
    hide SpaceInv, ItemStepped, QuarantinePath, RowsAccept, Decide;
    AdvanceSteps(id, sha, s, files, slot);
    assert ItemLayout(sha, files, item);
    Unconditional(id, sha, s, files, WithItem(s, item), files, slot, ItemLayout(sha, files, item));
  }

  /** Moves a planned item's file to its quarantine name and records that. */
  method QuarantineItem(store: Store, slot: string, quiet: bool) returns (p: Progress)
    requires SpaceInv(store.id, store.rows) && slot in store.rows.deleteItems
    requires store.rows.deleteItems[slot].phase == Planned && store.rows.deleteItems[slot].quarantineName.Some?
    modifies store
    ensures ItemStepped(store.id, store.sha, old(store.rows), old(store.files), store.rows, store.files, slot, true)
    ensures slot in store.rows.deleteItems
    ensures store.rows.deleteItems[slot] == old(store.rows.deleteItems[slot])
         || store.rows.deleteItems[slot] == Advanced(old(store.rows.deleteItems[slot]))
    ensures p == Done ==> store.rows.deleteItems[slot] == Advanced(old(store.rows.deleteItems[slot]))
    ensures quiet && old(Deletable(store.id, store.sha, store.rows, store.files)) ==> p == Done
  {
    hide *;
    var id, sha := store.id, store.sha;
    var item := store.rows.deleteItems[slot];
    var path := QuarantineOf(item);
    ghost var s0, f0 := store.rows, store.files;
    StepStarts(id, sha, s0, f0, slot, true);
    ClassifiedItem(id, sha, s0, f0, slot);
    var source := Classify(sha, store.files, slot, [item.claim]);
    var quarantined := Classify(sha, store.files, path, [item.claim]);
    if source == Match(item.claim) && quarantined == Absent {
      MoveIsAStep(id, sha, s0, f0, slot);
      p := store.Change(Moved(store.files, slot, path),
                        Holds(sha, store.files, slot, item.claim) && path !in store.files,
                        quiet);
      if p != Done { return; }
    } else if source != Absent || quarantined != Match(item.claim) {
      return Raised;
    }
    if !LayoutIsKnown(sha, store.rows, store.files) {
      KnownAfter(id, sha, s0, f0, s0, store.files, slot);
      return Raised;
    }
    AdvanceIsAStep(id, sha, s0, store.files, slot);
    ghost var t := WithItem(s0, Advanced(item));
    StepsChain(id, sha, s0, f0, s0, store.files, t, store.files, slot, true);
    p := store.Record(AdvanceItemOp(item), quiet);
  }

  lemma ClassifiedItem(id: string, sha: Digest, s: Space, files: Files, slot: string)
    requires SpaceInv(id, s) && slot in s.deleteItems && s.deleteItems[slot].phase == Planned
    requires s.deleteItems[slot].quarantineName.Some?
    ensures var item := s.deleteItems[slot];
            var source := Classify(sha, files, slot, [item.claim]);
            var quarantined := Classify(sha, files, QuarantineOf(item), [item.claim]);
            Deletable(id, sha, s, files) ==>
              (source == Match(item.claim) && quarantined == Absent)
               || (source == Absent && quarantined == Match(item.claim))
  {
    if Deletable(id, sha, s, files) {
      DeletableItemLayout(id, sha, s, files, slot);
    }
  }

  lemma KnownAfter(id: string, sha: Digest, s: Space, files: Files, t: Space, next: Files, slot: string)
    requires ItemStepped(id, sha, s, files, t, next, slot, true)
    ensures Deletable(id, sha, s, files) ==> LayoutIsKnown(sha, t, next)
  {
    hide Deletable, LayoutIsKnown, Erasing, OnlyItemChanges;
    if Deletable(id, sha, s, files) {
      DeletableLayoutIsKnown(id, sha, t, next);
    }
  }

  /** Removes a quarantined item's file, if it is still there, and records that. */
  method RemoveItem(store: Store, slot: string, quiet: bool) returns (p: Progress)
    requires SpaceInv(store.id, store.rows) && slot in store.rows.deleteItems
    requires store.rows.deleteItems[slot].phase == Quarantined && store.rows.deleteItems[slot].quarantineName.Some?
    modifies store
    ensures ItemStepped(store.id, store.sha, old(store.rows), old(store.files), store.rows, store.files, slot, true)
    ensures slot in store.rows.deleteItems
    ensures store.rows.deleteItems[slot] == old(store.rows.deleteItems[slot])
         || store.rows.deleteItems[slot] == Advanced(old(store.rows.deleteItems[slot]))
    ensures p == Done ==> store.rows.deleteItems[slot] == Advanced(old(store.rows.deleteItems[slot]))
    ensures !old(OnlyOwnFiles(store.sha, store.rows, store.files)) ==>
              p == Raised && store.rows == old(store.rows) && store.files == old(store.files)
    ensures quiet && old(Deletable(store.id, store.sha, store.rows, store.files)) ==> p == Done
  {
    hide *;
    var id, sha := store.id, store.sha;
    var item := store.rows.deleteItems[slot];
    var path := QuarantineOf(item);
    ghost var s0, f0 := store.rows, store.files;
    LayoutTells(sha, s0, f0);
    StepStarts(id, sha, s0, f0, slot, true);
    KnownAfter(id, sha, s0, f0, s0, f0, slot);
    QuarantinedItem(id, sha, s0, f0, slot);
    if !LayoutIsKnown(sha, store.rows, store.files) || slot in store.files { return Raised; }
    if path in store.files {
      if !Holds(sha, store.files, path, item.claim) { return Raised; }
      RemovalIsAStep(id, sha, s0, f0, slot);
      p := store.Change(store.files - {path}, Holds(sha, store.files, path, item.claim), quiet);
      if p != Done { return; }
    }
    AdvanceIsAStep(id, sha, s0, store.files, slot);
    ghost var t := WithItem(s0, Advanced(item));
    StepsChain(id, sha, s0, f0, s0, store.files, t, store.files, slot, true);
    p := store.Record(AdvanceItemOp(item), quiet);
  }

  lemma QuarantinedItem(id: string, sha: Digest, s: Space, files: Files, slot: string)
    requires SpaceInv(id, s) && slot in s.deleteItems && s.deleteItems[slot].phase == Quarantined
    requires s.deleteItems[slot].quarantineName.Some?
    ensures var item := s.deleteItems[slot];
            Deletable(id, sha, s, files) ==>
              slot !in files && (QuarantineOf(item) in files ==> Holds(sha, files, QuarantineOf(item), item.claim))
  {
    if Deletable(id, sha, s, files) {
      DeletableItemLayout(id, sha, s, files, slot);
    }
  }

  /** Takes a planned item to quarantined. */
  method SetAsideItem(store: Store, slot: string, name: string, quiet: bool) returns (p: Progress)
    requires SpaceInv(store.id, store.rows) && slot in store.rows.deleteItems && ValidName(name)
    requires store.rows.deleteItems[slot].phase == Planned
    modifies store
    ensures ItemStepped(store.id, store.sha, old(store.rows), old(store.files), store.rows, store.files, slot,
                        FreshName(old(store.rows), slot, name))
    ensures slot in store.rows.deleteItems
    ensures store.rows.deleteItems[slot].quarantineName == old(store.rows.deleteItems[slot].quarantineName)
         || store.rows.deleteItems[slot].quarantineName == Some(name)
    ensures p == Done ==>
              store.rows.deleteItems[slot].phase == Quarantined && store.rows.deleteItems[slot].quarantineName.Some?
    ensures (&& quiet
             && old(Deletable(store.id, store.sha, store.rows, store.files) && FreshName(store.rows, slot, name))) ==>
              p == Done
  {
    hide *;
    var id, sha := store.id, store.sha;
    ghost var s0, f0 := store.rows, store.files;
    ghost var fits := FreshName(s0, slot, name);
    WithItemGives(s0, s0.deleteItems[slot].(quarantineName := Some(name)));
    SlotOf(id, s0, slot);
    p := PlanItem(store, slot, name, quiet);
    SteppedGives(id, sha, s0, f0, store.rows, store.files, slot, fits);
    if p != Done { return; }
    ghost var s1, f1 := store.rows, store.files;
    AdvancedGives(s1.deleteItems[slot]);
    p := QuarantineItem(store, slot, quiet);
    Weaken(id, sha, s1, f1, store.rows, store.files, slot, fits);
    StepsChain(id, sha, s0, f0, s1, f1, store.rows, store.files, slot, fits);
  }

  lemma SlotOf(id: string, s: Space, slot: string)
    requires SpaceInv(id, s) && slot in s.deleteItems
    ensures s.deleteItems[slot].slot == slot
    ensures s.deleteItems[slot].phase != Planned ==> s.deleteItems[slot].quarantineName.Some?
  {
    ItemFacts(id, s, slot);
  }

  /** Takes one item from whatever phase it is in to removed. */
  method EraseItem(store: Store, slot: string, name: string, quiet: bool) returns (p: Progress)
    requires SpaceInv(store.id, store.rows) && slot in store.rows.deleteItems && ValidName(name)
    modifies store
    ensures ItemStepped(store.id, store.sha, old(store.rows), old(store.files), store.rows, store.files, slot,
                        FreshName(old(store.rows), slot, name))
    ensures slot in store.rows.deleteItems
    ensures store.rows.deleteItems[slot].quarantineName == old(store.rows.deleteItems[slot].quarantineName)
         || store.rows.deleteItems[slot].quarantineName == Some(name)
    ensures p == Done ==> store.rows.deleteItems[slot].phase == Removed
    ensures (&& quiet
             && old(Deletable(store.id, store.sha, store.rows, store.files) && FreshName(store.rows, slot, name))) ==>
              p == Done
  {
    hide *;
    var id, sha := store.id, store.sha;
    ghost var s0, f0 := store.rows, store.files;
    ghost var fits := FreshName(s0, slot, name);
    StepStarts(id, sha, s0, f0, slot, fits);
    p := Done;
    if store.rows.deleteItems[slot].phase == Planned {
      p := SetAsideItem(store, slot, name, quiet);
      if p != Done { return; }
    }
    ghost var s1, f1 := store.rows, store.files;
    SteppedGives(id, sha, s0, f0, s1, f1, slot, fits);
    SlotOf(id, s1, slot);
    AdvancedGives(s1.deleteItems[slot]);
    if store.rows.deleteItems[slot].phase == Quarantined {
      p := RemoveItem(store, slot, quiet);
      Weaken(id, sha, s1, f1, store.rows, store.files, slot, fits);
      StepsChain(id, sha, s0, f0, s1, f1, store.rows, store.files, slot, fits);
    }
  }

  lemma Weaken(id: string, sha: Digest, s: Space, f: Files, t: Space, g: Files, slot: string, fits: bool)
    requires ItemStepped(id, sha, s, f, t, g, slot, true)
    ensures ItemStepped(id, sha, s, f, t, g, slot, fits)
  {}

  lemma AdvancedGives(item: DeleteItem)
    ensures Advanced(item).quarantineName == item.quarantineName
    ensures Advanced(item).phase == (if item.phase == Planned then Quarantined else Removed)
  {}

  lemma SteppedGives(id: string, sha: Digest, s: Space, f: Files, t: Space, g: Files, slot: string, fits: bool)
    requires ItemStepped(id, sha, s, f, t, g, slot, fits)
    ensures SpaceInv(id, t) && t.workspace == s.workspace && SameClaims(s, t) && OnlyItemChanges(s, t, slot)
    ensures t.deleteItems.Keys == s.deleteItems.Keys
    ensures fits && Deletable(id, sha, s, f) ==> Deletable(id, sha, t, g)
    ensures Erasing(id, sha, s, f, t, g)
  {}
}
