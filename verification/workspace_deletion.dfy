/** A whole deletion: from any workspace to an empty directory and no registry rows, however often it is cut short. */
module WorkspaceDeletion {
  import opened Outcomes
  import opened Registry
  import opened RegistryInvariant
  import opened ArtifactLayout
  import opened ArtifactSteps
  import opened ArtifactStore
  import opened ArtifactDeletion

  // ---------------------------------------------------------------- the random names

  /** A quarantine name for every item. */
  ghost predicate NamesEach(s: Space, names: map<string, string>) {
    forall slot | slot in s.deleteItems :: slot in names && ValidName(names[slot])
  }

  /** No name drawn for one item is a name drawn for another. */
  ghost predicate Apart(s: Space, names: map<string, string>, drawn: map<string, string>) {
    forall a, b | a in s.deleteItems && b in s.deleteItems && a in names && b in drawn && a != b ::
      QuarantinePath(s.deleteItems[a].claim, names[a]) != QuarantinePath(s.deleteItems[b].claim, drawn[b])
  }

  /** What 128 random bits are taken to give: every name is unused and no two are the same. */
  ghost predicate FreshNames(s: Space, names: map<string, string>) {
    && (forall slot | slot in s.deleteItems :: slot in names && FreshName(s, slot, names[slot]))
    && Apart(s, names, names)
  }

  /** Every item has the quarantine name it had, or the one drawn for it. */
  ghost predicate NamedFrom(s: Space, t: Space, names: map<string, string>) {
    forall slot | slot in s.deleteItems && slot in t.deleteItems ::
      || t.deleteItems[slot].quarantineName == s.deleteItems[slot].quarantineName
      || (slot in names && t.deleteItems[slot].quarantineName == Some(names[slot]))
  }

  /** Names that are fresh stay fresh while others are put to use. */
  lemma FreshNamesStay(s: Space, t: Space, names: map<string, string>, drawn: map<string, string>)
    requires SameClaims(s, t) && NamedFrom(s, t, names)
    requires FreshNames(s, drawn) && Apart(s, names, drawn)
    ensures FreshNames(t, drawn)
  {
    hide QuarantinePath, ValidName;
    forall slot | slot in t.deleteItems
      ensures FreshName(t, slot, drawn[slot])
    {
      var path := QuarantinePath(t.deleteItems[slot].claim, drawn[slot]);
      assert FreshName(s, slot, drawn[slot]);
      forall other | other in t.deleteItems && other != slot && t.deleteItems[other].quarantineName.Some?
        ensures QuarantinePath(t.deleteItems[other].claim, t.deleteItems[other].quarantineName.value) != path
      {
      }
    }
  }

  lemma ApartStays(s: Space, t: Space, names: map<string, string>, drawn: map<string, string>)
    requires SameClaims(s, t) && Apart(s, names, drawn)
    ensures Apart(t, names, drawn)
  {
    hide QuarantinePath;
  }

  // ---------------------------------------------------------------- all items

  lemma ErasingChains(id: string, sha: Digest, s: Space, f: Files, t: Space, g: Files, u: Space, h: Files)
    requires Erasing(id, sha, s, f, t, g) && Erasing(id, sha, t, g, u, h)
    ensures Erasing(id, sha, s, f, u, h)
  {
    hide SpaceInv, OnlyClaimedGo, Remaining;
    OnlyClaimedGoChains(sha, s, t, f, g, h);
  }

  /** What a pass over the items has reached: how it got here, and which items it has finished. */
  ghost predicate Pass(id: string, sha: Digest, s: Space, f: Files, t: Space, g: Files, names: map<string, string>,
                       left: set<string>)
  {
    && Erasing(id, sha, s, f, t, g) && NamedFrom(s, t, names)
    && (Deletable(id, sha, s, f) && FreshNames(s, names) ==> Deletable(id, sha, t, g))
    && left <= t.deleteItems.Keys
    && forall slot | slot in t.deleteItems && slot !in left :: t.deleteItems[slot].phase == Removed
  }

  lemma PassStarts(id: string, sha: Digest, s: Space, f: Files, names: map<string, string>)
    requires SpaceInv(id, s)
    ensures Pass(id, sha, s, f, s, f, names, s.deleteItems.Keys)
  {
    hide SpaceInv, OnlyClaimedGo, Remaining, Deletable, FreshNames;
    ErasingStarts(id, sha, s, f);
  }

  /** One more item is finished, or was left wherever it was cut short. */
  lemma PassGoesOn(id: string, sha: Digest, s: Space, f: Files, t: Space, g: Files, u: Space, h: Files,
                   names: map<string, string>, left: set<string>, slot: string)
    requires Pass(id, sha, s, f, t, g, names, left) && slot in left && slot in names && SpaceInv(id, t)
    requires slot in t.deleteItems && slot in u.deleteItems
    requires ItemStepped(id, sha, t, g, u, h, slot, FreshName(t, slot, names[slot]))
    requires || u.deleteItems[slot].quarantineName == t.deleteItems[slot].quarantineName
             || u.deleteItems[slot].quarantineName == Some(names[slot])
    ensures Pass(id, sha, s, f, u, h, names, left)
    ensures u.deleteItems[slot].phase == Removed ==> Pass(id, sha, s, f, u, h, names, left - {slot})
  {
    hide SpaceInv, OnlyClaimedGo, Remaining, Deletable, FreshName, Apart, ValidName;
    SteppedGives(id, sha, t, g, u, h, slot, FreshName(t, slot, names[slot]));
    ErasingChains(id, sha, s, f, t, g, u, h);
    assert NamedFrom(s, u, names);
    if Deletable(id, sha, s, f) && FreshNames(s, names) {
      FreshNamesStay(s, t, names, names);
      assert FreshName(t, slot, names[slot]);
    }
  }

  lemma PassGives(id: string, sha: Digest, s: Space, f: Files, t: Space, g: Files, names: map<string, string>,
                  left: set<string>)
    requires Pass(id, sha, s, f, t, g, names, left)
    ensures SpaceInv(id, t) && t.workspace == s.workspace && left <= t.deleteItems.Keys == s.deleteItems.Keys
    ensures Erasing(id, sha, s, f, t, g)
    ensures left == {} ==> AllRemoved(t)
    ensures Deletable(id, sha, s, f) && FreshNames(s, names) ==> Deletable(id, sha, t, g) && FreshNames(t, names)
  {
    hide SpaceInv, OnlyClaimedGo, Remaining, Deletable, FreshName, Apart;
    if Deletable(id, sha, s, f) && FreshNames(s, names) {
      FreshNamesStay(s, t, names, names);
    }
  }

  lemma FreshGives(s: Space, names: map<string, string>, slot: string)
    requires FreshNames(s, names) && slot in s.deleteItems
    ensures slot in names && FreshName(s, slot, names[slot])
  {
    hide FreshName, Apart;
  }

  /** Erases the items one after the other, in whatever order they are listed. */
  method EraseItems(store: Store, names: map<string, string>, quiet: bool) returns (p: Progress)
    requires SpaceInv(store.id, store.rows) && NamesEach(store.rows, names)
    modifies store
    ensures Erasing(store.id, store.sha, old(store.rows), old(store.files), store.rows, store.files)
    ensures NamedFrom(old(store.rows), store.rows, names)
    ensures old(Deletable(store.id, store.sha, store.rows, store.files) && FreshNames(store.rows, names)) ==>
              Deletable(store.id, store.sha, store.rows, store.files)
    ensures p == Done ==> AllRemoved(store.rows)
    ensures quiet && old(Deletable(store.id, store.sha, store.rows, store.files) && FreshNames(store.rows, names)) ==>
              p == Done
  {
    hide *;
    var id, sha := store.id, store.sha;
    ghost var s0, f0 := store.rows, store.files;
    p := Done;
    var left := store.rows.deleteItems.Keys;
    PassStarts(id, sha, s0, f0, names);
    while left != {}
      invariant p == Done && Pass(id, sha, s0, f0, store.rows, store.files, names, left)
      decreases |left|
    {
      ghost var t, g := store.rows, store.files;
      PassGives(id, sha, s0, f0, t, g, names, left);
      var slot :| slot in left;
      NameOf(s0, names, slot);
      if Deletable(id, sha, s0, f0) && FreshNames(s0, names) {
        FreshGives(t, names, slot);
      }
      p := EraseItem(store, slot, names[slot], quiet);
      PassGoesOn(id, sha, s0, f0, t, g, store.rows, store.files, names, left, slot);
      if p != Done {
        PassEnds(id, sha, s0, f0, store.rows, store.files, names, left);
        return;
      }
      left := left - {slot};
    }
    PassGives(id, sha, s0, f0, store.rows, store.files, names, {});
    PassEnds(id, sha, s0, f0, store.rows, store.files, names, {});
  }

  lemma NameOf(s: Space, names: map<string, string>, slot: string)
    requires NamesEach(s, names) && slot in s.deleteItems
    ensures slot in names && ValidName(names[slot])
  {
    hide ValidName;
  }

  lemma PassEnds(id: string, sha: Digest, s: Space, f: Files, t: Space, g: Files, names: map<string, string>,
                 left: set<string>)
    requires Pass(id, sha, s, f, t, g, names, left)
    ensures Erasing(id, sha, s, f, t, g) && NamedFrom(s, t, names)
    ensures Deletable(id, sha, s, f) && FreshNames(s, names) ==> Deletable(id, sha, t, g)
  {
    hide Erasing, NamedFrom, Deletable, FreshNames;
  }

  // ---------------------------------------------------------------- the end of a deletion

  /** With every item removed, nothing of a resumable deletion is left in the directory. */
  lemma NothingIsLeft(id: string, sha: Digest, s: Space, files: Files)
    requires Deletable(id, sha, s, files) && AllRemoved(s)
    ensures files == map[]
  {
    hide SpaceInv, QuarantinesDistinct, ItemsLaidOut;
    forall path
      ensures path !in files
    {
      assert !Named(s.deleteItems, path);
    }
  }

  function ClearDeletedOp(s: Space): Operation
    requires s.workspace.Some?
  {
    ClearDeleted(s.workspace.value.workspaceId, s.workspace.value.generation)
  }

  lemma ClearCall(id: string, s: Space)
    requires SpaceInv(id, s) && s.workspace.Some? && s.workspace.value.phase == Deleting && AllRemoved(s)
    ensures RowsAccept(id, s, ClearDeletedOp(s)) && Decide(s, ClearDeletedOp(s)).next == EMPTY
  {
    Accepted(id, s, ClearDeletedOp(s));
  }

  /** Forgets the workspace once every item is removed and the directory is empty, and not before. */
  method ForgetWorkspace(store: Store, quiet: bool) returns (p: Progress)
    requires SpaceInv(store.id, store.rows)
    requires store.rows.workspace.Some? && store.rows.workspace.value.phase == Deleting
    modifies store`rows
    ensures || store.rows == old(store.rows)
            || (store.rows == EMPTY && old(AllRemoved(store.rows)) && store.files == map[])
    ensures p == Done ==> store.rows == EMPTY
    ensures quiet && old(AllRemoved(store.rows)) && store.files == map[] ==> p == Done
  {
    hide SpaceInv, RowsAccept, Decide;
    if !AllRemoved(store.rows) || store.files != map[] { return Raised; }
    ClearCall(store.id, store.rows);
    p := store.Record(ClearDeletedOp(store.rows), quiet);
  }

  /** What a deletion leads to: it is still resumable work, or everything is gone. */
  ghost predicate Shrunk(id: string, sha: Digest, s: Space, f: Files, t: Space, g: Files) {
    && OnlyClaimedGo(sha, s, f, g)
    && if t == EMPTY then g == map[] else Erasing(id, sha, s, f, t, g)
  }

  /** Takes up a begun deletion from wherever it was cut short. */
  method ResumeDeletion(store: Store, names: map<string, string>, quiet: bool) returns (p: Progress)
    requires SpaceInv(store.id, store.rows)
    requires store.rows.workspace.Some? && store.rows.workspace.value.phase == Deleting
    requires NamesEach(store.rows, names)
    modifies store
    ensures Shrunk(store.id, store.sha, old(store.rows), old(store.files), store.rows, store.files)
    ensures p == Done ==> store.rows == EMPTY
    ensures store.rows != EMPTY ==> NamedFrom(old(store.rows), store.rows, names)
    ensures old(!AllRemoved(store.rows) && !OnlyOwnFiles(store.sha, store.rows, store.files)) ==>
              p == Raised && store.rows == old(store.rows) && store.files == old(store.files)
    ensures old(Deletable(store.id, store.sha, store.rows, store.files) && FreshNames(store.rows, names)) ==>
              store.rows == EMPTY || Deletable(store.id, store.sha, store.rows, store.files)
    ensures quiet && old(Deletable(store.id, store.sha, store.rows, store.files) && FreshNames(store.rows, names)) ==>
              p == Done
  {
    hide *;
    var id, sha := store.id, store.sha;
    ghost var s0, f0 := store.rows, store.files;
    LayoutTells(sha, s0, f0);
    Untouched(id, sha, s0, f0, names);
    if !AllRemoved(store.rows) {
      if Deletable(id, sha, s0, f0) {
        DeletableLayoutIsKnown(id, sha, s0, f0);
      }
      if !LayoutIsKnown(sha, store.rows, store.files) { return Raised; }
      p := EraseItems(store, names, quiet);
      ErasingShrinks(id, sha, s0, f0, store.rows, store.files);
      if p != Done { return; }
    }
    ghost var t, g := store.rows, store.files;
    ErasedSpace(id, sha, s0, f0, t, g);
    if Deletable(id, sha, t, g) {
      NothingIsLeft(id, sha, t, g);
    }
    p := ForgetWorkspace(store, quiet);
    if store.rows == EMPTY {
      EmptiedShrinks(id, sha, s0, f0, t, g);
    }
  }

  lemma Untouched(id: string, sha: Digest, s: Space, f: Files, names: map<string, string>)
    requires SpaceInv(id, s) && s.workspace.Some?
    ensures Shrunk(id, sha, s, f, s, f) && NamedFrom(s, s, names) && s != EMPTY && Erasing(id, sha, s, f, s, f)
  {
    hide SpaceInv;
  }

  lemma ErasingShrinks(id: string, sha: Digest, s: Space, f: Files, t: Space, g: Files)
    requires Erasing(id, sha, s, f, t, g) && s.workspace.Some?
    ensures Shrunk(id, sha, s, f, t, g) && t != EMPTY
  {
    hide SpaceInv, OnlyClaimedGo, Remaining;
  }

  lemma ErasedSpace(id: string, sha: Digest, s: Space, f: Files, t: Space, g: Files)
    requires Erasing(id, sha, s, f, t, g)
    ensures SpaceInv(id, t) && t.workspace == s.workspace && OnlyClaimedGo(sha, s, f, g)
  {
    hide SpaceInv, OnlyClaimedGo, Remaining;
  }

  lemma EmptiedShrinks(id: string, sha: Digest, s: Space, f: Files, t: Space, g: Files)
    requires Erasing(id, sha, s, f, t, g) && g == map[]
    ensures Shrunk(id, sha, s, f, EMPTY, g)
  {
    hide SpaceInv, OnlyClaimedGo, Remaining;
  }

  // ---------------------------------------------------------------- the beginning of a deletion

  function BeginDeleteOp(s: Space): Operation
    requires s.workspace.Some?
  {
    BeginDelete(s.workspace.value.workspaceId, s.workspace.value.generation)
  }

  /** The rows of a settled workspace once its deletion is recorded. */
  function Doomed(s: Space): Space
    requires s.workspace.Some?
  {
    s.(workspace := Some(s.workspace.value.(phase := Deleting)),
       deleteItems := PlannedItems(s, s.workspace.value.workspaceId, s.workspace.value.generation))
  }

  /** The delete items are those of the claims, none of them begun. */
  predicate Dooms(s: Space, claims: map<string, ArtifactClaim>) {
    && s.deleteItems.Keys == claims.Keys
    && forall slot | slot in claims ::
         s.deleteItems[slot].claim == claims[slot] && s.deleteItems[slot].quarantineName.None?
  }

  lemma BeginCall(id: string, sha: Digest, s: Space, files: Files)
    requires Recoverable(id, sha, s, files) && s.intent.None? && s.journal.None?
    ensures RowsAccept(id, s, BeginDeleteOp(s)) && Decide(s, BeginDeleteOp(s)).next == Doomed(s)
    ensures SpaceInv(id, Doomed(s)) && s.workspace.Some?
  {
    hide PlainSlots, LayoutMatches, PlannedItems, ArtifactsValid;
    assert s.deleteItems + PlannedItems(s, id, s.workspace.value.generation) ==
           PlannedItems(s, id, s.workspace.value.generation);
    Accepted(id, s, BeginDeleteOp(s));
  }

  lemma DoomedIsDeletable(id: string, sha: Digest, s: Space, files: Files)
    requires Settled(sha, s, files) && s.workspace.Some? && SpaceInv(id, Doomed(s))
    ensures Deletable(id, sha, Doomed(s), files) && Dooms(Doomed(s), s.artifacts)
  {
    hide SpaceInv, Holds, QuarantinesDistinct, ItemsLaidOut;
    var items := Doomed(s).deleteItems;
    PlannedAreLaidOut(sha, s, files);
    hide ItemLayout;
    forall path | path in files
      ensures Named(items, path)
    {
      assert path in NamesOf(items[path]);
    }
  }

  lemma PlannedAreLaidOut(sha: Digest, s: Space, files: Files)
    requires Settled(sha, s, files) && s.workspace.Some?
    ensures QuarantinesDistinct(Doomed(s).deleteItems) && ItemsLaidOut(sha, Doomed(s).deleteItems, files)
  {
    hide Holds, UnusedQuarantine, QuarantinePath;
  }

  /** Recovers whatever is under way, then records the deletion of a workspace that is still active. */
  method BeginDeletion(store: Store, quiet: bool) returns (p: Progress)
    requires Recoverable(store.id, store.sha, store.rows, store.files)
    modifies store
    ensures || Recoverable(store.id, store.sha, store.rows, store.files)
            || Deletable(store.id, store.sha, store.rows, store.files)
    ensures store.rows.workspace.Some?
    ensures store.rows.workspace.value.phase == Active ==>
              && Recoverable(store.id, store.sha, store.rows, store.files)
              && Decisions(store.rows) == old(Decisions(store.rows))
    ensures p == Done ==> store.rows.workspace.value.phase == Deleting
    ensures store.rows.workspace.value.phase == Deleting ==>
              && Dooms(store.rows, old(Decisions(store.rows)))
              && Deletable(store.id, store.sha, store.rows, store.files)
    ensures old(Stuck(store.rows, store.files)) ==>
              p != Done && store.rows == old(store.rows) && store.files == old(store.files)
    ensures !old(Stuck(store.rows, store.files)) ==> !Stuck(store.rows, store.files)
    ensures quiet && !old(Stuck(store.rows, store.files)) ==> p == Done
  {
    hide *;
    var id, sha := store.id, store.sha;
    p := store.Recover(quiet);
    StillActive(id, sha, store.rows, store.files);
    if p != Done { return; }
    ghost var s := store.rows;
    BeginCall(id, sha, s, store.files);
    DoomedIsDeletable(id, sha, s, store.files);
    DoomedPhase(s, store.files);
    p := store.Record(BeginDeleteOp(store.rows), quiet);
  }

  lemma StillActive(id: string, sha: Digest, s: Space, files: Files)
    requires Recoverable(id, sha, s, files)
    ensures s.workspace.Some? && s.workspace.value.phase == Active
  {
    hide SpaceInv, PlainSlots, LayoutMatches;
  }

  lemma DoomedPhase(s: Space, files: Files)
    requires s.workspace.Some? && s.intent.None?
    ensures Doomed(s).workspace.Some? && Doomed(s).workspace.value.phase == Deleting
    ensures !Stuck(s, files) && !Stuck(Doomed(s), files)
  {}

  // ---------------------------------------------------------------- the whole of it

  /** No name drawn for one claimed file is a name drawn for another. */
  ghost predicate ApartFor(claims: map<string, ArtifactClaim>, names: map<string, string>, drawn: map<string, string>) {
    forall a, b | a in claims && b in claims && a in names && b in drawn && a != b ::
      QuarantinePath(claims[a], names[a]) != QuarantinePath(claims[b], drawn[b])
  }

  /** Random names for claimed files: none is a slot, and no two are the same. */
  ghost predicate FreshFor(claims: map<string, ArtifactClaim>, names: map<string, string>) {
    && (forall slot | slot in claims ::
          slot in names && ValidName(names[slot]) && QuarantinePath(claims[slot], names[slot]) !in claims)
    && ApartFor(claims, names, names)
  }

  /** The names of every round are fresh for the files a deletion will be about, and no two rounds' names collide. */
  ghost predicate FreshRoundsFor(claims: map<string, ArtifactClaim>, rounds: seq<map<string, string>>) {
    && (forall i | 0 <= i < |rounds| :: FreshFor(claims, rounds[i]))
    && forall i, j | 0 <= i < |rounds| && 0 <= j < |rounds| :: ApartFor(claims, rounds[i], rounds[j])
  }

  /** The quarantine names made from random tokens. */
  function NamesFrom(claims: map<string, ArtifactClaim>, tokens: map<string, string>): map<string, string>
    requires forall slot | slot in claims :: slot in tokens
  {
    map slot | slot in claims :: QuarantineName(tokens[slot])
  }

  /** Names made from distinct random tokens are fresh: they are hidden, as no slot is, and differ as the tokens do. */
  lemma TokensMakeFreshNames(claims: map<string, ArtifactClaim>, tokens: map<string, string>)
    requires forall slot | slot in claims :: PlainName(AfterSlash(slot))
    requires forall slot | slot in claims :: slot in tokens && IsHex(tokens[slot], 32)
    requires forall a, b | a in claims && b in claims && a != b :: tokens[a] != tokens[b]
    ensures FreshFor(claims, NamesFrom(claims, tokens))
  {
    hide IsHex, ValidName, Path, AfterSlash, PlainName, QuarantineName;
    forall slot | slot in claims
      ensures ValidName(QuarantineName(tokens[slot]))
      ensures QuarantinePath(claims[slot], QuarantineName(tokens[slot])) !in claims
    {
      QuarantineNameIsHidden(tokens[slot]);
      AfterSlashOfPath(claims[slot].collection, QuarantineName(tokens[slot]));
    }
    TokensMakeApart(claims, tokens, tokens);
  }

  lemma TokensMakeApart(claims: map<string, ArtifactClaim>, tokens: map<string, string>, drawn: map<string, string>)
    requires forall slot | slot in claims :: slot in tokens && IsHex(tokens[slot], 32)
    requires forall slot | slot in claims :: slot in drawn && IsHex(drawn[slot], 32)
    requires forall a, b | a in claims && b in claims && a != b :: tokens[a] != drawn[b]
    ensures ApartFor(claims, NamesFrom(claims, tokens), NamesFrom(claims, drawn))
  {
    hide IsHex, ValidName, Path, QuarantineName;
    forall a, b | a in claims && b in claims && a != b
      ensures QuarantinePath(claims[a], QuarantineName(tokens[a]))
              != QuarantinePath(claims[b], QuarantineName(drawn[b]))
    {
      if QuarantinePath(claims[a], QuarantineName(tokens[a])) == QuarantinePath(claims[b], QuarantineName(drawn[b])) {
        PathInjective(claims[a].collection, QuarantineName(tokens[a]), claims[b].collection, QuarantineName(drawn[b]));
        HexLengths(tokens[a], drawn[b]);
        QuarantineNameNamesToken(tokens[a], drawn[b]);
      }
    }
  }

  /** The tokens are drawn for every claim, and no two drawn for different claims are the same. */
  predicate TokensDrawn(claims: map<string, ArtifactClaim>, rounds: seq<map<string, string>>) {
    && (forall i | 0 <= i < |rounds| ::
          forall slot | slot in claims :: slot in rounds[i] && IsHex(rounds[i][slot], 32))
    && forall i, j | 0 <= i < |rounds| && 0 <= j < |rounds| ::
         forall a, b | a in claims && b in claims && a != b :: rounds[i][a] != rounds[j][b]
  }

  function RoundsFrom(claims: map<string, ArtifactClaim>, rounds: seq<map<string, string>>)
    : (names: seq<map<string, string>>)
    requires TokensDrawn(claims, rounds)
    ensures |names| == |rounds| && forall i | 0 <= i < |rounds| :: names[i] == NamesFrom(claims, rounds[i])
  {
    seq(|rounds|, i requires 0 <= i < |rounds| => NamesFrom(claims, rounds[i]))
  }

  /** So do the names of any number of rounds. */
  lemma TokensMakeFreshRounds(claims: map<string, ArtifactClaim>, rounds: seq<map<string, string>>)
    requires forall slot | slot in claims :: PlainName(AfterSlash(slot))
    requires TokensDrawn(claims, rounds)
    ensures FreshRoundsFor(claims, RoundsFrom(claims, rounds))
  {
    hide IsHex, PlainName, AfterSlash, FreshFor, ApartFor, NamesFrom;
    var names := RoundsFrom(claims, rounds);
    forall i | 0 <= i < |names|
      ensures FreshFor(claims, names[i])
    {
      TokensMakeFreshNames(claims, rounds[i]);
    }
    forall i, j | 0 <= i < |names| && 0 <= j < |names|
      ensures ApartFor(claims, names[i], names[j])
    {
      TokensMakeApart(claims, rounds[i], rounds[j]);
    }
  }

  lemma QuarantineNameIsHidden(token: string)
    requires IsHex(token, 32)
    ensures ValidName(QuarantineName(token)) && !PlainName(QuarantineName(token))
  {
    assert NameText(token) && NameText(".artifact-delete-") && NameText(".quarantine");
    NameTextJoins(".artifact-delete-", token);
    NameTextJoins(".artifact-delete-" + token, ".quarantine");
  }

  lemma HexLengths(a: string, b: string)
    requires IsHex(a, 32) && IsHex(b, 32)
    ensures |a| == |b|
  {}

  lemma QuarantineNameNamesToken(a: string, b: string)
    requires QuarantineName(a) == QuarantineName(b) && |a| == |b|
    ensures a == b
  {
    var prefix := ".artifact-delete-";
    assert QuarantineName(a)[|prefix|..|prefix| + |a|] == a;
    assert QuarantineName(b)[|prefix|..|prefix| + |b|] == b;
  }

  lemma DoomedNames(s: Space, claims: map<string, ArtifactClaim>, names: map<string, string>)
    requires Dooms(s, claims)
    ensures (forall slot | slot in claims :: slot in names && ValidName(names[slot])) ==> NamesEach(s, names)
    ensures FreshFor(claims, names) ==> FreshNames(s, names)
  {
    hide QuarantinePath, ValidName;
  }

  /** The delete items are those of the claims; what is quarantined is so under the names drawn for it. */
  ghost predicate BegunFrom(claims: map<string, ArtifactClaim>, s: Space, names: map<string, string>) {
    && s.deleteItems.Keys == claims.Keys
    && forall slot | slot in claims ::
         && s.deleteItems[slot].claim == claims[slot]
         && (s.deleteItems[slot].quarantineName.Some? ==>
               slot in names && s.deleteItems[slot].quarantineName == Some(names[slot]))
  }

  lemma DoomedIsBegun(claims: map<string, ArtifactClaim>, s: Space, t: Space, names: map<string, string>)
    requires Dooms(s, claims)
    ensures BegunFrom(claims, s, names)
    ensures SameClaims(s, t) && NamedFrom(s, t, names) ==> BegunFrom(claims, t, names)
  {}

  /**
   Deletes an active workspace or takes up its deletion; a workspace that is already gone is done with. A call cut
   short leaves the workspace recoverable with nothing decided differently, or a deletion that can be taken up again.
   */
  method DeleteWorkspace(store: Store, names: map<string, string>, quiet: bool) returns (p: Progress)
    requires || Recoverable(store.id, store.sha, store.rows, store.files)
             || Deletable(store.id, store.sha, store.rows, store.files)
             || (store.rows == EMPTY && store.files == map[])
    requires store.rows.workspace.Some? && store.rows.workspace.value.phase == Active ==>
               forall slot | slot in Decisions(store.rows) :: slot in names && ValidName(names[slot])
    requires store.rows.workspace.Some? && store.rows.workspace.value.phase == Deleting ==> NamesEach(store.rows, names)
    modifies store
    ensures p == Done ==> store.rows == EMPTY && store.files == map[]
    ensures old(store.rows == EMPTY) ==> p == Done
    ensures old(Recoverable(store.id, store.sha, store.rows, store.files) && Stuck(store.rows, store.files)) ==>
              p != Done && store.rows == old(store.rows) && store.files == old(store.files)
    ensures (&& old(Recoverable(store.id, store.sha, store.rows, store.files) && !Stuck(store.rows, store.files))
             && FreshFor(old(Decisions(store.rows)), names)) ==>
              || (&& Recoverable(store.id, store.sha, store.rows, store.files) && !Stuck(store.rows, store.files)
                  && Decisions(store.rows) == old(Decisions(store.rows)))
              || (&& Deletable(store.id, store.sha, store.rows, store.files)
                  && BegunFrom(old(Decisions(store.rows)), store.rows, names))
              || (store.rows == EMPTY && store.files == map[])
    ensures old(Deletable(store.id, store.sha, store.rows, store.files)) && FreshNames(old(store.rows), names) ==>
              || (&& Deletable(store.id, store.sha, store.rows, store.files)
                  && SameClaims(old(store.rows), store.rows) && NamedFrom(old(store.rows), store.rows, names))
              || (store.rows == EMPTY && store.files == map[])
    ensures (&& quiet
             && old(Recoverable(store.id, store.sha, store.rows, store.files) && !Stuck(store.rows, store.files))
             && FreshFor(old(Decisions(store.rows)), names)) ==> p == Done
    ensures (&& quiet && old(Deletable(store.id, store.sha, store.rows, store.files))
             && FreshNames(old(store.rows), names)) ==> p == Done
  {
    hide *;
    var id, sha := store.id, store.sha;
    ghost var decided := Decisions(store.rows);
    WhichPhase(id, sha, store.rows, store.files);
    if store.rows.workspace.None? { return Done; }
    if store.rows.workspace.value.phase == Active {
      p := BeginDeletion(store, quiet);
      WhichPhase(id, sha, store.rows, store.files);
      if store.rows.workspace.value.phase == Deleting {
        DoomedIsBegun(decided, store.rows, store.rows, names);
      }
      if p != Done { return; }
      DoomedNames(store.rows, decided, names);
    }
    ghost var s, f := store.rows, store.files;
    WhichPhase(id, sha, s, f);
    p := ResumeDeletion(store, names, quiet);
    ShrunkGives(id, sha, s, f, store.rows, store.files);
    if old(store.rows.workspace.value.phase == Active) {
      DoomedIsBegun(decided, s, store.rows, names);
    }
  }

  lemma WhichPhase(id: string, sha: Digest, s: Space, f: Files)
    ensures Recoverable(id, sha, s, f) ==> s.workspace.Some? && s.workspace.value.phase == Active && s != EMPTY
    ensures Deletable(id, sha, s, f) ==>
              s.workspace.Some? && s.workspace.value.phase == Deleting && SpaceInv(id, s) && s != EMPTY
    ensures s == EMPTY ==> s.workspace.None?
  {
    hide SpaceInv, PlainSlots, LayoutMatches, ItemsFit;
  }

  // ---------------------------------------------------------------- deletions cut short any number of times

  /** The names of every round are fresh now, and no two rounds' names collide. */
  ghost predicate FreshRounds(s: Space, rounds: seq<map<string, string>>) {
    && (forall i | 0 <= i < |rounds| :: FreshNames(s, rounds[i]))
    && forall i, j | 0 <= i < |rounds| && 0 <= j < |rounds| :: Apart(s, rounds[i], rounds[j])
  }

  /** Wherever a deletion can start or be cut short, with names for every round to come. */
  ghost predicate Underway(id: string, sha: Digest, s: Space, f: Files, rounds: seq<map<string, string>>) {
    || (Recoverable(id, sha, s, f) && FreshRoundsFor(Decisions(s), rounds))
    || (Deletable(id, sha, s, f) && FreshRounds(s, rounds))
    || (s == EMPTY && f == map[])
  }

  /** The one window recovery refuses, and with it the deletion. */
  ghost predicate Refused(id: string, sha: Digest, s: Space, f: Files) {
    Recoverable(id, sha, s, f) && Stuck(s, f)
  }

  /**
   Any number of deletions from an active workspace or a half-deleted one, each cut short anywhere, before or after
   the deletion is recorded, and then one that is left alone: no file and no row is left. It fails exactly in the
   window recovery refuses, and then it has changed nothing.
   */
  method DeleteAfterCrashes(store: Store, rounds: seq<map<string, string>>) returns (p: Progress)
    requires rounds != [] && Underway(store.id, store.sha, store.rows, store.files, rounds)
    modifies store
    ensures p == Done <==> !old(Refused(store.id, store.sha, store.rows, store.files))
    ensures p == Done ==> store.rows == EMPTY && store.files == map[]
    ensures p != Done ==> store.rows == old(store.rows) && store.files == old(store.files)
  {
    hide *;
    var id, sha := store.id, store.sha;
    p := Raised;
    ghost var s0, f0 := store.rows, store.files;
    for i := 0 to |rounds|
      invariant Underway(id, sha, store.rows, store.files, rounds)
      invariant Refused(id, sha, store.rows, store.files) <==> Refused(id, sha, s0, f0)
      invariant Refused(id, sha, s0, f0) ==> p != Done && store.rows == s0 && store.files == f0
      invariant i == |rounds| && !Refused(id, sha, s0, f0) ==> p == Done && store.rows == EMPTY && store.files == map[]
    {
      ghost var s, f := store.rows, store.files;
      WhichPhase(id, sha, s, f);
      RoundGives(id, sha, s, f, rounds, i);
      p := DeleteWorkspace(store, rounds[i], i == |rounds| - 1);
      RoundLeaves(id, sha, s, f, store.rows, store.files, rounds, i);
    }
  }

  /** What a round may rely on. */
  lemma RoundGives(id: string, sha: Digest, s: Space, f: Files, rounds: seq<map<string, string>>, i: nat)
    requires Underway(id, sha, s, f, rounds) && i < |rounds|
    ensures Recoverable(id, sha, s, f) || Deletable(id, sha, s, f) || (s == EMPTY && f == map[])
    ensures Recoverable(id, sha, s, f) ==>
              && FreshFor(Decisions(s), rounds[i])
              && forall slot | slot in Decisions(s) :: slot in rounds[i] && ValidName(rounds[i][slot])
    ensures Deletable(id, sha, s, f) ==> FreshNames(s, rounds[i]) && NamesEach(s, rounds[i])
    ensures Refused(id, sha, s, f) <==> Recoverable(id, sha, s, f) && Stuck(s, f)
  {
    WhichPhase(id, sha, s, f);
    hide Recoverable, Deletable, Apart, ApartFor, UnusedQuarantine, ValidName, Decisions, QuarantinePath, Stuck;
  }

  /** What a round leaves is something the next one can start from. */
  lemma RoundLeaves(id: string, sha: Digest, s: Space, f: Files, t: Space, g: Files, rounds: seq<map<string, string>>,
                    k: nat)
    requires Underway(id, sha, s, f, rounds) && k < |rounds|
    requires Refused(id, sha, s, f) ==> t == s && g == f
    requires Recoverable(id, sha, s, f) && !Stuck(s, f) ==>
               || (Recoverable(id, sha, t, g) && !Stuck(t, g) && Decisions(t) == Decisions(s))
               || (Deletable(id, sha, t, g) && BegunFrom(Decisions(s), t, rounds[k]))
               || (t == EMPTY && g == map[])
    requires Deletable(id, sha, s, f) ==>
               || (Deletable(id, sha, t, g) && SameClaims(s, t) && NamedFrom(s, t, rounds[k]))
               || (t == EMPTY && g == map[])
    requires s == EMPTY ==> t == EMPTY && g == map[]
    ensures Underway(id, sha, t, g, rounds) && (Refused(id, sha, t, g) <==> Refused(id, sha, s, f))
  {
    WhichPhase(id, sha, s, f);
    WhichPhase(id, sha, t, g);
    hide Recoverable, Deletable, Stuck, Decisions, FreshRounds, FreshRoundsFor, SameClaims, NamedFrom, BegunFrom;
    if Recoverable(id, sha, s, f) {
      if Deletable(id, sha, t, g) && BegunFrom(Decisions(s), t, rounds[k]) {
        RoundsBegin(Decisions(s), t, rounds, k);
      }
    } else if Deletable(id, sha, s, f) && t != EMPTY {
      RoundsStayFresh(s, t, rounds, k);
    }
  }

  /** Names fresh for the claims are fresh for their delete items, whichever of them are in use. */
  lemma RoundsBegin(claims: map<string, ArtifactClaim>, t: Space, rounds: seq<map<string, string>>, k: nat)
    requires FreshRoundsFor(claims, rounds) && k < |rounds| && BegunFrom(claims, t, rounds[k])
    ensures FreshRounds(t, rounds)
  {
    hide QuarantinePath, ValidName;
    forall i | 0 <= i < |rounds|
      ensures FreshNames(t, rounds[i])
    {
      assert ApartFor(claims, rounds[k], rounds[i]);
      NamesBegin(claims, t, rounds[k], rounds[i]);
    }
    forall i, j | 0 <= i < |rounds| && 0 <= j < |rounds|
      ensures Apart(t, rounds[i], rounds[j])
    {
      assert ApartFor(claims, rounds[i], rounds[j]);
    }
  }

  lemma NamesBegin(claims: map<string, ArtifactClaim>, t: Space, names: map<string, string>, drawn: map<string, string>)
    requires BegunFrom(claims, t, names) && FreshFor(claims, drawn) && ApartFor(claims, names, drawn)
    ensures FreshNames(t, drawn)
  {
    hide QuarantinePath, ValidName;
  }

  lemma ShrunkGives(id: string, sha: Digest, s: Space, f: Files, t: Space, g: Files)
    requires Shrunk(id, sha, s, f, t, g)
    ensures t == EMPTY ==> g == map[]
    ensures t != EMPTY ==> SameClaims(s, t)
  {
    hide SpaceInv, OnlyClaimedGo, Remaining;
  }

  lemma RoundsStayFresh(s: Space, t: Space, rounds: seq<map<string, string>>, k: nat)
    requires FreshRounds(s, rounds) && k < |rounds| && SameClaims(s, t) && NamedFrom(s, t, rounds[k])
    ensures FreshRounds(t, rounds)
  {
    hide FreshNames, Apart, SameClaims, NamedFrom;
    forall i | 0 <= i < |rounds|
      ensures FreshNames(t, rounds[i])
    {
      FreshNamesStay(s, t, rounds[k], rounds[i]);
    }
    forall i, j | 0 <= i < |rounds| && 0 <= j < |rounds|
      ensures Apart(t, rounds[i], rounds[j])
    {
      ApartStays(s, t, rounds[i], rounds[j]);
    }
  }
}
