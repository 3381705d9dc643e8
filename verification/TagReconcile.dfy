// What one uninterrupted reconciliation does to every document row.
module TagReconcile {
  import opened Wrappers
  import opened Text
  import opened TagModel
  import opened TagInvariants

  // --- The remote list ---------------------------------------------------------------

  lemma {:induction false} LastEntryWins(remote: seq<RemoteDoc>, k: nat)
    requires k < |remote| && forall j :: k < j < |remote| ==> remote[j].paperlessId != remote[k].paperlessId
    ensures remote[k].paperlessId in RemoteById(remote) && RemoteById(remote)[remote[k].paperlessId] == remote[k]
  {
    var n := |remote| - 1;
    if k < n {
      assert remote[..n][k] == remote[k];
      LastEntryWins(remote[..n], k);
    }
  }

  /** Documents are walked in the order of their first entries. */
  predicate FirstAt(remote: seq<RemoteDoc>, k: nat) {
    k < |remote| && forall j :: 0 <= j < k ==> remote[j].paperlessId != remote[k].paperlessId
  }

  lemma {:induction false} FirstEntriesInOrder(remote: seq<RemoteDoc>, a: nat, b: nat)
    requires a < b && FirstAt(remote, a) && FirstAt(remote, b)
    ensures exists i, j :: 0 <= i < j < |RemoteOrder(remote)| && RemoteOrder(remote)[i] == remote[a].paperlessId && RemoteOrder(remote)[j] == remote[b].paperlessId
  {
    var n := |remote| - 1;
    var before, order := RemoteOrder(remote[..n]), RemoteOrder(remote);
    assert forall k :: 0 <= k < n ==> remote[..n][k] == remote[k];
    if b < n {
      FirstEntriesInOrder(remote[..n], a, b);
      var i, j :| 0 <= i < j < |before| && before[i] == remote[a].paperlessId && before[j] == remote[b].paperlessId;
      assert order[i] == before[i] && order[j] == before[j];
    } else {
      assert remote[b].paperlessId !in before;
      assert remote[a].paperlessId in before;
      var i :| 0 <= i < |before| && before[i] == remote[a].paperlessId;
      assert order == before + [remote[b].paperlessId];
      assert order[i] == before[i] && order[|before|] == remote[b].paperlessId;
    }
  }

  // --- Metadata -----------------------------------------------------------------

  /** An existing link after the sync saw its document in the remote list. */
  function Refreshed(doc: Doc, remote: RemoteDoc): (r: Doc)
    ensures r == doc.(fileName := r.fileName, documentDate := r.documentDate, mimeType := r.mimeType, linkOriginTag := true)
  {
    ApplyMetadata(doc, DeriveTagLinkMetadata(remote, Some(doc))).(linkOriginTag := true)
  }

  /** Something is written exactly when something changes. */
  lemma NothingToWriteIff(doc: Doc, remote: RemoteDoc)
    ensures (DeriveTagLinkMetadata(remote, Some(doc)) == NO_UPDATE && doc.linkOriginTag) <==> Refreshed(doc, remote) == doc
  {
  }

  /** Seeing the same remote document again changes nothing. */
  lemma RefreshedTwice(doc: Doc, remote: RemoteDoc)
    ensures Refreshed(Refreshed(doc, remote), remote) == Refreshed(doc, remote)
  {
  }

  lemma NewTagDocRefreshed(ref: int, remote: RemoteDoc)
    ensures Refreshed(NewTagDoc(ref, remote), remote) == NewTagDoc(ref, remote)
  {
  }

  /** A new link of the sync says what the list says, with a name made of the number
      where there is no title, and the tag is its only origin. */
  lemma NewTagDocSays(ref: int, remote: RemoteDoc)
    ensures var doc := NewTagDoc(ref, remote);
      && doc.ActiveLinkTo(ref) && doc.linkOriginTag && !doc.linkOriginManual && doc.tagging.None? && doc.taggingError.None?
      && doc.fileName == (if TrimOption(remote.title) != "" then TrimOption(remote.title) else "Paperless document " + IntToString(ref))
      && doc.documentDate == remote.created
      && doc.mimeType == if TrimOption(remote.mimeType) != "" then Some(TrimOption(remote.mimeType)) else None
  {
  }

  predicate NameMissing(doc: Doc) { Trim(doc.fileName) == "" }

  /** The user's metadata of a manual link: only what is missing is ever filled. */
  predicate UserValuesKept(before: Doc, after: Doc) {
    && after.linkOriginManual == before.linkOriginManual
    && (before.linkOriginManual ==>
          && (!NameMissing(before) ==> after.fileName == before.fileName)
          && (before.documentDate.Some? ==> after.documentDate == before.documentDate)
          && (before.mimeType.Some? ==> after.mimeType == before.mimeType))
  }

  /** What the remote list says reaches the row: always for a link the sync
      manages alone, and only where a value is missing for a manual one. */
  lemma RemoteValuesReach(doc: Doc, remote: RemoteDoc)
    ensures var after := Refreshed(doc, remote);
      && (TrimOption(remote.title) != "" && (!doc.linkOriginManual || NameMissing(doc)) ==> Trim(after.fileName) == TrimOption(remote.title))
      && (remote.created.Some? && (!doc.linkOriginManual || doc.documentDate.None?) ==> after.documentDate == remote.created)
      && (TrimOption(remote.mimeType) != "" && (!doc.linkOriginManual || doc.mimeType.None?) ==> after.mimeType == Some(TrimOption(remote.mimeType)))
      && (TrimOption(remote.title) == "" ==> after.fileName == doc.fileName)
      && (remote.created.None? ==> after.documentDate == doc.documentDate)
      && (TrimOption(remote.mimeType) == "" ==> after.mimeType == doc.mimeType)
      && UserValuesKept(doc, after)
  {
  }

  // --- The specification of a whole run -------------------------------------------

  /** The row that a run over `remote` makes of an existing row. */
  function Reconciled(doc: Doc, remote: map<int, RemoteDoc>): Doc {
    if !doc.ActiveLink() then doc
    else if doc.storageRef.Some? && doc.storageRef.value in remote then Refreshed(doc, remote[doc.storageRef.value])
    else if doc.linkOriginTag then DropTagOrigin(doc, doc)
    else doc
  }

  /** The ids of `refs` that no local link has, in order. */
  function Missing(byRef: map<int, nat>, refs: seq<int>): (r: seq<int>)
    ensures forall x :: x in r <==> x in refs && x !in byRef
    ensures Distinct(refs) ==> Distinct(r)
  {
    if refs == [] then []
    else
      var n := |refs| - 1;
      var before := Missing(byRef, refs[..n]);
      assert refs == refs[..n] + [refs[n]];
      if refs[n] in byRef then before else before + [refs[n]]
  }

  // --- The invariant of a run -------------------------------------------------------

  predicate IndexedBy(byRef: map<int, nat>, doc: Doc, id: nat) {
    doc.storageRef.Some? && doc.storageRef.value in byRef && byRef[doc.storageRef.value] == id
  }

  predicate PointsAt(docs: map<nat, Doc>, byRef: map<int, nat>, ref: int) {
    ref in byRef && byRef[ref] in docs && docs[byRef[ref]].ActiveLinkTo(ref)
  }

  /** The snapshot and the index are those of the rows `docs`. */
  ghost predicate StartedFrom(docs: map<nat, Doc>, snap: map<nat, Doc>, locals: seq<nat>, byRef: map<int, nat>) {
    && (forall id :: id in snap <==> id in docs && docs[id].ActiveLink())
    && (forall id :: id in snap ==> snap[id] == docs[id])
    && Distinct(locals) && (forall id :: id in locals <==> id in snap)
    && (forall id {:trigger IndexedBy(byRef, docs[id], id)} :: id in snap ==> IndexedBy(byRef, docs[id], id))
    && (forall r {:trigger PointsAt(docs, byRef, r)} :: r in byRef ==> PointsAt(docs, byRef, r))
  }

  ghost predicate Listing(order: seq<int>, remote: map<int, RemoteDoc>) {
    Distinct(order) && forall r :: r in order <==> r in remote
  }

  /** A row once the remote ids `done` and the lost local links `dropped` were walked. */
  function Walked(doc: Doc, id: nat, remote: map<int, RemoteDoc>, done: set<int>, dropped: set<nat>): Doc {
    if !doc.ActiveLink() || doc.storageRef.None? then doc
    else if doc.storageRef.value in done && doc.storageRef.value in remote then Refreshed(doc, remote[doc.storageRef.value])
    else if id in dropped then DropTagOrigin(doc, doc)
    else doc
  }

  ghost predicate OldRows(docs0: map<nat, Doc>, docs: map<nat, Doc>, remote: map<int, RemoteDoc>, done: set<int>, dropped: set<nat>) {
    forall id :: id in docs0 ==> id in docs && docs[id] == Walked(docs0[id], id, remote, done, dropped)
  }

  predicate AddedRow(from: nat, docs: map<nat, Doc>, remote: map<int, RemoteDoc>, missing: seq<int>, k: nat)
    requires k < |missing|
  {
    missing[k] in remote && from + k in docs && docs[from + k] == NewTagDoc(missing[k], remote[missing[k]])
  }

  ghost predicate NewRows(s0: State, s: State, remote: map<int, RemoteDoc>, missing: seq<int>) {
    && s.nextDoc == s0.nextDoc + |missing|
    && (forall id :: id in s.docs ==> id in s0.docs || s0.nextDoc <= id < s.nextDoc)
    && (forall k :: 0 <= k < |missing| ==> AddedRow(s0.nextDoc, s.docs, remote, missing, k))
  }

  ghost function Members<T>(s: seq<T>, k: nat): set<T>
    requires k <= |s|
  {
    set x | x in s[..k]
  }

  lemma MembersGrow<T>(s: seq<T>, k: nat)
    requires k < |s| && Distinct(s)
    ensures Members(s, k + 1) == Members(s, k) + {s[k]} && s[k] !in Members(s, k)
    ensures s[..k + 1] == s[..k] + [s[k]]
  {
  }

  lemma MembersAll<T>(s: seq<T>)
    ensures Members(s, |s|) == set x | x in s
  {
    assert s[..|s|] == s;
  }

  /** Remote ids among `done` whose existing link really changes. */
  ghost function Changed(snap: map<nat, Doc>, byRef: map<int, nat>, remote: map<int, RemoteDoc>, done: set<int>): set<int> {
    set r | r in done && r in byRef && r in remote && byRef[r] in snap && Refreshed(snap[byRef[r]], remote[r]) != snap[byRef[r]]
  }

  /** Local links among `seen` that lost the tag. */
  ghost function Lost(snap: map<nat, Doc>, remote: map<int, RemoteDoc>, seen: set<nat>): set<nat> {
    set id | id in seen && id in snap && LostTag(snap[id], remote)
  }

  predicate TallyExact(tally: Tally, walked: nat, added: nat, updated: nat, removed: nat) {
    && tally.added == added && tally.updated == updated && tally.removed == removed
    && tally.added + tally.updated + tally.untouched == walked
  }

  /** What the run was started with, and that nothing changed the configuration. */
  ghost predicate Steady(s0: State, s: State, run: Run) {
    && run.Valid()
    && StartedFrom(s0.docs, run.snap, run.locals, run.byRef) && Listing(run.order, run.remote)
    && (forall id :: id in s0.docs ==> id < s0.nextDoc)
    && s.config == s0.config && s.ConfigIs(run.version)
    && (run.i < |run.order| ==> run.j == 0)
    && !run.phase.Aborted?
    && (run.phase.Finished? ==> run.i == |run.order| && run.j == |run.locals|)
  }

  ghost predicate RowsInv(s0: State, s: State, run: Run)
    requires run.Valid()
  {
    && OldRows(s0.docs, s.docs, run.remote, Members(run.order, run.i), Lost(run.snap, run.remote, Members(run.locals, run.j)))
    && NewRows(s0, s, run.remote, Missing(run.byRef, run.order[..run.i]))
  }

  ghost predicate TallyInv(run: Run)
    requires run.Valid()
  {
    TallyExact(run.tally, run.i,
               |Missing(run.byRef, run.order[..run.i])|,
               |Changed(run.snap, run.byRef, run.remote, Members(run.order, run.i))|,
               |Lost(run.snap, run.remote, Members(run.locals, run.j))|)
  }

  ghost predicate RunInv(s0: State, s: State, run: Run) {
    Steady(s0, s, run) && RowsInv(s0, s, run) && TallyInv(run)
  }

  lemma StartedFromStart(docs: map<nat, Doc>, rows: seq<nat>)
    requires Enumerates(rows, docs.Keys) && OneRowPerRef(docs) && forall id :: id in docs ==> OriginsOk(docs[id])
    ensures var snap := LinkSnapshot(docs, rows); var locals := LinksOf(docs, rows);
      StartedFrom(docs, snap, locals, ByRef(snap, locals))
  {
    var snap := LinkSnapshot(docs, rows);
    var locals := LinksOf(docs, rows);
    var byRef := ByRef(snap, locals);
    forall id | id in snap ensures IndexedBy(byRef, docs[id], id) {
      assert OriginsOk(docs[id]) && id in locals;
      assert docs[byRef[docs[id].storageRef.value]].ActiveLinkTo(docs[id].storageRef.value);
    }
    forall r | r in byRef ensures PointsAt(docs, byRef, r) {
    }
  }

  lemma StartInv(s: State, version: nat, remote: seq<RemoteDoc>, rows: seq<nat>)
    requires LinksInv(s) && s.ConfigIs(version) && Enumerates(rows, s.docs.Keys)
    ensures RunInv(s, s, StartRun(s.docs, version, remote, rows))
  {
    hide Refreshed, NewTagDoc, ByRef, LinksOf, LinkSnapshot, RemoteOrder, RemoteById, OneRowPerRef, StartedFrom;
    var run := StartRun(s.docs, version, remote, rows);
    StartedFromStart(s.docs, rows);
    assert Members(run.order, 0) == {} && Members(run.locals, 0) == {};
    assert Lost(run.snap, run.remote, {}) == {} && Changed(run.snap, run.byRef, run.remote, {}) == {};
  }

  // --- One step at a time ------------------------------------------------------------

  lemma RefreshOldRow(docs0: map<nat, Doc>, docs: map<nat, Doc>, remote: map<int, RemoteDoc>, done: set<int>, id: nat, ref: int)
    requires OldRows(docs0, docs, remote, done, {}) && ref in remote && ref !in done
    requires id in docs0 && docs0[id].ActiveLinkTo(ref) && OneRowPerRef(docs0)
    ensures id in docs && docs[id] == docs0[id]
    ensures OldRows(docs0, docs[id := Refreshed(docs0[id], remote[ref])], remote, done + {ref}, {})
  {
  }

  lemma AddRow(docs0: map<nat, Doc>, docs: map<nat, Doc>, remote: map<int, RemoteDoc>, done: set<int>, ref: int, id: nat, doc: Doc)
    requires OldRows(docs0, docs, remote, done, {}) && id !in docs0
    requires forall x :: x in docs0 ==> !docs0[x].ActiveLinkTo(ref)
    ensures OldRows(docs0, docs[id := doc], remote, done + {ref}, {})
  {
  }

  lemma DropOldRow(docs0: map<nat, Doc>, docs: map<nat, Doc>, remote: map<int, RemoteDoc>, done: set<int>, dropped: set<nat>, id: nat)
    requires OldRows(docs0, docs, remote, done, dropped) && id !in dropped
    requires id in docs0 && docs0[id].ActiveLink() && docs0[id].storageRef.Some? && docs0[id].storageRef.value !in remote
    ensures id in docs && docs[id] == docs0[id]
    ensures OldRows(docs0, docs[id := DropTagOrigin(docs0[id], docs0[id])], remote, done, dropped + {id})
  {
  }

  /** The write for a linked remote document is a refresh of its row. */
  lemma WriteExisting(s: State, run: Run, ref: int)
    requires run.Valid() && ref in run.remote && ref in run.byRef
    requires run.byRef[ref] in s.docs && s.docs[run.byRef[ref]] == run.snap[run.byRef[ref]]
    ensures var id := run.byRef[ref]; var doc := s.docs[id]; var w := WriteRemote(s, run, ref);
      && w.0 == s.(docs := s.docs[id := Refreshed(doc, run.remote[ref])])
      && w.1 == if Refreshed(doc, run.remote[ref]) != doc then run.tally.(updated := run.tally.updated + 1)
                else run.tally.(untouched := run.tally.untouched + 1)
  {
    var id := run.byRef[ref];
    NothingToWriteIff(s.docs[id], run.remote[ref]);
    if Refreshed(s.docs[id], run.remote[ref]) == s.docs[id] {
      assert s.docs[id := s.docs[id]] == s.docs;
    }
  }

  lemma ChangedGrows(snap: map<nat, Doc>, byRef: map<int, nat>, remote: map<int, RemoteDoc>, done: set<int>, ref: int)
    requires ref in byRef && ref in remote && byRef[ref] in snap && ref !in done
    ensures |Changed(snap, byRef, remote, done + {ref})| ==
            |Changed(snap, byRef, remote, done)| + if Refreshed(snap[byRef[ref]], remote[ref]) != snap[byRef[ref]] then 1 else 0
  {
    var before := Changed(snap, byRef, remote, done);
    assert ref !in before;
    assert Changed(snap, byRef, remote, done + {ref}) ==
           if Refreshed(snap[byRef[ref]], remote[ref]) != snap[byRef[ref]] then before + {ref} else before;
  }

  lemma ChangedStays(snap: map<nat, Doc>, byRef: map<int, nat>, remote: map<int, RemoteDoc>, done: set<int>, ref: int)
    requires ref !in byRef
    ensures Changed(snap, byRef, remote, done + {ref}) == Changed(snap, byRef, remote, done)
  {
  }

  lemma LostGrows(snap: map<nat, Doc>, remote: map<int, RemoteDoc>, seen: set<nat>, id: nat)
    requires id in snap && id !in seen
    ensures var lost := Lost(snap, remote, seen);
      id !in lost && Lost(snap, remote, seen + {id}) == if LostTag(snap[id], remote) then lost + {id} else lost
  {
  }

  lemma MissingGrows(byRef: map<int, nat>, order: seq<int>, i: nat)
    requires i < |order|
    ensures Missing(byRef, order[..i + 1]) == if order[i] in byRef then Missing(byRef, order[..i]) else Missing(byRef, order[..i]) + [order[i]]
  {
    assert order[..i + 1][..i] == order[..i];
  }

  lemma NothingLostYet(run: Run)
    requires run.Valid() && run.j == 0
    ensures Lost(run.snap, run.remote, Members(run.locals, run.j)) == {}
  {
  }

  lemma NewRowsStay(s0: State, s: State, t: State, remote: map<int, RemoteDoc>, missing: seq<int>, id: nat)
    requires NewRows(s0, s, remote, missing) && id in s0.docs && id < s0.nextDoc && id in s.docs
    requires t.nextDoc == s.nextDoc && id in t.docs && t.docs == s.docs[id := t.docs[id]]
    ensures NewRows(s0, t, remote, missing)
  {
    hide NewTagDoc;
    forall k | 0 <= k < |missing| ensures AddedRow(s0.nextDoc, t.docs, remote, missing, k) {
      assert AddedRow(s0.nextDoc, s.docs, remote, missing, k);
    }
  }

  lemma NextDocGrows(s0: State, s: State, remote: map<int, RemoteDoc>, missing: seq<int>)
    requires NewRows(s0, s, remote, missing)
    ensures s0.nextDoc <= s.nextDoc
  {
  }

  lemma NewRowsGrow(s0: State, s: State, t: State, remote: map<int, RemoteDoc>, missing: seq<int>, ref: int)
    requires NewRows(s0, s, remote, missing) && ref in remote
    requires t.nextDoc == s.nextDoc + 1 && t.docs == s.docs[s.nextDoc := NewTagDoc(ref, remote[ref])]
    ensures NewRows(s0, t, remote, missing + [ref])
  {
    hide NewTagDoc;
    forall k | 0 <= k < |missing| + 1 ensures AddedRow(s0.nextDoc, t.docs, remote, missing + [ref], k) {
      if k < |missing| { assert AddedRow(s0.nextDoc, s.docs, remote, missing, k); }
    }
  }

  lemma RemoteExistingRows(s0: State, s: State, run: Run)
    requires Steady(s0, s, run) && RowsInv(s0, s, run) && OneRowPerRef(s0.docs)
    requires run.phase.Walking? && run.i < |run.order| && run.order[run.i] in run.byRef
    ensures var next := RemoteStep(s, run);
      && run.byRef[run.order[run.i]] in s.docs && s.docs[run.byRef[run.order[run.i]]] == run.snap[run.byRef[run.order[run.i]]]
      && RowsInv(s0, next.0, next.1)
  {
    hide Refreshed, WriteRemote, NewTagDoc, Missing, Members, OldRows, NewRows, OneRowPerRef, Distinct;
    var ref := run.order[run.i];
    assert PointsAt(s0.docs, run.byRef, ref);
    NothingLostYet(run);
    MembersGrow(run.order, run.i);
    MissingGrows(run.byRef, run.order, run.i);
    RefreshOldRow(s0.docs, s.docs, run.remote, Members(run.order, run.i), run.byRef[ref], ref);
    WriteExisting(s, run, ref);
    NewRowsStay(s0, s, RemoteStep(s, run).0, run.remote, Missing(run.byRef, run.order[..run.i]), run.byRef[ref]);
  }

  lemma RemoteExistingTally(s: State, run: Run)
    requires run.Valid() && TallyInv(run) && s.ConfigIs(run.version) && Distinct(run.order)
    requires run.phase.Walking? && run.i < |run.order| && run.order[run.i] in run.byRef
    requires run.byRef[run.order[run.i]] in s.docs && run.byRef[run.order[run.i]] in run.snap && s.docs[run.byRef[run.order[run.i]]] == run.snap[run.byRef[run.order[run.i]]]
    ensures TallyInv(RemoteStep(s, run).1)
  {
    hide Refreshed, WriteRemote, Missing, Members, Changed, Lost, Distinct;
    var ref := run.order[run.i];
    MembersGrow(run.order, run.i);
    MissingGrows(run.byRef, run.order, run.i);
    WriteExisting(s, run, ref);
    ChangedGrows(run.snap, run.byRef, run.remote, Members(run.order, run.i), ref);
  }

  lemma RemoteExistingInv(s0: State, s: State, run: Run)
    requires RunInv(s0, s, run) && OneRowPerRef(s0.docs)
    requires run.phase.Walking? && run.i < |run.order| && run.order[run.i] in run.byRef
    ensures RunInv(s0, RemoteStep(s, run).0, RemoteStep(s, run).1)
  {
    hide WriteRemote, RowsInv, TallyInv;
    RemoteExistingRows(s0, s, run);
    assert PointsAt(s0.docs, run.byRef, run.order[run.i]);
    RemoteExistingTally(s, run);
  }

  lemma NotLinkedBefore(docs: map<nat, Doc>, snap: map<nat, Doc>, locals: seq<nat>, byRef: map<int, nat>, ref: int)
    requires StartedFrom(docs, snap, locals, byRef) && ref !in byRef
    ensures forall id :: id in docs ==> !docs[id].ActiveLinkTo(ref)
  {
    forall id | id in docs ensures !docs[id].ActiveLinkTo(ref) {
      assert id in snap ==> IndexedBy(byRef, docs[id], id);
    }
  }

  lemma NotYetLinked(s0: State, s: State, run: Run)
    requires Steady(s0, s, run) && RowsInv(s0, s, run) && run.i < |run.order| && run.order[run.i] !in run.byRef
    ensures !s.Linked(run.order[run.i])
  {
    hide Refreshed, StartedFrom;
    var ref := run.order[run.i];
    NotLinkedBefore(s0.docs, run.snap, run.locals, run.byRef, ref);
    MembersGrow(run.order, run.i);
    NotLinkedSince(s0, s, run, ref);
  }

  lemma OldRowsNotLinked(docs0: map<nat, Doc>, docs: map<nat, Doc>, remote: map<int, RemoteDoc>, done: set<int>, dropped: set<nat>, ref: int)
    requires OldRows(docs0, docs, remote, done, dropped) && forall id :: id in docs0 ==> !docs0[id].ActiveLinkTo(ref)
    ensures forall id :: id in docs0 ==> id in docs && !docs[id].ActiveLinkTo(ref)
  {
    hide Refreshed;
  }

  lemma NewRowsNotLinked(s0: State, s: State, remote: map<int, RemoteDoc>, missing: seq<int>, ref: int)
    requires NewRows(s0, s, remote, missing) && ref !in missing
    ensures forall id :: id in s.docs && id !in s0.docs ==> !s.docs[id].ActiveLinkTo(ref)
  {
    forall id | id in s.docs && id !in s0.docs ensures !s.docs[id].ActiveLinkTo(ref) {
      assert AddedRow(s0.nextDoc, s.docs, remote, missing, id - s0.nextDoc);
    }
  }

  lemma NotLinkedSince(s0: State, s: State, run: Run, ref: int)
    requires run.Valid() && RowsInv(s0, s, run) && ref !in Members(run.order, run.i)
    requires forall id :: id in s0.docs ==> !s0.docs[id].ActiveLinkTo(ref)
    ensures !s.Linked(ref)
  {
    hide Lost, OldRows, NewRows;
    OldRowsNotLinked(s0.docs, s.docs, run.remote, Members(run.order, run.i), Lost(run.snap, run.remote, Members(run.locals, run.j)), ref);
    NewRowsNotLinked(s0, s, run.remote, Missing(run.byRef, run.order[..run.i]), ref);
  }

  lemma RemoteNewRows(s0: State, s: State, run: Run)
    requires Steady(s0, s, run) && RowsInv(s0, s, run)
    requires run.phase.Walking? && run.i < |run.order| && run.order[run.i] !in run.byRef
    ensures var next := RemoteStep(s, run);
      next.1.tally == run.tally.(added := run.tally.added + 1) && RowsInv(s0, next.0, next.1)
  {
    hide Refreshed, NewTagDoc, Missing, Members, Distinct, StartedFrom, OldRows, NewRows;
    NextDocGrows(s0, s, run.remote, Missing(run.byRef, run.order[..run.i]));
    var ref := run.order[run.i];
    NotYetLinked(s0, s, run);
    NotLinkedBefore(s0.docs, run.snap, run.locals, run.byRef, ref);
    NothingLostYet(run);
    MembersGrow(run.order, run.i);
    MissingGrows(run.byRef, run.order, run.i);
    AddRow(s0.docs, s.docs, run.remote, Members(run.order, run.i), ref, s.nextDoc, NewTagDoc(ref, run.remote[ref]));
    var next := RemoteStep(s, run);
    assert next.0.docs == s.docs[s.nextDoc := NewTagDoc(ref, run.remote[ref])];
    NewRowsGrow(s0, s, next.0, run.remote, Missing(run.byRef, run.order[..run.i]), ref);
  }

  lemma RemoteNewInv(s0: State, s: State, run: Run)
    requires RunInv(s0, s, run) && run.phase.Walking? && run.i < |run.order| && run.order[run.i] !in run.byRef
    ensures RunInv(s0, RemoteStep(s, run).0, RemoteStep(s, run).1)
  {
    hide Refreshed, NewTagDoc, Missing, Members, Changed, Lost, Distinct, RowsInv, StartedFrom;
    RemoteNewRows(s0, s, run);
    MembersGrow(run.order, run.i);
    MissingGrows(run.byRef, run.order, run.i);
    ChangedStays(run.snap, run.byRef, run.remote, Members(run.order, run.i), run.order[run.i]);
  }

  lemma LocalRows(s0: State, s: State, run: Run)
    requires Steady(s0, s, run) && RowsInv(s0, s, run)
    requires run.phase.Walking? && run.i == |run.order| && run.j < |run.locals|
    ensures RowsInv(s0, LocalStep(s, run).0, LocalStep(s, run).1)
  {
    hide Refreshed, NewTagDoc, Missing, Members, Distinct;
    var id := run.locals[run.j];
    assert IndexedBy(run.byRef, s0.docs[id], id);
    MembersGrow(run.locals, run.j);
    LostGrows(run.snap, run.remote, Members(run.locals, run.j), id);
    if LostTag(run.snap[id], run.remote) {
      NewRowsStay(s0, s, s.PutDoc(id, DropTagOrigin(s0.docs[id], s0.docs[id])), run.remote, Missing(run.byRef, run.order[..run.i]), id);
      DropOldRow(s0.docs, s.docs, run.remote, Members(run.order, run.i), Lost(run.snap, run.remote, Members(run.locals, run.j)), id);
    }
  }

  lemma LocalInv(s0: State, s: State, run: Run)
    requires RunInv(s0, s, run) && run.phase.Walking? && run.i == |run.order| && run.j < |run.locals|
    ensures RunInv(s0, LocalStep(s, run).0, LocalStep(s, run).1)
  {
    hide Refreshed, Missing, Members, Changed, Lost, Distinct, RowsInv;
    LocalRows(s0, s, run);
    MembersGrow(run.locals, run.j);
    LostGrows(run.snap, run.remote, Members(run.locals, run.j), run.locals[run.j]);
  }

  lemma {:induction false} RunAllInv(s0: State, s: State, run: Run)
    requires RunInv(s0, s, run) && OneRowPerRef(s0.docs)
    ensures RunInv(s0, RunAll(s, run).0, RunAll(s, run).1)
    decreases run.Left()
  {
    if run.phase.Walking? {
      if run.i < |run.order| {
        if run.order[run.i] in run.byRef { RemoteExistingInv(s0, s, run); } else { RemoteNewInv(s0, s, run); }
      } else if run.j < |run.locals| {
        LocalInv(s0, s, run);
      }
      RunAllInv(s0, RunStep(s, run).0, RunStep(s, run).1);
    }
  }

  // --- The whole run ---------------------------------------------------------------------

  /** The remote list as the run reads it. */
  function Reconcile(s: State, version: nat, remote: seq<RemoteDoc>, rows: seq<nat>): (r: (State, Run))
    ensures r.0 == s.(docs := r.0.docs, nextDoc := r.0.nextDoc)
  {
    RunAll(s, StartRun(s.docs, version, remote, rows))
  }

  predicate Ready(s: State, version: nat, rows: seq<nat>) {
    s.ConfigIs(version) && Enumerates(rows, s.docs.Keys)
  }

  ghost function Tagless(docs: map<nat, Doc>, remote: map<int, RemoteDoc>): set<nat> {
    set id | id in docs && docs[id].ActiveLink() && LostTag(docs[id], remote)
  }

  /** The remote ids without a local link, in the order of the list. */
  ghost function Unlinked(s: State, remote: seq<RemoteDoc>, rows: seq<nat>): seq<int> {
    Missing(StartRun(s.docs, 0, remote, rows).byRef, RemoteOrder(remote))
  }

  /** A completed reconciliation rewrites every old row as Reconciled says and
      adds one row per remote document that had no link - nothing else. */
  lemma ReconcileExact(s: State, version: nat, remote: seq<RemoteDoc>, rows: seq<nat>)
    requires LinksInv(s) && Ready(s, version, rows)
    ensures var done := Reconcile(s, version, remote, rows);
      var missing := Unlinked(s, remote, rows);
      && done.1.phase.Finished?
      && (forall id :: id in s.docs ==> id in done.0.docs && done.0.docs[id] == Reconciled(s.docs[id], RemoteById(remote)))
      && NewRows(s, done.0, RemoteById(remote), missing)
      && done.1.tally.added == |missing|
      && done.1.tally.removed == |Tagless(s.docs, RemoteById(remote))|
      && done.1.tally.added + done.1.tally.updated + done.1.tally.untouched == |RemoteOrder(remote)|
  {
    var start := StartRun(s.docs, version, remote, rows);
    StartInv(s, version, remote, rows);
    RunAllInv(s, s, start);
    var done := RunAll(s, start);
    RunAllKeepsList(s, start);
    WalkedEverything(s, done.0, done.1);
  }

  lemma WalkedEverything(s0: State, s: State, run: Run)
    requires RunInv(s0, s, run) && run.phase.Finished?
    ensures forall id :: id in s0.docs ==> id in s.docs && s.docs[id] == Reconciled(s0.docs[id], run.remote)
    ensures NewRows(s0, s, run.remote, Missing(run.byRef, run.order))
    ensures TallyExact(run.tally, |run.order|, |Missing(run.byRef, run.order)|, run.tally.updated, |Tagless(s0.docs, run.remote)|)
  {
    hide Refreshed, NewTagDoc;
    MembersAll(run.order);
    MembersAll(run.locals);
    assert run.order[..|run.order|] == run.order;
    var lost := Lost(run.snap, run.remote, Members(run.locals, run.j));
    assert lost == Tagless(s0.docs, run.remote);
    forall id | id in s0.docs ensures id in s.docs && s.docs[id] == Reconciled(s0.docs[id], run.remote) {
      assert s.docs[id] == Walked(s0.docs[id], id, run.remote, Members(run.order, run.i), lost);
      if id in run.snap {
        assert IndexedBy(run.byRef, s0.docs[id], id);
        var ref := s0.docs[id].storageRef.value;
        assert ref in run.remote <==> ref in Members(run.order, run.i);
        assert id in lost <==> LostTag(s0.docs[id], run.remote);
      }
    }
  }
}
