// What a completed reconciliation means for the user's document list.
module TagSync {
  import opened Wrappers
  import opened Text
  import opened TagModel
  import opened TagInvariants
  import opened TagReconcile

  lemma UnlinkedMeaning(s: State, remote: seq<RemoteDoc>, rows: seq<nat>)
    requires LinksInv(s) && Enumerates(rows, s.docs.Keys)
    ensures forall r :: r in Unlinked(s, remote, rows) <==> r in RemoteById(remote) && !s.Linked(r)
  {
    hide Refreshed, NewTagDoc;
    var snap := LinkSnapshot(s.docs, rows);
    var locals := LinksOf(s.docs, rows);
    var byRef := ByRef(snap, locals);
    StartedFromStart(s.docs, rows);
    forall r ensures r in byRef <==> s.Linked(r) {
      if r in byRef {
        assert PointsAt(s.docs, byRef, r);
      } else {
        NotLinkedBefore(s.docs, snap, locals, byRef, r);
      }
    }
  }

  /** New rows are exactly the ids from the old counter on. */
  lemma NewRowAt(s: State, t: State, remote: map<int, RemoteDoc>, missing: seq<int>, id: nat)
    requires NewRows(s, t, remote, missing) && id in t.docs && id !in s.docs
    ensures 0 <= id - s.nextDoc < |missing| && missing[id - s.nextDoc] in remote
    ensures t.docs[id] == NewTagDoc(missing[id - s.nextDoc], remote[missing[id - s.nextDoc]])
  {
    assert AddedRow(s.nextDoc, t.docs, remote, missing, id - s.nextDoc);
  }

  /** The tag flag of every active link tells whether its document is listed. */
  lemma FlagMeansListed(s: State, version: nat, remote: seq<RemoteDoc>, rows: seq<nat>, id: nat)
    requires LinksInv(s) && Ready(s, version, rows)
    requires var t := Reconcile(s, version, remote, rows).0; id in t.docs && t.docs[id].ActiveLink()
    ensures var doc := Reconcile(s, version, remote, rows).0.docs[id];
      doc.storageRef.Some? && (doc.linkOriginTag <==> doc.storageRef.value in RemoteById(remote))
  {
    hide Refreshed, Reconcile, Unlinked;
    ReconcileExact(s, version, remote, rows);
    if id in s.docs {
      assert OriginsOk(s.docs[id]);
    } else {
      NewRowAt(s, Reconcile(s, version, remote, rows).0, RemoteById(remote), Unlinked(s, remote, rows), id);
    }
  }

  lemma RowStaysLinked(s: State, t: State, remote: map<int, RemoteDoc>, ref: int)
    requires s.Linked(ref) && ref in remote
    requires forall id :: id in s.docs ==> id in t.docs && t.docs[id] == Reconciled(s.docs[id], remote)
    ensures t.Linked(ref)
  {
    hide Refreshed;
    var id :| id in s.docs && s.docs[id].ActiveLinkTo(ref);
    assert t.docs[id].ActiveLinkTo(ref);
  }

  lemma MissingIsLinked(s: State, t: State, remote: map<int, RemoteDoc>, missing: seq<int>, ref: int)
    requires NewRows(s, t, remote, missing) && ref in missing
    ensures t.Linked(ref)
  {
    var k :| 0 <= k < |missing| && missing[k] == ref;
    assert AddedRow(s.nextDoc, t.docs, remote, missing, k);
    assert t.docs[s.nextDoc + k].ActiveLinkTo(ref);
  }

  lemma ListedIsLinked(s: State, version: nat, remote: seq<RemoteDoc>, rows: seq<nat>, ref: int)
    requires LinksInv(s) && Ready(s, version, rows) && ref in RemoteById(remote)
    ensures Reconcile(s, version, remote, rows).0.Linked(ref)
  {
    hide Reconciled, Reconcile, Unlinked, LinksInv, NewRows, Tagless;
    ReconcileExact(s, version, remote, rows);
    UnlinkedMeaning(s, remote, rows);
    var t := Reconcile(s, version, remote, rows).0;
    if s.Linked(ref) {
      RowStaysLinked(s, t, RemoteById(remote), ref);
    } else {
      MissingIsLinked(s, t, RemoteById(remote), Unlinked(s, remote, rows), ref);
    }
  }

  /** A listed document has exactly one active row. */
  lemma ListedHasOneRow(s: State, version: nat, remote: seq<RemoteDoc>, rows: seq<nat>, ref: int)
    requires LinksInv(s) && Ready(s, version, rows) && ref in RemoteById(remote)
    ensures var t := Reconcile(s, version, remote, rows).0;
      t.Linked(ref) && forall a, b :: a in t.docs && b in t.docs && t.docs[a].ActiveLinkTo(ref) && t.docs[b].ActiveLinkTo(ref) ==> a == b
  {
    hide Reconcile, OriginsOk;
    ListedIsLinked(s, version, remote, rows, ref);
    ReconcileKeepsLinks(s, version, remote, rows);
  }

  lemma ReconcileKeepsLinks(s: State, version: nat, remote: seq<RemoteDoc>, rows: seq<nat>)
    requires LinksInv(s)
    ensures LinksInv(Reconcile(s, version, remote, rows).0)
  {
    StartRunSnapshotHolds(s, version, remote, rows);
    RunAllKeepsLinks(s, StartRun(s.docs, version, remote, rows));
  }

  /** A manual link survives with the user's metadata; a link is archived exactly
      when the tag was its only origin and its document is no longer listed. */
  lemma OldLinkOutcome(s: State, version: nat, remote: seq<RemoteDoc>, rows: seq<nat>, id: nat)
    requires LinksInv(s) && Ready(s, version, rows) && id in s.docs && s.docs[id].ActiveLink()
    ensures var t := Reconcile(s, version, remote, rows).0; var before := s.docs[id];
      && id in t.docs && UserValuesKept(before, t.docs[id])
      && (before.linkOriginManual ==> t.docs[id].ActiveLink())
      && (t.docs[id].archived <==> !before.linkOriginManual && before.storageRef.value !in RemoteById(remote))
  {
    hide Reconcile, Unlinked, OneRowPerRef, NewRows;
    ReconcileExact(s, version, remote, rows);
    assert OriginsOk(s.docs[id]);
  }

  /** Any sequence of runs, over any lists, leaves a manual link its values. */
  lemma {:induction false} ManualValuesSurvive(states: seq<State>, version: nat, lists: seq<seq<RemoteDoc>>, rows: seq<seq<nat>>, id: nat)
    requires |states| == |lists| + 1 && |rows| == |lists| && LinksInv(states[0])
    requires forall k :: 0 <= k < |lists| ==> Ready(states[k], version, rows[k]) && states[k + 1] == Reconcile(states[k], version, lists[k], rows[k]).0
    requires id in states[0].docs && states[0].docs[id].ActiveLink() && states[0].docs[id].linkOriginManual
    ensures var last := states[|lists|];
      LinksInv(last) && id in last.docs && last.docs[id].ActiveLink() && UserValuesKept(states[0].docs[id], last.docs[id])
    decreases |lists|
  {
    if lists != [] {
      hide Reconcile, OriginsOk, OneRowPerRef;
      var n := |lists| - 1;
      ManualValuesSurvive(states[..n + 1], version, lists[..n], rows[..n], id);
      ReconcileKeepsLinks(states[n], version, lists[n], rows[n]);
      OldLinkOutcome(states[n], version, lists[n], rows[n], id);
    }
  }

  ghost function ActiveIds(s: State): set<nat> { set id | id in s.docs && s.docs[id].ActiveLink() }

  /** Links whose only origin was the tag and whose document is gone. */
  ghost function ArchivedIds(s: State, remote: map<int, RemoteDoc>): set<nat> {
    set id | id in s.docs && s.docs[id].ActiveLink() && LostTag(s.docs[id], remote) && !s.docs[id].linkOriginManual
  }

  ghost function Interval(from: nat, count: nat): (r: set<nat>)
    ensures |r| == count && forall x :: x in r <==> from <= x < from + count
  {
    if count == 0 then {} else Interval(from, count - 1) + {from + count - 1}
  }

  lemma ActiveAfter(s: State, t: State, remote: map<int, RemoteDoc>, missing: seq<int>, id: nat)
    requires LinksInv(s) && NewRows(s, t, remote, missing)
    requires forall x :: x in s.docs ==> x in t.docs && t.docs[x] == Reconciled(s.docs[x], remote)
    ensures id in ActiveIds(t) <==> (id in ActiveIds(s) && id !in ArchivedIds(s, remote)) || s.nextDoc <= id < s.nextDoc + |missing|
  {
    hide Refreshed, OneRowPerRef;
    if s.nextDoc <= id < s.nextDoc + |missing| {
      assert AddedRow(s.nextDoc, t.docs, remote, missing, id - s.nextDoc);
    }
    if id in s.docs {
      assert OriginsOk(s.docs[id]) && t.docs[id] == Reconciled(s.docs[id], remote);
    } else if id in t.docs {
      NewRowAt(s, t, remote, missing, id);
    }
  }

  lemma IdsBelowCounter(s: State)
    requires LinksInv(s)
    ensures forall id :: id in s.docs ==> id < s.nextDoc
  {
  }

  lemma ActiveAfterAll(s: State, t: State, remote: map<int, RemoteDoc>, missing: seq<int>)
    requires LinksInv(s) && NewRows(s, t, remote, missing)
    requires forall x :: x in s.docs ==> x in t.docs && t.docs[x] == Reconciled(s.docs[x], remote)
    ensures |ActiveIds(t)| == |ActiveIds(s)| + |missing| - |ArchivedIds(s, remote)|
  {
    hide Reconciled, LinksInv, NewRows;
    IdsBelowCounter(s);
    var archived := ArchivedIds(s, remote);
    var kept := ActiveIds(s) - archived;
    var added := Interval(s.nextDoc, |missing|);
    forall id: nat ensures id in ActiveIds(t) <==> id in kept || id in added {
      ActiveAfter(s, t, remote, missing, id);
    }
    hide ActiveIds, ArchivedIds, Interval;
    assert ActiveIds(t) == kept + added && kept * added == {};
    assert archived <= ActiveIds(s);
  }

  /** Active links after = active links before + added - archived. */
  lemma ActiveLinksAddUp(s: State, version: nat, remote: seq<RemoteDoc>, rows: seq<nat>)
    requires LinksInv(s) && Ready(s, version, rows)
    ensures var done := Reconcile(s, version, remote, rows);
      |ActiveIds(done.0)| == |ActiveIds(s)| + done.1.tally.added - |ArchivedIds(s, RemoteById(remote))|
  {
    hide Reconcile, Reconciled, Unlinked, LinksInv, NewRows, ActiveIds, ArchivedIds, Tagless;
    ReconcileExact(s, version, remote, rows);
    var done := Reconcile(s, version, remote, rows);
    ActiveAfterAll(s, done.0, RemoteById(remote), Unlinked(s, remote, rows));
  }

  /** The job's progress after a completed sync: every remote id was processed. */
  lemma ProgressComplete(s: State, version: nat, remote: seq<RemoteDoc>, rows: seq<nat>)
    requires LinksInv(s) && Ready(s, version, rows) && DistinctIds(remote)
    ensures ToProgress(Reconcile(s, version, remote, rows).1.tally, |remote|).processed == |remote|
  {
    ReconcileExact(s, version, remote, rows);
    OrderOfDistinct(remote);
  }

  // --- Idempotence ---------------------------------------------------------------------

  lemma ReconciledTwice(doc: Doc, remote: map<int, RemoteDoc>)
    ensures Reconciled(Reconciled(doc, remote), remote) == Reconciled(doc, remote)
  {
    if doc.ActiveLink() && doc.storageRef.Some? && doc.storageRef.value in remote {
      RefreshedTwice(doc, remote[doc.storageRef.value]);
    }
  }

  lemma FixedRows(s: State, version: nat, remote: seq<RemoteDoc>, rows: seq<nat>, id: nat)
    requires LinksInv(s) && Ready(s, version, rows)
    requires id in Reconcile(s, version, remote, rows).0.docs
    ensures var t := Reconcile(s, version, remote, rows).0; Reconciled(t.docs[id], RemoteById(remote)) == t.docs[id]
  {
    hide Refreshed, NewTagDoc;
    ReconcileExact(s, version, remote, rows);
    var m := RemoteById(remote);
    var t := Reconcile(s, version, remote, rows).0;
    if id in s.docs {
      ReconciledTwice(s.docs[id], m);
    } else {
      NewRowAt(s, t, m, Unlinked(s, remote, rows), id);
      NewTagDocFixed(Unlinked(s, remote, rows)[id - s.nextDoc], m);
    }
  }

  lemma NewTagDocFixed(ref: int, remote: map<int, RemoteDoc>)
    requires ref in remote
    ensures Reconciled(NewTagDoc(ref, remote[ref]), remote) == NewTagDoc(ref, remote[ref])
  {
    NewTagDocRefreshed(ref, remote[ref]);
  }

  lemma HasMember<T>(s: seq<T>)
    ensures s != [] ==> exists x :: x in s
  {
    if s != [] { assert s[0] in s; }
  }

  /** After a run every listed document is linked and no link has a lost tag. */
  lemma NothingLeftToDo(s: State, version: nat, remote: seq<RemoteDoc>, rows: seq<nat>, again: seq<nat>)
    requires LinksInv(s) && Ready(s, version, rows)
    requires Enumerates(again, Reconcile(s, version, remote, rows).0.docs.Keys)
    ensures var t := Reconcile(s, version, remote, rows).0;
      LinksInv(t) && Unlinked(t, remote, again) == [] && Tagless(t.docs, RemoteById(remote)) == {}
  {
    hide Reconcile, Unlinked, OriginsOk, OneRowPerRef;
    var m := RemoteById(remote);
    var t := Reconcile(s, version, remote, rows).0;
    ReconcileKeepsLinks(s, version, remote, rows);
    UnlinkedMeaning(t, remote, again);
    forall r ensures r !in Unlinked(t, remote, again) {
      if r in m { ListedHasOneRow(s, version, remote, rows, r); }
    }
    HasMember(Unlinked(t, remote, again));
    forall id | id in t.docs && t.docs[id].ActiveLink() ensures !LostTag(t.docs[id], m) {
      FlagMeansListed(s, version, remote, rows, id);
    }
  }

  /** A second run over the same list changes no row and reports no change. */
  lemma ReconcileIdempotent(s: State, version: nat, remote: seq<RemoteDoc>, rows: seq<nat>, again: seq<nat>)
    requires LinksInv(s) && Ready(s, version, rows)
    requires Enumerates(again, Reconcile(s, version, remote, rows).0.docs.Keys)
    ensures var t := Reconcile(s, version, remote, rows).0;
      var second := Reconcile(t, version, remote, again);
      && second.0 == t
      && second.1.tally == Tally(0, 0, |RemoteOrder(remote)|, 0)
  {
    hide Reconcile, Reconciled, Unlinked, LinksInv, Tagless;
    var t := Reconcile(s, version, remote, rows).0;
    NothingLeftToDo(s, version, remote, rows, again);
    ReconcileExact(t, version, remote, again);
    forall id | id in t.docs ensures Reconciled(t.docs[id], RemoteById(remote)) == t.docs[id] {
      FixedRows(s, version, remote, rows, id);
    }
    var second := Reconcile(t, version, remote, again);
    assert second.0.docs == t.docs;
    NoChange(t, version, remote, again);
  }

  /** A run that leaves every row as it is counts no update. */
  lemma NoChange(s: State, version: nat, remote: seq<RemoteDoc>, rows: seq<nat>)
    requires LinksInv(s) && Ready(s, version, rows)
    requires forall id :: id in s.docs ==> Reconciled(s.docs[id], RemoteById(remote)) == s.docs[id]
    ensures Reconcile(s, version, remote, rows).1.tally.updated == 0
  {
    hide Refreshed, NewTagDoc, OriginsOk, OneRowPerRef, RemoteOrder, ByRef, LinksOf;
    var start := StartRun(s.docs, version, remote, rows);
    StartInv(s, version, remote, rows);
    RunAllInv(s, s, start);
    RunAllKeepsList(s, start);
    var end := RunAll(s, start).1;
    var changed := Changed(end.snap, end.byRef, end.remote, Members(end.order, end.i));
    forall r ensures r !in changed {
      if r in end.byRef && r in end.remote {
        assert PointsAt(s.docs, end.byRef, r);
        assert Reconciled(s.docs[end.byRef[r]], end.remote) == Refreshed(s.docs[end.byRef[r]], end.remote[r]);
      }
    }
    assert changed == {};
  }
}
