// What every reachable state of the tag synchronisation satisfies.
module TagInvariants {
  import opened Wrappers
  import opened TagModel

  // --- Links: origins, uniqueness, and what no configuration means ----------

  predicate OriginsOk(doc: Doc) {
    && (doc.ActiveLink() ==> doc.storageRef.Some? && (doc.linkOriginManual || doc.linkOriginTag))
    && (doc.storageType.Internal? ==> !doc.linkOriginManual && !doc.linkOriginTag)
  }

  ghost predicate OneRowPerRef(docs: map<nat, Doc>) {
    forall a, b :: a in docs && b in docs && docs[a].ActiveLink() && docs[b].ActiveLink() && docs[a].storageRef == docs[b].storageRef ==> a == b
  }

  ghost predicate LinksInv(s: State) {
    && (forall id :: id in s.docs ==> id < s.nextDoc && OriginsOk(s.docs[id]))
    && (forall id :: id in s.docs && s.docs[id].ActiveLink() && s.config.None? ==> s.docs[id].linkOriginManual && !s.docs[id].linkOriginTag)
    && OneRowPerRef(s.docs)
  }

  /** The snapshot of a running reconciliation still tells who is manual. */
  ghost predicate SnapshotHolds(s: State, run: Run) {
    forall id :: id in run.snap ==>
      id in s.docs && s.docs[id].storageType.PaperlessLink? && s.docs[id].linkOriginManual == run.snap[id].linkOriginManual
  }

  /** How far the run has come is what it has counted. */
  predicate CountsKept(run: Run) {
    && run.tally.added + run.tally.updated + run.tally.untouched == run.i
    && (run.phase.Finished? ==> run.i == |run.order|)
  }

  /** A write that keeps a row's identity, never revives it and leaves it an origin. */
  predicate RowKept(before: Doc, after: Doc) {
    && after.storageType == before.storageType && after.storageRef == before.storageRef
    && (before.archived ==> after.archived)
    && OriginsOk(after)
  }

  ghost predicate RowsKept(before: map<nat, Doc>, after: map<nat, Doc>) {
    before.Keys == after.Keys && forall id :: id in before ==> RowKept(before[id], after[id])
  }

  predicate NoTagOrigins(docs: map<nat, Doc>) {
    forall id :: id in docs && docs[id].ActiveLink() ==> docs[id].linkOriginManual && !docs[id].linkOriginTag
  }

  lemma RowsKeptKeepsLinks(s: State, t: State)
    requires LinksInv(s) && RowsKept(s.docs, t.docs) && t.nextDoc == s.nextDoc
    requires t.config.None? ==> NoTagOrigins(t.docs)
    ensures LinksInv(t)
  {
    forall a, b | a in t.docs && b in t.docs && t.docs[a].ActiveLink() && t.docs[b].ActiveLink() && t.docs[a].storageRef == t.docs[b].storageRef
      ensures a == b
    {
      assert RowKept(s.docs[a], t.docs[a]) && RowKept(s.docs[b], t.docs[b]);
    }
  }

  lemma NewRowKeepsLinks(s: State, doc: Doc, t: State)
    requires LinksInv(s) && t.docs == s.docs[s.nextDoc := doc] && t.nextDoc == s.nextDoc + 1 && t.config == s.config
    requires doc.ActiveLink() && OriginsOk(doc) && !s.Linked(doc.storageRef.value)
    requires t.config.None? ==> doc.linkOriginManual && !doc.linkOriginTag
    ensures LinksInv(t)
  {
    forall a, b | a in t.docs && b in t.docs && t.docs[a].ActiveLink() && t.docs[b].ActiveLink() && t.docs[a].storageRef == t.docs[b].storageRef
      ensures a == b
    {
      if a != s.nextDoc { assert s.docs[a] == t.docs[a]; }
      if b != s.nextDoc { assert s.docs[b] == t.docs[b]; }
      assert forall id :: id in s.docs ==> !s.docs[id].ActiveLinkTo(doc.storageRef.value);
    }
  }

  /** Rows are rewritten in place: same identity, same manual origin. */
  ghost predicate Rewritten(s: State, t: State) {
    && RowsKept(s.docs, t.docs) && t.nextDoc == s.nextDoc && t.config == s.config
    && forall id :: id in s.docs ==> t.docs[id].linkOriginManual == s.docs[id].linkOriginManual
  }

  lemma WriteRemoteRewrites(s: State, run: Run, ref: int)
    requires run.Valid() && ref in run.remote
    requires ref in run.byRef || s.Linked(ref)
    requires forall id :: id in s.docs ==> OriginsOk(s.docs[id])
    requires ref in run.byRef && run.byRef[ref] in s.docs ==> s.docs[run.byRef[ref]].storageType.PaperlessLink?
    ensures Rewritten(s, WriteRemote(s, run, ref).0)
  {
  }

  lemma DropRewrites(s: State, id: nat, snapshot: Doc)
    requires id in s.docs && forall x :: x in s.docs ==> OriginsOk(s.docs[x])
    requires s.docs[id].storageType.PaperlessLink? && s.docs[id].linkOriginManual == snapshot.linkOriginManual
    ensures Rewritten(s, s.PutDoc(id, DropTagOrigin(s.docs[id], snapshot)))
  {
  }

  lemma RewriteKeepsLinks(s: State, t: State, run: Run)
    requires LinksInv(s) && SnapshotHolds(s, run) && Rewritten(s, t) && s.config.Some?
    ensures LinksInv(t) && SnapshotHolds(t, run)
  {
    RowsKeptKeepsLinks(s, t);
    forall id | id in run.snap ensures id in t.docs && t.docs[id].linkOriginManual == run.snap[id].linkOriginManual {
      assert id in s.docs && RowKept(s.docs[id], t.docs[id]);
    }
  }

  ghost predicate Grown(s: State, t: State) {
    s.docs.Keys <= t.docs.Keys && forall id :: id in s.docs ==> t.docs[id].storageType == s.docs[id].storageType
  }

  lemma WriteRemoteKeepsLinks(s: State, run: Run, ref: int)
    requires run.Valid() && ref in run.remote && LinksInv(s) && SnapshotHolds(s, run) && s.config.Some?
    ensures var t := WriteRemote(s, run, ref).0; LinksInv(t) && SnapshotHolds(t, run) && Grown(s, t)
  {
    hide DeriveTagLinkMetadata, ApplyMetadata, FallbackName, OneRowPerRef;
    var t := WriteRemote(s, run, ref).0;
    if ref in run.byRef || s.Linked(ref) {
      WriteRemoteRewrites(s, run, ref);
      RewriteKeepsLinks(s, t, run);
      assert forall id :: id in s.docs ==> RowKept(s.docs[id], t.docs[id]);
    } else {
      NewRowKeepsLinks(s, NewTagDoc(ref, run.remote[ref]), t);
    }
  }

  ghost predicate RunKeeps(s: State, next: (State, Run)) {
    LinksInv(next.0) && SnapshotHolds(next.0, next.1) && CountsKept(next.1) && Grown(s, next.0)
  }

  lemma RemoteStepKeepsLinks(s: State, run: Run)
    requires run.Valid() && run.phase.Walking? && run.i < |run.order|
    requires LinksInv(s) && SnapshotHolds(s, run) && CountsKept(run)
    ensures RunKeeps(s, RemoteStep(s, run))
  {
    if s.ConfigIs(run.version) {
      WriteRemoteKeepsLinks(s, run, run.order[run.i]);
    }
  }

  lemma LocalStepKeepsLinks(s: State, run: Run)
    requires run.Valid() && run.phase.Walking? && run.i == |run.order| && run.j < |run.locals|
    requires LinksInv(s) && SnapshotHolds(s, run) && CountsKept(run)
    ensures RunKeeps(s, LocalStep(s, run))
  {
    var id := run.locals[run.j];
    if LostTag(run.snap[id], run.remote) && s.ConfigIs(run.version) {
      var t := s.PutDoc(id, DropTagOrigin(s.docs[id], run.snap[id]));
      DropRewrites(s, id, run.snap[id]);
      RewriteKeepsLinks(s, t, run);
      assert forall x :: x in s.docs ==> RowKept(s.docs[x], t.docs[x]);
    }
  }

  lemma RunStepKeepsLinks(s: State, run: Run)
    requires run.Valid() && LinksInv(s) && SnapshotHolds(s, run) && CountsKept(run)
    ensures RunKeeps(s, RunStep(s, run))
  {
    if run.phase.Walking? && run.i < |run.order| {
      RemoteStepKeepsLinks(s, run);
    } else if run.phase.Walking? && run.j < |run.locals| {
      LocalStepKeepsLinks(s, run);
    }
  }

  lemma {:induction false} RunAllKeepsLinks(s: State, run: Run)
    requires run.Valid() && LinksInv(s) && SnapshotHolds(s, run) && CountsKept(run)
    ensures LinksInv(RunAll(s, run).0) && CountsKept(RunAll(s, run).1)
    ensures Grown(s, RunAll(s, run).0)
    decreases run.Left()
  {
    if run.phase.Walking? {
      RunStepKeepsLinks(s, run);
      var next := RunStep(s, run);
      RunAllKeepsLinks(next.0, next.1);
    }
  }

  lemma {:induction false} RunAllKeepsList(s: State, run: Run)
    requires run.Valid()
    ensures var end := RunAll(s, run).1;
      end == run.(i := end.i, j := end.j, tally := end.tally, phase := end.phase)
    decreases run.Left()
  {
    if run.phase.Walking? {
      RunAllKeepsList(RunStep(s, run).0, RunStep(s, run).1);
    }
  }

  lemma {:induction false} OrderOfDistinct(remote: seq<RemoteDoc>)
    requires DistinctIds(remote)
    ensures |RemoteOrder(remote)| == |remote|
  {
    if remote != [] {
      var n := |remote| - 1;
      OrderOfDistinct(remote[..n]);
      assert forall k :: 0 <= k < n ==> remote[..n][k] == remote[k];
    }
  }

  lemma SetTagKeepsLinks(s: State, tagId: int, name: string, clientName: Option<string>, connection: string)
    requires LinksInv(s)
    ensures LinksInv(SetTag(s, tagId, name, clientName, connection))
  {
    hide OneRowPerRef;
    if !s.policyArchived {
      RowsKeptKeepsLinks(s, SetTag(s, tagId, name, clientName, connection));
    }
  }

  lemma RemoveTagKeepsLinks(s: State)
    requires LinksInv(s)
    ensures LinksInv(RemoveTag(s))
  {
    hide OneRowPerRef;
    if !s.policyArchived && s.config.Some? {
      var t := RemoveTag(s);
      assert forall id :: id in t.docs ==> t.docs[id] == WithoutTag(s.docs[id]);
      RowsKeptKeepsLinks(s, t);
    }
  }

  /** Queueing changes tagging columns and jobs only. */
  lemma QueueTaggingKeepsLinks(s: State, id: nat, version: nat)
    requires id in s.docs && LinksInv(s)
    ensures LinksInv(QueueTagging(s, id, version)) && Grown(s, QueueTagging(s, id, version))
  {
    hide OneRowPerRef, QueueTagging;
    RowsKeptKeepsLinks(s, QueueTagging(s, id, version));
  }

  lemma {:induction false} RetryRowsKeepsLinks(s: State, ids: seq<nat>, only: Option<nat>, version: nat)
    requires LinksInv(s)
    ensures LinksInv(RetryRows(s, ids, only, version)) && Grown(s, RetryRows(s, ids, only, version))
    decreases |ids|
  {
    if ids != [] {
      var n := |ids| - 1;
      RetryRowsKeepsLinks(s, ids[..n], only, version);
      var before := RetryRows(s, ids[..n], only, version);
      if ids[n] in before.docs {
        QueueTaggingKeepsLinks(before, ids[n], version);
      }
    }
  }

  lemma {:induction false} BackfillRowsKeepsLinks(s: State, ids: seq<nat>, version: nat)
    requires LinksInv(s)
    ensures LinksInv(BackfillRows(s, ids, version)) && Grown(s, BackfillRows(s, ids, version))
    decreases |ids|
  {
    if ids != [] {
      var n := |ids| - 1;
      BackfillRowsKeepsLinks(s, ids[..n], version);
      var before := BackfillRows(s, ids[..n], version);
      if ids[n] in before.docs {
        QueueTaggingKeepsLinks(before, ids[n], version);
      }
    }
  }

  lemma ManualOriginKeepsLinks(s: State, id: nat, meta: RemoteDoc)
    requires LinksInv(s) && id in s.docs && s.docs[id].ActiveLink()
    ensures LinksInv(ApplyManualLinkOrigin(s, id, meta))
  {
    hide OneRowPerRef, QueueTagging;
    RowsKeptKeepsLinks(s, ApplyManualLinkOrigin(s, id, meta));
  }

  lemma LinkDocumentKeepsLinks(s: State, meta: RemoteDoc, found: Option<nat>)
    requires LinksInv(s)
    ensures LinksInv(LinkDocument(s, meta, found))
  {
    if found.Some? {
      if found.value in s.docs && s.docs[found.value].ActiveLinkTo(meta.paperlessId) {
        ManualOriginKeepsLinks(s, found.value, meta);
      }
    } else if !s.Linked(meta.paperlessId) {
      var t := s.PutDoc(s.nextDoc, NewManualDoc(meta)).(nextDoc := s.nextDoc + 1);
      NewRowKeepsLinks(s, NewManualDoc(meta), t);
      ManualOriginKeepsLinks(t, s.nextDoc, meta);
    }
  }

  lemma RemoveDocumentKeepsLinks(s: State, id: nat)
    requires LinksInv(s)
    ensures LinksInv(RemoveDocument(s, id))
  {
    hide OneRowPerRef;
    if id in s.docs {
      assert OriginsOk(s.docs[id]);
      RowsKeptKeepsLinks(s, RemoveDocument(s, id));
    }
  }

  lemma StartRunSnapshotHolds(s: State, version: nat, remote: seq<RemoteDoc>, rows: seq<nat>)
    ensures SnapshotHolds(s, StartRun(s.docs, version, remote, rows))
  {
  }

  /** The reconciliation inside a finished sync handling. */
  function SyncRun(s: State, id: nat, remote: seq<RemoteDoc>, rows: seq<nat>): (State, Run)
    requires id in s.inflight
  {
    RunAll(s.(inflight := s.inflight - {id}), StartRun(s.docs, s.inflight[id].version, remote, rows))
  }

  lemma SyncRunKeepsLinks(s: State, id: nat, remote: seq<RemoteDoc>, rows: seq<nat>)
    requires id in s.inflight && LinksInv(s)
    ensures var done := SyncRun(s, id, remote, rows); LinksInv(done.0) && CountsKept(done.1) && Grown(s, done.0)
  {
    var start := StartRun(s.docs, s.inflight[id].version, remote, rows);
    StartRunSnapshotHolds(s, s.inflight[id].version, remote, rows);
    var idle := s.(inflight := s.inflight - {id});
    assert SnapshotHolds(idle, start);
    RunAllKeepsLinks(idle, start);
  }

  lemma FinishSyncKeepsLinks(s: State, id: nat, version: nat, name: string, total: nat, now: int, run: Run, rows: seq<nat>)
    requires id in s.jobs && LinksInv(s)
    ensures LinksInv(FinishSync(s, id, version, name, total, now, run, rows))
    ensures Grown(s, FinishSync(s, id, version, name, total, now, run, rows))
  {
    hide BackfillRows, OriginsOk, OneRowPerRef;
    forall t: State | t.docs == s.docs && t.nextDoc == s.nextDoc && t.config.None? == s.config.None?
      ensures LinksInv(BackfillRows(t, rows, version)) && Grown(s, BackfillRows(t, rows, version)) && LinksInv(t)
    {
      BackfillRowsKeepsLinks(t, rows, version);
    }
  }

  lemma EndSyncKeepsLinks(s: State, id: nat, answer: SyncAnswer, now: int, rows: seq<nat>)
    requires LinksInv(s)
    ensures LinksInv(EndSync(s, id, answer, now, rows))
  {
    hide FinishSync, OriginsOk, OneRowPerRef;
    if id in s.inflight && id in s.jobs && answer.Listed? {
      SyncRunKeepsLinks(s, id, answer.remote, rows);
      var done := SyncRun(s, id, answer.remote, rows);
      FinishSyncKeepsLinks(done.0, id, s.inflight[id].version, answer.name, |answer.remote|, now, done.1, rows);
    }
  }

  lemma EndTagKeepsLinks(s: State, id: nat, result: TagResult)
    requires LinksInv(s)
    ensures LinksInv(EndTag(s, id, result))
  {
    hide OneRowPerRef;
    RowsKeptKeepsLinks(s, EndTag(s, id, result));
  }

  /** Every operation, in any state and any order, keeps the link invariant. */
  lemma StepKeepsLinks(s: State, e: Event)
    requires LinksInv(s)
    ensures LinksInv(Step(s, e))
  {
    hide SetTag, RemoveTag, RetryRows, LinkDocument, RemoveDocument, EndSync, EndTag, OriginsOk, OneRowPerRef;
    match e
    case EvSetTag(tagId, name, clientName, connection) => SetTagKeepsLinks(s, tagId, name, clientName, connection);
    case EvRemoveTag => RemoveTagKeepsLinks(s);
    case EvRequestSync =>
    case EvRetryTagging(only, rows) => if s.config.Some? { RetryRowsKeepsLinks(s, rows, only, s.config.value.version); }
    case EvLink(meta, found) => LinkDocumentKeepsLinks(s, meta, found);
    case EvRemoveDocument(doc) => RemoveDocumentKeepsLinks(s, doc);
    case EvTick(due) =>
    case EvBeginSync(job, baseUrl) =>
    case EvEndSync(job, answer, now, rows) => EndSyncKeepsLinks(s, job, answer, now, rows);
    case EvBeginTag(job, baseUrl) =>
    case EvEndTag(job, result) => EndTagKeepsLinks(s, job, result);
    case EvArchivePolicy =>
  }
}
