// The values of the user's links over whole runs.
module TagValues {
  import opened Wrappers
  import opened Text
  import opened TagModel
  import opened TagInvariants
  import opened TagReconcile
  import opened TagRuns
  import opened TagInterleaving
  import opened TagConcurrentLinks
  import opened TagRaces
  import opened TagSnapshotRaces

  // --- One operation ------------------------------------------------------------------

  /** Only origins, archiving and tagging columns differ. */
  ghost predicate SameValues(before: map<nat, Doc>, after: map<nat, Doc>) {
    forall id :: id in before ==> id in after && SaysTheSame(before[id], after[id])
  }

  predicate SaysTheSame(a: Doc, b: Doc) { b.fileName == a.fileName && b.documentDate == a.documentDate && b.mimeType == a.mimeType }

  lemma {:induction false} RetryRowsSameValues(s: State, ids: seq<nat>, only: Option<nat>, version: nat)
    ensures SameValues(s.docs, RetryRows(s, ids, only, version).docs)
    decreases |ids|
  {
    hide QueueTagging;
    if ids != [] { RetryRowsSameValues(s, ids[..|ids| - 1], only, version); }
  }

  lemma {:induction false} BackfillRowsSameValues(s: State, ids: seq<nat>, version: nat)
    ensures SameValues(s.docs, BackfillRows(s, ids, version).docs)
    decreases |ids|
  {
    hide QueueTagging;
    if ids != [] { BackfillRowsSameValues(s, ids[..|ids| - 1], version); }
  }

  lemma FinishSyncSameValues(s: State, id: nat, version: nat, name: string, total: nat, now: int, run: Run, rows: seq<nat>)
    requires id in s.jobs
    ensures SameValues(s.docs, FinishSync(s, id, version, name, total, now, run, rows).docs)
  {
    hide BackfillRows;
    forall t: State ensures SameValues(t.docs, BackfillRows(t, rows, version).docs) { BackfillRowsSameValues(t, rows, version); }
  }

  lemma SameKeepsValues(s: State, t: State, u: State)
    requires KeepsValues(s, t) && SameValues(t.docs, u.docs)
    ensures KeepsValues(s, u)
  {
    forall id | id in s.docs && s.docs[id].linkOriginManual ensures id in u.docs && ValuesKept(s.docs[id], u.docs[id]) {
      assert id in t.docs;
    }
  }

  lemma ReconciledKeepsValues(doc: Doc, remote: map<int, RemoteDoc>)
    requires doc.linkOriginManual
    ensures ValuesKept(doc, Reconciled(doc, remote))
  {
    hide Trim;
  }

  lemma RunKeepsAllValues(s: State, version: nat, remote: seq<RemoteDoc>, rows: seq<nat>)
    requires LinksInv(s) && Enumerates(rows, s.docs.Keys)
    ensures KeepsValues(s, Reconcile(s, version, remote, rows).0)
  {
    hide Reconcile, Unlinked, LinksInv, NewRows, Tagless, Reconciled, ValuesKept;
    if s.ConfigIs(version) {
      ReconcileExact(s, version, remote, rows);
      forall id | id in s.docs && s.docs[id].linkOriginManual
        ensures id in Reconcile(s, version, remote, rows).0.docs && ValuesKept(s.docs[id], Reconcile(s, version, remote, rows).0.docs[id])
      {
        ReconciledKeepsValues(s.docs[id], RemoteById(remote));
      }
    } else {
      SupersededReconcile(s, version, remote, rows);
      NothingChangedKeeps(s);
    }
  }

  lemma SupersededReconcile(s: State, version: nat, remote: seq<RemoteDoc>, rows: seq<nat>)
    requires !s.ConfigIs(version)
    ensures Reconcile(s, version, remote, rows).0 == s
  {
    hide StartRun, RunAll;
    RunVersion(s.docs, version, remote, rows);
    SupersededRunAll(s, StartRun(s.docs, version, remote, rows));
  }

  lemma NothingChangedKeeps(s: State)
    ensures KeepsValues(s, s)
  {
  }

  lemma EndSyncKeepsValues(s: State, id: nat, answer: SyncAnswer, now: int, rows: seq<nat>)
    requires LinksInv(s) && Enabled(s, EvEndSync(id, answer, now, rows))
    ensures KeepsValues(s, EndSync(s, id, answer, now, rows))
  {
    hide RunAll, StartRun, FinishSync, ValuesKept, OriginsOk, OneRowPerRef;
    if answer.Listed? {
      var version := s.inflight[id].version;
      var idle := s.(inflight := s.inflight - {id});
      RunKeepsAllValues(idle, version, answer.remote, rows);
      var done := Reconcile(idle, version, answer.remote, rows);
      FinishSyncSameValues(done.0, id, version, answer.name, |answer.remote|, now, done.1, rows);
      SameKeepsValues(s, done.0, EndSync(s, id, answer, now, rows));
    } else {
      NothingChangedKeeps(s);
    }
  }

  lemma ManualOriginKeepsValues(s: State, id: nat, meta: RemoteDoc)
    requires id in s.docs
    ensures KeepsValues(s, ApplyManualLinkOrigin(s, id, meta))
  {
    hide QueueTagging, NameMissing;
  }

  lemma LinkKeepsValues(s: State, meta: RemoteDoc, found: Option<nat>)
    requires LinksInv(s)
    ensures KeepsValues(s, LinkDocument(s, meta, found))
  {
    hide ApplyManualLinkOrigin, ValuesKept, OriginsOk, OneRowPerRef;
    NothingChangedKeeps(s);
    if found.Some? {
      if found.value in s.docs { ManualOriginKeepsValues(s, found.value, meta); }
    } else {
      assert s.nextDoc !in s.docs;
      ManualOriginKeepsValues(s.PutDoc(s.nextDoc, NewManualDoc(meta)).(nextDoc := s.nextDoc + 1), s.nextDoc, meta);
    }
  }

  lemma OthersSameValues(s: State, e: Event)
    requires !e.EvLink? && !e.EvEndSync? && !e.EvRetryTagging?
    ensures SameValues(s.docs, Step(s, e).docs)
  {
    hide SetTag, RemoveTag, EndTag;
    match e
    case EvSetTag(tagId, name, clientName, connection) => SetTagSameValues(s, tagId, name, clientName, connection);
    case EvRemoveTag => RemoveTagSameValues(s);
    case EvEndTag(job, result) => EndTagSameValues(s, job, result);
    case _ =>
  }

  lemma SetTagSameValues(s: State, tagId: int, name: string, clientName: Option<string>, connection: string)
    ensures SameValues(s.docs, SetTag(s, tagId, name, clientName, connection).docs)
  {
    hide SupersedeJobs;
  }

  lemma RemoveTagSameValues(s: State)
    ensures SameValues(s.docs, RemoveTag(s).docs)
  {
    hide SupersedeJobs;
  }

  lemma EndTagSameValues(s: State, id: nat, result: TagResult)
    ensures SameValues(s.docs, EndTag(s, id, result).docs)
  {
    hide RetryOrFail;
  }

  lemma StepKeepsValues(s: State, e: Event)
    requires LinksInv(s) && Enabled(s, e)
    ensures KeepsValues(s, Step(s, e))
  {
    hide LinksInv, Step, ValuesKept;
    NothingChangedKeeps(s);
    match e
    case EvLink(meta, found) => StepIsLink(s, meta, found); LinkKeepsValues(s, meta, found);
    case EvEndSync(job, answer, now, rows) => StepIsEnd(s, job, answer, now, rows); EndSyncKeepsValues(s, job, answer, now, rows);
    case EvRetryTagging(only, rows) => RetrySameValues(s, only, rows); SameKeepsValues(s, s, Step(s, e));
    case _ => OthersSameValues(s, e); SameKeepsValues(s, s, Step(s, e));
  }

  lemma StepIsLink(s: State, meta: RemoteDoc, found: Option<nat>)
    ensures Step(s, EvLink(meta, found)) == LinkDocument(s, meta, found)
  {
  }

  lemma StepIsEnd(s: State, id: nat, answer: SyncAnswer, now: int, rows: seq<nat>)
    ensures Step(s, EvEndSync(id, answer, now, rows)) == EndSync(s, id, answer, now, rows)
  {
  }

  lemma RetrySameValues(s: State, only: Option<nat>, rows: seq<nat>)
    ensures SameValues(s.docs, Step(s, EvRetryTagging(only, rows)).docs)
  {
    hide RetryRows;
    if s.config.Some? { RetryRowsSameValues(s, rows, only, s.config.value.version); }
  }

  // --- Any run ----------------------------------------------------------------------------

  /** What a manual link says survives any run of all operations, as long as it stays
      manual: syncs taken in one piece fill gaps and overwrite nothing. */
  lemma {:induction false} ValuesSurviveAnyRun(s: State, es: seq<Event>, id: nat, k: nat)
    requires LinksInv(s) && Feasible(s, es) && id in s.docs && k <= |es|
    requires forall j :: 0 <= j < k ==> id in After(s, es[..j]).docs && After(s, es[..j]).docs[id].linkOriginManual
    ensures LinksInv(After(s, es[..k])) && id in After(s, es[..k]).docs && ValuesKept(s.docs[id], After(s, es[..k]).docs[id])
  {
    hide Step, Enabled, LinksInv, ValuesKept;
    if k == 0 {
      KeptItself(s.docs[id]);
    } else {
      ValuesSurviveAnyRun(s, es, id, k - 1);
      PrefixAfter(s, es, k - 1);
      var before := After(s, es[..k - 1]);
      StepKeepsLinks(before, es[k - 1]);
      StepKeepsValues(before, es[k - 1]);
      KeptTwice(s.docs[id], before.docs[id], After(s, es[..k]).docs[id]);
    }
  }

  lemma KeptItself(doc: Doc)
    ensures ValuesKept(doc, doc)
  {
  }

  lemma KeptTwice(a: Doc, b: Doc, c: Doc)
    requires ValuesKept(a, b) && ValuesKept(b, c)
    ensures ValuesKept(a, c)
  {
  }

  // --- Linked between snapshot and write ---------------------------------------------------

  const THEIRS := RemoteDoc(5, Some("theirs"), None, None)

  lemma FallbackIsAName(ref: int)
    ensures Trim(FallbackName(ref)) == FallbackName(ref) && FallbackName(ref) != "" && FallbackName(ref) != "theirs"
  {
    assert FallbackName(ref)[0] == 'P';
    assert IntToString(ref)[|IntToString(ref)| - 1] == FallbackName(ref)[|FallbackName(ref)| - 1];
  }

  lemma OneRenamed(s: State, seen: Doc)
    requires s.ConfigIs(1) && seen.ActiveLinkTo(5) && !seen.linkOriginManual && seen.linkOriginTag && 0 in s.docs
    requires Trim(seen.fileName) != "theirs"
    ensures var one := RunStep(s, StartRun(map[0 := seen], 1, [THEIRS], [0]));
      0 in one.0.docs && one.0.docs[0].fileName == "theirs" && one.0.docs[0].linkOriginManual == s.docs[0].linkOriginManual
  {
    hide DeriveTagLinkMetadata;
    OneListedSnapshot(seen);
    TheirsIsDerived(seen);
  }

  lemma TheirsIsDerived(seen: Doc)
    requires !seen.linkOriginManual && Trim(seen.fileName) != "theirs"
    ensures DeriveTagLinkMetadata(THEIRS, Some(seen)) == MetadataUpdate(Some("theirs"), None, None)
  {
    hide Trim;
    assert IsTrimmed("theirs");
  }

  lemma OneListedSnapshot(doc: Doc)
    requires doc.ActiveLinkTo(5)
    ensures StartRun(map[0 := doc], 1, [THEIRS], [0]) ==
      Run(1, map[0 := doc], [0], map[5 := 0], [5], map[5 := THEIRS], 0, 0, Tally(0, 0, 0, 0), Walking)
  {
    OneLinkSnapshot(doc);
    assert RemoteOrder([THEIRS][..0]) == [] && RemoteById([THEIRS][..0]) == map[];
  }

  /** The sync has taken its snapshot, the user links the listed document, and the
      run then replaces the name that the user's link has. */
  lemma LateLinkIsOverwritten() returns (linked: State, end: (State, Run))
    ensures Initial(EMPTY) && Feasible(EMPTY, SECOND_SYNC) && After(EMPTY, SECOND_SYNC) == RESYNCING
    ensures Enabled(RESYNCING, EvLink(CONTRACT, Some(0))) && linked == Step(RESYNCING, EvLink(CONTRACT, Some(0)))
    ensures end == Play(RESYNCING, StartRun(RESYNCING.docs, 1, [THEIRS], [0]), [Other(EvLink(CONTRACT, Some(0))), RunOn])
    ensures 0 in linked.docs && linked.docs[0].linkOriginManual && linked.docs[0].fileName == FallbackName(5)
    ensures 0 in end.0.docs && end.0.docs[0].linkOriginManual && end.0.docs[0].fileName == "theirs"
    ensures !ValuesKept(linked.docs[0], end.0.docs[0])
  {
    hide StartRun, Play, RunStep, Does;
    SecondSyncBegins();
    LinkedLate();
    FallbackIsAName(5);
    LinkedKeepsName();
    hide Step, Enabled, NewTagDoc;
    var e := EvLink(CONTRACT, Some(0));
    linked := Step(RESYNCING, e);
    var run := StartRun(RESYNCING.docs, 1, [THEIRS], [0]);
    var moves := [Other(e), RunOn];
    PlayOne(RESYNCING, run, moves, 0);
    PlayOne(RESYNCING, run, moves, 1);
    assert moves[..2] == moves;
    OneRenamed(linked, TAGGED);
    end := Play(RESYNCING, run, moves);
  }

  lemma LinkedKeepsName()
    ensures TAGGED.fileName == FallbackName(5)
    ensures var t := Step(RESYNCING, EvLink(CONTRACT, Some(0))); 0 in t.docs && t.docs[0].fileName == FallbackName(5)
  {
    hide QueueTagging;
  }
}
