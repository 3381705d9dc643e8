// What one reconciliation, interleaved with any other operations, does to the
// user's links and their values - and exactly when it does harm.
module TagConcurrentLinks {
  import opened Wrappers
  import opened Text
  import opened TagModel
  import opened TagInvariants
  import opened TagReconcile
  import opened TagInterleaving

  // --- Every event lets the rows stay ----------------------------------------------

  lemma EndSyncGrows(s: State, id: nat, answer: SyncAnswer, now: int, rows: seq<nat>)
    requires LinksInv(s)
    ensures Grown(s, EndSync(s, id, answer, now, rows))
  {
    hide FinishSync, OriginsOk, OneRowPerRef;
    if id in s.inflight && id in s.jobs && answer.Listed? {
      SyncRunKeepsLinks(s, id, answer.remote, rows);
      var done := SyncRun(s, id, answer.remote, rows);
      FinishSyncKeepsLinks(done.0, id, s.inflight[id].version, answer.name, |answer.remote|, now, done.1, rows);
    }
  }

  lemma LinkGrows(s: State, meta: RemoteDoc, found: Option<nat>)
    requires LinksInv(s)
    ensures Grown(s, LinkDocument(s, meta, found))
  {
    hide ApplyManualLinkOrigin, OriginsOk, OneRowPerRef;
    if found.Some? {
      if found.value in s.docs { ManualOriginGrows(s, found.value, meta); }
    } else {
      assert s.nextDoc !in s.docs;
      ManualOriginGrows(s.PutDoc(s.nextDoc, NewManualDoc(meta)).(nextDoc := s.nextDoc + 1), s.nextDoc, meta);
    }
  }

  lemma ManualOriginGrows(s: State, id: nat, meta: RemoteDoc)
    requires id in s.docs
    ensures Grown(s, ApplyManualLinkOrigin(s, id, meta))
  {
    hide QueueTagging;
  }

  lemma ConfigGrows(s: State, e: Event)
    requires e.EvSetTag? || e.EvRemoveTag? || e.EvRemoveDocument?
    ensures Grown(s, Step(s, e))
  {
    hide SupersedeJobs;
  }

  lemma StepGrows(s: State, e: Event)
    requires LinksInv(s)
    ensures Grown(s, Step(s, e))
  {
    hide RetryRows, LinkDocument, EndSync, SetTag, RemoveTag, RemoveDocument, OriginsOk, OneRowPerRef;
    match e
    case EvSetTag(_, _, _, _) => ConfigGrows(s, e);
    case EvRemoveTag => ConfigGrows(s, e);
    case EvRequestSync =>
    case EvRetryTagging(only, rows) => if s.config.Some? { RetryRowsKeepsLinks(s, rows, only, s.config.value.version); }
    case EvLink(meta, found) => LinkGrows(s, meta, found);
    case EvRemoveDocument(_) => ConfigGrows(s, e);
    case EvTick(_) =>
    case EvBeginSync(_, _) =>
    case EvEndSync(job, answer, now, rows) => EndSyncGrows(s, job, answer, now, rows);
    case EvBeginTag(_, _) =>
    case EvEndTag(_, _) =>
    case EvArchivePolicy =>
  }

  // --- Every active link has an origin -----------------------------------------------

  /** The rows of the snapshot are still there, and still Paperless links. */
  ghost predicate SnapRows(s: State, run: Run) {
    forall id :: id in run.snap ==> id in s.docs && s.docs[id].storageType.PaperlessLink?
  }

  /** The next write of the run drops the tag origin of a link that was manual in
      the snapshot and that the user has unlinked since. */
  predicate TakesLastOrigin(s: State, run: Run)
    requires run.Valid()
  {
    run.phase.Walking? && run.i == |run.order| && run.j < |run.locals| && s.ConfigIs(run.version) &&
    var id := run.locals[run.j];
    LostTag(run.snap[id], run.remote) && id in s.docs &&
    run.snap[id].linkOriginManual && !s.docs[id].linkOriginManual && !s.docs[id].archived
  }

  lemma RemoteWriteKeepsLinks(s: State, run: Run)
    requires run.Valid() && run.phase.Walking? && run.i < |run.order| && s.ConfigIs(run.version)
    requires LinksInv(s) && SnapRows(s, run)
    ensures LinksInv(RunStep(s, run).0) && SnapRows(RunStep(s, run).0, RunStep(s, run).1)
  {
    hide DeriveTagLinkMetadata, ApplyMetadata, FallbackName, OneRowPerRef;
    var ref := run.order[run.i];
    var t := WriteRemote(s, run, ref).0;
    if ref in run.byRef || s.Linked(ref) {
      WriteRemoteRewrites(s, run, ref);
      RowsKeptKeepsLinks(s, t);
      assert forall id :: id in s.docs ==> RowKept(s.docs[id], t.docs[id]);
    } else {
      NewRowKeepsLinks(s, NewTagDoc(ref, run.remote[ref]), t);
    }
  }

  lemma RunStepKeepsLinksIff(s: State, run: Run)
    requires run.Valid() && LinksInv(s) && SnapRows(s, run)
    ensures LinksInv(RunStep(s, run).0) <==> !TakesLastOrigin(s, run)
    ensures SnapRows(RunStep(s, run).0, RunStep(s, run).1)
  {
    hide WriteRemote, LinksInv, LostTag;
    if run.phase.Walking? && s.ConfigIs(run.version) {
      if run.i < |run.order| {
        RemoteWriteKeepsLinks(s, run);
      } else if run.j < |run.locals| && LostTag(run.snap[run.locals[run.j]], run.remote) {
        DropKeepsLinksIff(s, run);
      }
    }
  }

  ghost predicate AlwaysLinked(s: State, run: Run, moves: seq<Move>)
    requires run.Valid()
  {
    forall k :: 0 <= k <= |moves| ==> LinksInv(Play(s, run, moves[..k]).0)
  }

  ghost predicate NeverTakesLastOrigin(s: State, run: Run, moves: seq<Move>)
    requires run.Valid()
  {
    forall k :: 0 <= k < |moves| && moves[k].RunOn? ==> !TakesLastOrigin(Play(s, run, moves[..k]).0, Play(s, run, moves[..k]).1)
  }

  lemma PlayNothing(s: State, run: Run)
    requires run.Valid()
    ensures Play(s, run, []) == (s, run)
  {
  }

  lemma SnapRowsStay(s: State, run: Run, e: Event)
    requires LinksInv(s) && SnapRows(s, run)
    ensures SnapRows(Step(s, e), run)
  {
    hide LinksInv, Step;
    StepGrows(s, e);
  }

  lemma {:induction false} LinkedAlong(s: State, run: Run, moves: seq<Move>, k: nat)
    requires run.Valid() && LinksInv(s) && SnapRows(s, run) && k <= |moves|
    requires NeverTakesLastOrigin(s, run, moves) || AlwaysLinked(s, run, moves)
    ensures var now := Play(s, run, moves[..k]); LinksInv(now.0) && SnapRows(now.0, now.1)
  {
    hide LinksInv, SnapRows, RunStep, Step, TakesLastOrigin, Play;
    PlayNothing(s, run);
    if k > 0 {
      LinkedAlong(s, run, moves, k - 1);
      PlayOne(s, run, moves, k - 1);
      var before := Play(s, run, moves[..k - 1]);
      if moves[k - 1].RunOn? {
        RunStepKeepsLinksIff(before.0, before.1);
      } else {
        StepKeepsLinks(before.0, moves[k - 1].e);
        SnapRowsStay(before.0, before.1, moves[k - 1].e);
      }
    } else {
      assert moves[..0] == [];
    }
  }

  lemma AlwaysLinkedIff(s: State, run: Run, moves: seq<Move>)
    requires run.Valid() && LinksInv(s) && SnapRows(s, run)
    ensures AlwaysLinked(s, run, moves) <==> NeverTakesLastOrigin(s, run, moves)
  {
    hide LinksInv, SnapRows, RunStep, Step, TakesLastOrigin, Play;
    if NeverTakesLastOrigin(s, run, moves) {
      forall k: nat | k <= |moves| ensures LinksInv(Play(s, run, moves[..k]).0) { LinkedAlong(s, run, moves, k); }
    }
    if AlwaysLinked(s, run, moves) {
      forall k: nat | k < |moves| && moves[k].RunOn? ensures !TakesLastOrigin(Play(s, run, moves[..k]).0, Play(s, run, moves[..k]).1) {
        LinkedAlong(s, run, moves, k);
        PlayOne(s, run, moves, k);
        RunStepKeepsLinksIff(Play(s, run, moves[..k]).0, Play(s, run, moves[..k]).1);
      }
    }
  }

  /** Whatever interleaves with a run: every active link keeps an origin, and no
      document two active rows, at all times exactly when the run never takes the
      last origin of a link that the user unlinked after the snapshot. */
  lemma InterleavedRunKeepsLinksIff(s: State, version: nat, remote: seq<RemoteDoc>, rows: seq<nat>, moves: seq<Move>)
    requires LinksInv(s)
    ensures var run := StartRun(s.docs, version, remote, rows);
      AlwaysLinked(s, run, moves) <==> NeverTakesLastOrigin(s, run, moves)
  {
    hide LinksInv, AlwaysLinked, NeverTakesLastOrigin, StartRun;
    StartRunSnapshotHolds(s, version, remote, rows);
    AlwaysLinkedIff(s, StartRun(s.docs, version, remote, rows), moves);
  }

  // --- Single writes over any run ------------------------------------------------------

  lemma {:induction false} FreshAlong(s: State, run: Run, moves: seq<Move>, k: nat)
    requires run.Valid() && FreshDocs(s) && k <= |moves|
    ensures FreshDocs(Play(s, run, moves[..k]).0)
  {
    hide FreshDocs, RunStep, Step, Play;
    PlayNothing(s, run);
    if k > 0 {
      FreshAlong(s, run, moves, k - 1);
      PlayOne(s, run, moves, k - 1);
      var before := Play(s, run, moves[..k - 1]);
      if moves[k - 1].RunOn? { RunStepKeepsFresh(before.0, before.1); } else { StepKeepsFresh(before.0, moves[k - 1].e); }
    } else {
      assert moves[..0] == [];
    }
  }

  // --- Manual links stay ----------------------------------------------------------------

  ghost predicate KeepsManual(s: State, t: State) {
    forall id :: id in s.docs && s.docs[id].ActiveLink() && s.docs[id].linkOriginManual ==>
      id in t.docs && t.docs[id].ActiveLink() && t.docs[id].linkOriginManual
  }

  /** The next write of the run archives a link that became manual after the snapshot. */
  predicate ArchivesManual(s: State, run: Run)
    requires run.Valid()
  {
    run.phase.Walking? && run.i == |run.order| && run.j < |run.locals| && s.ConfigIs(run.version) &&
    var id := run.locals[run.j];
    LostTag(run.snap[id], run.remote) && id in s.docs &&
    s.docs[id].ActiveLink() && s.docs[id].linkOriginManual && !run.snap[id].linkOriginManual
  }

  lemma RemoteWriteKeepsManual(s: State, run: Run)
    requires run.Valid() && run.phase.Walking? && run.i < |run.order| && FreshDocs(s)
    ensures KeepsManual(s, RunStep(s, run).0)
  {
    hide DeriveTagLinkMetadata, FallbackName;
    assert s.nextDoc !in s.docs;
  }

  lemma RunStepKeepsManualIff(s: State, run: Run)
    requires run.Valid() && FreshDocs(s)
    ensures KeepsManual(s, RunStep(s, run).0) <==> !ArchivesManual(s, run)
  {
    hide WriteRemote;
    if run.phase.Walking? && run.i < |run.order| {
      RemoteWriteKeepsManual(s, run);
    } else if ArchivesManual(s, run) {
      var id := run.locals[run.j];
      assert RunStep(s, run).0.docs[id].archived;
    }
  }

  ghost predicate RunKeepsManual(s: State, run: Run, moves: seq<Move>)
    requires run.Valid()
  {
    forall k :: 0 <= k < |moves| && moves[k].RunOn? ==> KeepsManual(Play(s, run, moves[..k]).0, Play(s, run, moves[..k + 1]).0)
  }

  ghost predicate NeverArchivesManual(s: State, run: Run, moves: seq<Move>)
    requires run.Valid()
  {
    forall k :: 0 <= k < |moves| && moves[k].RunOn? ==> !ArchivesManual(Play(s, run, moves[..k]).0, Play(s, run, moves[..k]).1)
  }

  lemma RunKeepsManualAt(s: State, run: Run, moves: seq<Move>, k: nat)
    requires run.Valid() && FreshDocs(s) && k < |moves| && moves[k].RunOn?
    ensures KeepsManual(Play(s, run, moves[..k]).0, Play(s, run, moves[..k + 1]).0) <==>
            !ArchivesManual(Play(s, run, moves[..k]).0, Play(s, run, moves[..k]).1)
  {
    hide FreshDocs, RunStep, Step, Play, KeepsManual, ArchivesManual;
    FreshAlong(s, run, moves, k);
    PlayOne(s, run, moves, k);
    RunStepKeepsManualIff(Play(s, run, moves[..k]).0, Play(s, run, moves[..k]).1);
  }

  /** Whatever interleaves: no write of the run takes a manual link from the user
      exactly when it archives none that became manual after the snapshot. */
  lemma RunKeepsManualIff(s: State, run: Run, moves: seq<Move>)
    requires run.Valid() && FreshDocs(s)
    ensures RunKeepsManual(s, run, moves) <==> NeverArchivesManual(s, run, moves)
  {
    hide FreshDocs, Play, KeepsManual, ArchivesManual;
    if RunKeepsManual(s, run, moves) {
      forall k | 0 <= k < |moves| && moves[k].RunOn? ensures !ArchivesManual(Play(s, run, moves[..k]).0, Play(s, run, moves[..k]).1) {
        RunKeepsManualAt(s, run, moves, k);
      }
    }
    if NeverArchivesManual(s, run, moves) {
      forall k | 0 <= k < |moves| && moves[k].RunOn? ensures KeepsManual(Play(s, run, moves[..k]).0, Play(s, run, moves[..k + 1]).0) {
        RunKeepsManualAt(s, run, moves, k);
      }
    }
  }

  // --- Values of manual links stay ---------------------------------------------------------

  /** What a row says is not changed; gaps may be filled. */
  predicate ValuesKept(before: Doc, after: Doc) {
    && (!NameMissing(before) ==> after.fileName == before.fileName)
    && (before.documentDate.Some? ==> after.documentDate == before.documentDate)
    && (before.mimeType != None && before.mimeType != Some("") ==> after.mimeType == before.mimeType)
  }

  ghost predicate KeepsValues(s: State, t: State) {
    forall id :: id in s.docs && s.docs[id].linkOriginManual ==> id in t.docs && ValuesKept(s.docs[id], t.docs[id])
  }

  /** The remote title, date or type replaces a different one that the row has,
      because the snapshot had none or was not manual. */
  predicate Overwrites(doc: Doc, seen: Doc, remote: RemoteDoc) {
    var title, mime := TrimOption(remote.title), TrimOption(remote.mimeType);
    || (title != "" && !NameMissing(doc) && doc.fileName != title && (if seen.linkOriginManual then NameMissing(seen) else Trim(seen.fileName) != title))
    || (remote.created.Some? && doc.documentDate.Some? && doc.documentDate != remote.created
        && (if seen.linkOriginManual then seen.documentDate.None? else seen.documentDate != remote.created))
    || (mime != "" && !Blank(doc.mimeType) && doc.mimeType != Some(mime)
        && (if seen.linkOriginManual then seen.mimeType.None? else seen.mimeType != Some(mime)))
  }

  predicate OverwritesManual(s: State, run: Run)
    requires run.Valid()
  {
    run.phase.Walking? && run.i < |run.order| && s.ConfigIs(run.version) &&
    var ref := run.order[run.i];
    ref in run.byRef && run.byRef[ref] in s.docs && s.docs[run.byRef[ref]].linkOriginManual &&
    Overwrites(s.docs[run.byRef[ref]], run.snap[run.byRef[ref]], run.remote[ref])
  }

  lemma WrittenValuesIff(doc: Doc, seen: Doc, remote: RemoteDoc)
    ensures ValuesKept(doc, ApplyMetadata(doc, DeriveTagLinkMetadata(remote, Some(seen)))) <==> !Overwrites(doc, seen, remote)
  {
    hide Trim;
  }

  lemma ExistingWriteKeepsValuesIff(s: State, run: Run, ref: int)
    requires run.Valid() && ref in run.remote && ref in run.byRef && run.byRef[ref] in s.docs && s.docs[run.byRef[ref]].linkOriginManual
    ensures KeepsValues(s, WriteRemote(s, run, ref).0) <==> !Overwrites(s.docs[run.byRef[ref]], run.snap[run.byRef[ref]], run.remote[ref])
  {
    hide Overwrites, DeriveTagLinkMetadata;
    var id := run.byRef[ref];
    var doc, seen := s.docs[id], run.snap[id];
    WrittenValuesIff(doc, seen, run.remote[ref]);
    var t := WriteRemote(s, run, ref).0;
    assert t == s || t.docs == s.docs[id := t.docs[id]];
    assert ValuesKept(doc, t.docs[id]) <==> ValuesKept(doc, ApplyMetadata(doc, DeriveTagLinkMetadata(run.remote[ref], Some(seen))));
  }

  lemma OtherWriteKeepsValues(s: State, run: Run, ref: int)
    requires run.Valid() && ref in run.remote && FreshDocs(s)
    requires ref in run.byRef && run.byRef[ref] in s.docs ==> !s.docs[run.byRef[ref]].linkOriginManual
    ensures KeepsValues(s, WriteRemote(s, run, ref).0)
  {
    hide DeriveTagLinkMetadata, ApplyMetadata, FallbackName, NameMissing;
    assert s.nextDoc !in s.docs;
  }

  lemma RunStepKeepsValuesIff(s: State, run: Run)
    requires run.Valid() && FreshDocs(s)
    ensures KeepsValues(s, RunStep(s, run).0) <==> !OverwritesManual(s, run)
  {
    hide WriteRemote, Overwrites;
    if run.phase.Walking? && run.i < |run.order| && s.ConfigIs(run.version) {
      hide KeepsValues;
      var ref := run.order[run.i];
      if ref in run.byRef && run.byRef[ref] in s.docs && s.docs[run.byRef[ref]].linkOriginManual {
        ExistingWriteKeepsValuesIff(s, run, ref);
      } else {
        OtherWriteKeepsValues(s, run, ref);
      }
    }
  }

  ghost predicate RunKeepsValues(s: State, run: Run, moves: seq<Move>)
    requires run.Valid()
  {
    forall k :: 0 <= k < |moves| && moves[k].RunOn? ==> KeepsValues(Play(s, run, moves[..k]).0, Play(s, run, moves[..k + 1]).0)
  }

  ghost predicate NeverOverwritesManual(s: State, run: Run, moves: seq<Move>)
    requires run.Valid()
  {
    forall k :: 0 <= k < |moves| && moves[k].RunOn? ==> !OverwritesManual(Play(s, run, moves[..k]).0, Play(s, run, moves[..k]).1)
  }

  lemma RunKeepsValuesAt(s: State, run: Run, moves: seq<Move>, k: nat)
    requires run.Valid() && FreshDocs(s) && k < |moves| && moves[k].RunOn?
    ensures KeepsValues(Play(s, run, moves[..k]).0, Play(s, run, moves[..k + 1]).0) <==>
            !OverwritesManual(Play(s, run, moves[..k]).0, Play(s, run, moves[..k]).1)
  {
    hide FreshDocs, RunStep, Step, Play, KeepsValues, OverwritesManual;
    FreshAlong(s, run, moves, k);
    PlayOne(s, run, moves, k);
    RunStepKeepsValuesIff(Play(s, run, moves[..k]).0, Play(s, run, moves[..k]).1);
  }

  /** Whatever interleaves: no write of the run changes what a manual link says
      exactly when it never overwrites, as judged by its snapshot. */
  lemma RunKeepsValuesIff(s: State, run: Run, moves: seq<Move>)
    requires run.Valid() && FreshDocs(s)
    ensures RunKeepsValues(s, run, moves) <==> NeverOverwritesManual(s, run, moves)
  {
    hide FreshDocs, Play, KeepsValues, OverwritesManual;
    if RunKeepsValues(s, run, moves) {
      forall k | 0 <= k < |moves| && moves[k].RunOn? ensures !OverwritesManual(Play(s, run, moves[..k]).0, Play(s, run, moves[..k]).1) {
        RunKeepsValuesAt(s, run, moves, k);
      }
    }
    if NeverOverwritesManual(s, run, moves) {
      forall k | 0 <= k < |moves| && moves[k].RunOn? ensures KeepsValues(Play(s, run, moves[..k]).0, Play(s, run, moves[..k + 1]).0) {
        RunKeepsValuesAt(s, run, moves, k);
      }
    }
  }
}
