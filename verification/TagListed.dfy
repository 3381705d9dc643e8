// The tag flag of the links while other operations interleave with a run.
module TagListed {
  import opened Wrappers
  import opened TagModel
  import opened TagInvariants
  import opened TagReconcile
  import opened TagInterleaving
  import opened TagConcurrentLinks

  // --- One write for a document that the snapshot did not link ----------------------------

  /** Every active link to the document carries the tag flag, and there is one. */
  ghost predicate ListedNow(t: State, ref: int) {
    t.Linked(ref) && forall id :: id in t.docs && t.docs[id].ActiveLinkTo(ref) ==> t.docs[id].linkOriginTag
  }

  /** The write for a listed document without a link in the snapshot: it adds a row
      exactly when no active link exists now; a link somebody else made meanwhile
      gets the flag and counts as untouched. Nothing else changes. */
  lemma UnlinkedIsListed(s: State, run: Run)
    requires run.Valid() && run.phase.Walking? && run.i < |run.order| && run.order[run.i] !in run.byRef
    requires FreshDocs(s) && s.ConfigIs(run.version)
    ensures var ref := run.order[run.i]; var next := RunStep(s, run); var t := next.0;
      && ListedNow(t, ref) && next.1.i == run.i + 1
      && (if s.Linked(ref)
          then next.1.tally == run.tally.(untouched := run.tally.untouched + 1) && t.docs.Keys == s.docs.Keys && t.nextDoc == s.nextDoc
          else next.1.tally == run.tally.(added := run.tally.added + 1) && t.docs.Keys == s.docs.Keys + {s.nextDoc} && t.nextDoc == s.nextDoc + 1)
      && (forall id :: id in s.docs && !s.docs[id].ActiveLinkTo(ref) ==> t.docs[id] == s.docs[id])
      && (forall id :: id in s.docs && s.docs[id].ActiveLinkTo(ref) ==> t.docs[id] == s.docs[id].(linkOriginTag := true))
      && (!s.Linked(ref) ==> t.docs[s.nextDoc].ActiveLinkTo(ref) && !t.docs[s.nextDoc].linkOriginManual)
  {
    hide DeriveTagLinkMetadata, FallbackName;
    var ref := run.order[run.i];
    assert s.nextDoc !in s.docs;
    var t := RunStep(s, run).0;
    if s.Linked(ref) {
      var id :| id in s.docs && s.docs[id].ActiveLinkTo(ref);
      assert t.docs[id].ActiveLinkTo(ref);
    } else {
      assert t.docs[s.nextDoc].ActiveLinkTo(ref);
    }
  }

  /** Whatever interleaves: each write for a document without a link in the snapshot
      leaves the document linked, all its links flagged, and counts as added exactly
      when there was no link. */
  lemma UnlinkedIsListedAlong(s: State, run: Run, moves: seq<Move>, k: nat)
    requires run.Valid() && FreshDocs(s) && k < |moves| && moves[k].RunOn?
    requires var now := Play(s, run, moves[..k]);
      now.1.phase.Walking? && now.1.i < |now.1.order| && now.1.order[now.1.i] !in now.1.byRef && now.0.ConfigIs(now.1.version)
    ensures var now := Play(s, run, moves[..k]); var next := Play(s, run, moves[..k + 1]); var ref := now.1.order[now.1.i];
      && ListedNow(next.0, ref)
      && (next.1.tally.added == now.1.tally.added + 1 <==> !now.0.Linked(ref))
      && (next.1.tally.untouched == now.1.tally.untouched + 1 <==> now.0.Linked(ref))
  {
    hide FreshDocs, RunStep, Step, Play, ListedNow;
    FreshAlong(s, run, moves, k);
    PlayOne(s, run, moves, k);
    UnlinkedIsListed(Play(s, run, moves[..k]).0, Play(s, run, moves[..k]).1);
  }

  // --- What other operations do to the flags ------------------------------------------------

  /** No other operation that lowers tag flags: no removal of the tag and no other
      sync. */
  predicate LeavesFlags(e: Event) { !e.EvRemoveTag? && !e.EvEndSync? }

  predicate FlagKept(before: Doc, after: Doc) {
    after.storageRef == before.storageRef && after.linkOriginTag == before.linkOriginTag && (after.ActiveLink() ==> before.ActiveLink())
  }

  /** Old rows keep their flag, none is revived, and new rows have none. */
  ghost predicate FlagsKept(s: State, t: State) {
    && s.nextDoc <= t.nextDoc
    && (forall id :: id in s.docs ==> id in t.docs && FlagKept(s.docs[id], t.docs[id]))
    && (forall id :: id in t.docs && id !in s.docs ==> s.nextDoc <= id < t.nextDoc && !t.docs[id].linkOriginTag)
  }

  lemma FlagsKeptTwice(s: State, t: State, u: State)
    requires FlagsKept(s, t) && FlagsKept(t, u)
    ensures FlagsKept(s, u)
  {
  }

  lemma QueueKeepsFlags(s: State, id: nat, version: nat)
    requires id in s.docs
    ensures FlagsKept(s, QueueTagging(s, id, version))
  {
    hide QueueTagging;
  }

  lemma {:induction false} RetryRowsKeepsFlags(s: State, ids: seq<nat>, only: Option<nat>, version: nat)
    ensures FlagsKept(s, RetryRows(s, ids, only, version))
    decreases |ids|
  {
    if ids != [] {
      hide FlagsKept, QueueTagging;
      var n := |ids| - 1;
      RetryRowsKeepsFlags(s, ids[..n], only, version);
      var before := RetryRows(s, ids[..n], only, version);
      if ids[n] in before.docs {
        QueueKeepsFlags(before, ids[n], version);
        FlagsKeptTwice(s, before, QueueTagging(before, ids[n], version));
      }
    }
  }

  lemma ManualOriginKeepsFlags(s: State, id: nat, meta: RemoteDoc)
    requires id in s.docs
    ensures FlagsKept(s, ApplyManualLinkOrigin(s, id, meta))
  {
    hide QueueTagging;
  }

  lemma LinkKeepsFlags(s: State, meta: RemoteDoc, found: Option<nat>)
    requires FreshDocs(s)
    ensures FlagsKept(s, LinkDocument(s, meta, found))
  {
    hide ApplyManualLinkOrigin;
    if found.Some? {
      if found.value in s.docs { ManualOriginKeepsFlags(s, found.value, meta); }
    } else {
      assert s.nextDoc !in s.docs;
      var u := s.PutDoc(s.nextDoc, NewManualDoc(meta)).(nextDoc := s.nextDoc + 1);
      ManualOriginKeepsFlags(u, s.nextDoc, meta);
      assert FlagsKept(s, u);
    }
  }

  lemma SetTagKeepsFlags(s: State, tagId: int, name: string, clientName: Option<string>, connection: string)
    ensures FlagsKept(s, SetTag(s, tagId, name, clientName, connection))
  {
    hide SupersedeJobs;
  }

  lemma EndTagKeepsFlags(s: State, id: nat, result: TagResult)
    ensures FlagsKept(s, EndTag(s, id, result))
  {
    hide RetryOrFail;
  }

  lemma StepKeepsFlags(s: State, e: Event)
    requires FreshDocs(s) && LeavesFlags(e)
    ensures FlagsKept(s, Step(s, e))
  {
    hide SetTag, RetryRows, LinkDocument, EndTag, FreshDocs;
    match e
    case EvSetTag(tagId, name, clientName, connection) => SetTagKeepsFlags(s, tagId, name, clientName, connection);
    case EvRequestSync =>
    case EvRetryTagging(only, rows) => if s.config.Some? { RetryRowsKeepsFlags(s, rows, only, s.config.value.version); }
    case EvLink(meta, found) => LinkKeepsFlags(s, meta, found);
    case EvRemoveDocument(_) =>
    case EvTick(_) =>
    case EvBeginSync(_, _) =>
    case EvBeginTag(_, _) =>
    case EvEndTag(job, result) => EndTagKeepsFlags(s, job, result);
    case EvArchivePolicy =>
  }

  // --- The flags over a whole run ---------------------------------------------------------------

  /** The row counter right after the walk over each document so far. */
  function Marks(s: State, run: Run, moves: seq<Move>): seq<nat>
    requires run.Valid()
  {
    if moves == [] then []
    else
      var n := |moves| - 1;
      var before := Play(s, run, moves[..n]);
      var after := Play(s, run, moves);
      Marks(s, run, moves[..n]) + if after.1.i > before.1.i then [after.0.nextDoc] else []
  }

  predicate Pending(run: Run, id: nat) {
    run.j <= |run.locals| && id in run.locals[run.j..] && id in run.snap && run.snap[id].linkOriginTag
  }

  /** The snapshot's index finds each of its links, and its rows kept their document. */
  ghost predicate SnapshotIndexed(t: State, run: Run) {
    && (forall id :: id in run.snap ==> id in t.docs && t.docs[id].storageRef == run.snap[id].storageRef && run.snap[id].storageRef.Some?)
    && (forall id :: id in run.snap ==> run.snap[id].storageRef.value in run.byRef && run.byRef[run.snap[id].storageRef.value] == id)
    && (forall r :: r in run.byRef ==> run.byRef[r] in run.snap && run.snap[run.byRef[r]].storageRef == Some(r))
    && Distinct(run.locals) && Listing(run.order, run.remote) && (run.i < |run.order| ==> run.j == 0)
    && (run.phase.Finished? ==> run.i == |run.order| && run.j == |run.locals|)
  }

  /** A flagged link is listed, or its removal is still to come. */
  ghost predicate FlaggedIsListed(t: State, run: Run) {
    forall id :: id in t.docs && t.docs[id].ActiveLink() && t.docs[id].linkOriginTag ==>
      t.docs[id].storageRef.Some? && (t.docs[id].storageRef.value in run.remote || Pending(run, id))
  }

  /** A listed link of the snapshot is flagged once it was walked, and before if the
      snapshot had it flagged. */
  ghost predicate SnapshotFlagged(t: State, run: Run) {
    forall id :: id in run.snap && id in t.docs && ToBeFlagged(run, run.snap[id]) ==> t.docs[id].linkOriginTag
  }

  predicate ToBeFlagged(run: Run, seen: Doc) {
    seen.storageRef.Some? && seen.storageRef.value in run.remote &&
    (seen.linkOriginTag || seen.storageRef.value in run.order[..Min(run.i, |run.order|)])
  }

  function Min(a: nat, b: nat): nat { if a <= b then a else b }

  /** A link to a walked document that the snapshot did not link is flagged if it
      existed when the document was walked. */
  ghost predicate WalkedFlagged(t: State, run: Run, marks: seq<nat>) {
    && |marks| == run.i <= |run.order|
    && (forall k :: 0 <= k < |marks| ==> marks[k] <= t.nextDoc)
    && forall k, id :: 0 <= k < |marks| && run.order[k] !in run.byRef && id in t.docs && t.docs[id].ActiveLinkTo(run.order[k]) && id < marks[k] ==>
         t.docs[id].linkOriginTag
  }

  ghost predicate FlagsInv(t: State, run: Run, marks: seq<nat>) {
    FreshDocs(t) && SnapshotIndexed(t, run) && FlaggedIsListed(t, run) && SnapshotFlagged(t, run) && WalkedFlagged(t, run, marks)
  }

  lemma OtherKeepsFlagsInv(s: State, t: State, run: Run, marks: seq<nat>)
    requires FlagsInv(s, run, marks) && FlagsKept(s, t) && FreshDocs(t)
    ensures FlagsInv(t, run, marks)
  {
    forall id | id in t.docs && t.docs[id].ActiveLink() && t.docs[id].linkOriginTag
      ensures t.docs[id].storageRef.Some? && (t.docs[id].storageRef.value in run.remote || Pending(run, id))
    {
      assert id in s.docs && FlagKept(s.docs[id], t.docs[id]);
    }
    forall id | id in run.snap ensures id in t.docs && FlagKept(s.docs[id], t.docs[id]) {
      assert id in s.docs;
    }
    forall k, id | 0 <= k < |marks| && run.order[k] !in run.byRef && id in t.docs && t.docs[id].ActiveLinkTo(run.order[k]) && id < marks[k]
      ensures t.docs[id].linkOriginTag
    {
      assert id in s.docs && FlagKept(s.docs[id], t.docs[id]);
    }
  }

  // --- The steps of the run -----------------------------------------------------------------

  lemma FlaggedSoFar(t: State, run: Run, ref: int)
    requires run.i < |run.order| && run.order[run.i] == ref
    ensures run.order[..run.i + 1] == run.order[..run.i] + [ref]
  {
  }

  lemma LinkedWalk(s: State, run: Run, marks: seq<nat>)
    requires run.Valid() && run.phase.Walking? && run.i < |run.order| && run.order[run.i] in run.byRef && s.ConfigIs(run.version)
    requires FlagsInv(s, run, marks)
    ensures var next := RunStep(s, run); FlagsInv(next.0, next.1, marks + [next.0.nextDoc]) && next.1.i == run.i + 1
  {
    hide DeriveTagLinkMetadata;
    var ref := run.order[run.i];
    var id := run.byRef[ref];
    var next := RunStep(s, run);
    var t := next.0;
    FlaggedSoFar(s, run, ref);
    assert run.snap[id].storageRef == Some(ref) && ref in run.remote;
    assert run.snap[id].linkOriginTag ==> ToBeFlagged(run, run.snap[id]);
    OneRowFlagged(s, run, ref);
    assert forall x :: x in s.docs && x != id ==> t.docs[x] == s.docs[x];
    forall x | x in run.snap && x in t.docs && ToBeFlagged(next.1, run.snap[x]) ensures t.docs[x].linkOriginTag {
      if x != id { assert ToBeFlagged(run, run.snap[x]); }
    }
    assert FlaggedIsListed(t, next.1) by {
      forall x | x in t.docs && t.docs[x].ActiveLink() && t.docs[x].linkOriginTag && x != id
        ensures t.docs[x].storageRef.Some? && (t.docs[x].storageRef.value in run.remote || Pending(next.1, x))
      {
        assert t.docs[x] == s.docs[x];
      }
    }
  }

  /** The write for a linked document touches its row alone, and flags it if the
      snapshot had it without the flag; it counts as updated or untouched. */
  lemma OneRowFlagged(s: State, run: Run, ref: int)
    requires run.Valid() && ref in run.remote && ref in run.byRef && run.byRef[ref] in s.docs
    ensures var w := WriteRemote(s, run, ref); var t := w.0; var id := run.byRef[ref];
      && t.docs.Keys == s.docs.Keys && t == s.(docs := t.docs) && (forall x :: x in s.docs && x != id ==> t.docs[x] == s.docs[x])
      && (t.docs[id].linkOriginTag <==> s.docs[id].linkOriginTag || !run.snap[id].linkOriginTag)
      && t.docs[id] == s.docs[id].(fileName := t.docs[id].fileName, documentDate := t.docs[id].documentDate, mimeType := t.docs[id].mimeType,
                                   linkOriginTag := t.docs[id].linkOriginTag)
      && (w.1 == run.tally.(updated := run.tally.updated + 1) || (w.1 == run.tally.(untouched := run.tally.untouched + 1) && t == s))
      && (!run.snap[id].linkOriginTag ==> w.1 == run.tally.(updated := run.tally.updated + 1))
  {
    hide DeriveTagLinkMetadata;
  }

  lemma UnlinkedWalk(s: State, run: Run, marks: seq<nat>)
    requires run.Valid() && run.phase.Walking? && run.i < |run.order| && run.order[run.i] !in run.byRef && s.ConfigIs(run.version)
    requires FlagsInv(s, run, marks)
    ensures var next := RunStep(s, run); FlagsInv(next.0, next.1, marks + [next.0.nextDoc]) && next.1.i == run.i + 1
  {
    hide RunStep, ListedNow;
    var ref := run.order[run.i];
    var next := RunStep(s, run);
    var t := next.0;
    FlaggedSoFar(s, run, ref);
    UnlinkedIsListed(s, run);
    StepKeepsPlan(s, run);
    RunStepKeepsFresh(s, run);
    AllFlagged(t, ref);
    forall x | x in run.snap && x in t.docs && ToBeFlagged(next.1, run.snap[x]) ensures t.docs[x].linkOriginTag {
      assert run.snap[x].storageRef != Some(ref);
      assert ToBeFlagged(run, run.snap[x]);
    }
    forall x | x in t.docs && t.docs[x].ActiveLink() && t.docs[x].linkOriginTag
      ensures t.docs[x].storageRef.Some? && (t.docs[x].storageRef.value in run.remote || Pending(next.1, x))
    {
      if x in s.docs && !s.docs[x].ActiveLinkTo(ref) { assert t.docs[x] == s.docs[x]; }
    }
  }

  lemma AllFlagged(t: State, ref: int)
    requires ListedNow(t, ref)
    ensures forall id :: id in t.docs && t.docs[id].ActiveLinkTo(ref) ==> t.docs[id].linkOriginTag
  {
  }

  /** A run keeps its snapshot, its index and its list. */
  lemma StepKeepsPlan(s: State, run: Run)
    requires run.Valid()
    ensures var r := RunStep(s, run).1;
      r == run.(i := r.i, j := r.j, tally := r.tally, phase := r.phase) &&
      (run.phase.Walking? && run.i < |run.order| ==> r.j == run.j && !r.phase.Finished?)
  {
    hide WriteRemote;
  }

  /** The next local link is dealt with: dropped, or nothing to drop. */
  lemma LocalDone(s: State, t: State, run: Run, marks: seq<nat>, id: nat)
    requires run.Valid() && run.i == |run.order| && run.j < |run.locals| && run.locals[run.j] == id && FlagsInv(s, run, marks)
    requires t == s || (id in s.docs && id in t.docs && t.nextDoc == s.nextDoc && t.docs == s.docs[id := t.docs[id]] &&
                        t.docs[id].storageRef == s.docs[id].storageRef && !t.docs[id].linkOriginTag && (t.docs[id].ActiveLink() ==> s.docs[id].ActiveLink()))
    requires if LostTag(run.snap[id], run.remote) then id in t.docs && !t.docs[id].linkOriginTag else t == s
    ensures forall r: Run :: r == run.(j := run.j + 1, tally := r.tally) ==> FlagsInv(t, r, marks)
  {
    forall r: Run | r == run.(j := run.j + 1, tally := r.tally) ensures FlagsInv(t, r, marks) {
      assert run.locals[run.j..] == [id] + run.locals[run.j + 1..];
      forall x | x in t.docs && t.docs[x].ActiveLink() && t.docs[x].linkOriginTag
        ensures t.docs[x].storageRef.Some? && (t.docs[x].storageRef.value in run.remote || Pending(r, x))
      {
        assert x in s.docs && s.docs[x].storageRef == t.docs[x].storageRef && s.docs[x].ActiveLink() && s.docs[x].linkOriginTag;
      }
      forall x | x in run.snap && x in t.docs && ToBeFlagged(r, run.snap[x]) ensures t.docs[x].linkOriginTag {
        assert ToBeFlagged(run, run.snap[x]);
      }
    }
  }

  lemma LocalWalk(s: State, run: Run, marks: seq<nat>)
    requires run.Valid() && run.phase.Walking? && run.i == |run.order| && FlagsInv(s, run, marks)
    ensures var next := RunStep(s, run); FlagsInv(next.0, next.1, marks) && next.1.i == run.i
  {
    hide WriteRemote, FlagsInv, LostTag;
    if run.j == |run.locals| {
      EndKeepsFlagsInv(s, run, marks);
    } else {
      var id := run.locals[run.j];
      SnapshotThere(s, run, marks, id);
      if !LostTag(run.snap[id], run.remote) {
        LocalDone(s, s, run, marks, id);
      } else if s.ConfigIs(run.version) {
        LocalDone(s, s.PutDoc(id, DropTagOrigin(s.docs[id], run.snap[id])), run, marks, id);
      } else {
        AbortKeepsFlagsInv(s, run, marks);
      }
    }
  }

  lemma SnapshotThere(s: State, run: Run, marks: seq<nat>, id: nat)
    requires FlagsInv(s, run, marks) && id in run.snap
    ensures id in s.docs
  {
  }

  lemma EndKeepsFlagsInv(s: State, run: Run, marks: seq<nat>)
    requires FlagsInv(s, run, marks) && run.phase.Walking? && run.i == |run.order| && run.j == |run.locals|
    ensures FlagsInv(s, run.(phase := Finished), marks)
  {
    assert forall id :: Pending(run, id) <==> Pending(run.(phase := Finished), id);
    assert forall d :: ToBeFlagged(run, d) <==> ToBeFlagged(run.(phase := Finished), d);
  }

  lemma AbortKeepsFlagsInv(s: State, run: Run, marks: seq<nat>)
    requires FlagsInv(s, run, marks) && run.phase.Walking?
    ensures FlagsInv(s, run.(phase := Aborted), marks)
  {
    assert forall id :: Pending(run, id) <==> Pending(run.(phase := Aborted), id);
    assert forall d :: ToBeFlagged(run, d) <==> ToBeFlagged(run.(phase := Aborted), d);
  }

  lemma RunKeepsFlagsInv(s: State, run: Run, marks: seq<nat>)
    requires run.Valid() && FlagsInv(s, run, marks)
    ensures var next := RunStep(s, run);
      FlagsInv(next.0, next.1, marks + if next.1.i > run.i then [next.0.nextDoc] else [])
  {
    hide FlagsInv, WriteRemote;
    if run.phase.Walking? && run.i < |run.order| && s.ConfigIs(run.version) {
      if run.order[run.i] in run.byRef { LinkedWalk(s, run, marks); } else { UnlinkedWalk(s, run, marks); }
    } else {
      assert marks + [] == marks;
      if run.phase.Walking? && run.i < |run.order| {
        AbortKeepsFlagsInv(s, run, marks);
      } else if run.phase.Walking? {
        LocalWalk(s, run, marks);
      }
    }
  }

  lemma {:induction false} FlagsAlong(s: State, run: Run, moves: seq<Move>)
    requires run.Valid() && run.i == 0 && FlagsInv(s, run, [])
    requires forall k :: 0 <= k < |moves| && moves[k].Other? ==> LeavesFlags(moves[k].e)
    ensures FlagsInv(Play(s, run, moves).0, Play(s, run, moves).1, Marks(s, run, moves))
  {
    if moves != [] {
      hide FlagsInv, RunStep, Step;
      var n := |moves| - 1;
      FlagsAlong(s, run, moves[..n]);
      var before := Play(s, run, moves[..n]);
      var marks := Marks(s, run, moves[..n]);
      if moves[n].RunOn? {
        RunKeepsFlagsInv(before.0, before.1, marks);
      } else {
        FreshOf(before.0, before.1, marks);
        StepKeepsFlags(before.0, moves[n].e);
        StepKeepsFresh(before.0, moves[n].e);
        OtherKeepsFlagsInv(before.0, Step(before.0, moves[n].e), before.1, marks);
        assert marks + [] == marks;
      }
    }
  }

  lemma FreshOf(t: State, run: Run, marks: seq<nat>)
    requires FlagsInv(t, run, marks)
    ensures FreshDocs(t)
  {
  }

  lemma StartFlags(s: State, version: nat, remote: seq<RemoteDoc>, rows: seq<nat>)
    requires LinksInv(s) && Enumerates(rows, s.docs.Keys)
    ensures FlagsInv(s, StartRun(s.docs, version, remote, rows), [])
  {
    hide RemoteOrder, RemoteById, LinksOf, ByRef, LinkSnapshot, OneRowPerRef;
    var run := StartRun(s.docs, version, remote, rows);
    StartedFromStart(s.docs, rows);
    forall id | id in run.snap
      ensures run.snap[id].storageRef.Some? && run.snap[id].storageRef.value in run.byRef && run.byRef[run.snap[id].storageRef.value] == id
    {
      assert IndexedBy(run.byRef, s.docs[id], id);
    }
    forall r | r in run.byRef ensures run.byRef[r] in run.snap && run.snap[run.byRef[r]].storageRef == Some(r) {
      assert PointsAt(s.docs, run.byRef, r);
    }
    assert run.locals[0..] == run.locals;
    forall id | id in s.docs && s.docs[id].ActiveLink() && s.docs[id].linkOriginTag
      ensures s.docs[id].storageRef.Some? && (s.docs[id].storageRef.value in run.remote || Pending(run, id))
    {
      assert OriginsOk(s.docs[id]) && id in run.snap;
    }
  }

  /** A completed run, whatever interleaved short of removing the tag or another
      sync: a flagged link is listed; a listed link that the snapshot had, or that
      existed when its document was walked and had no link in the snapshot, is
      flagged. */
  lemma InterleavedFlagMeansListed(s: State, version: nat, remote: seq<RemoteDoc>, rows: seq<nat>, moves: seq<Move>)
    requires LinksInv(s) && Enumerates(rows, s.docs.Keys)
    requires forall k :: 0 <= k < |moves| && moves[k].Other? ==> LeavesFlags(moves[k].e)
    requires Play(s, StartRun(s.docs, version, remote, rows), moves).1.phase.Finished?
    ensures var run := StartRun(s.docs, version, remote, rows);
      var t := Play(s, run, moves).0; var marks := Marks(s, run, moves); var order := RemoteOrder(remote);
      && |marks| == |order|
      && (forall id :: id in t.docs && t.docs[id].ActiveLink() && t.docs[id].linkOriginTag ==>
            t.docs[id].storageRef.Some? && t.docs[id].storageRef.value in RemoteById(remote))
      && (forall id :: id in t.docs && id in s.docs && s.docs[id].ActiveLink() ==>
            s.docs[id].storageRef.Some? && (s.docs[id].storageRef.value in RemoteById(remote) ==> t.docs[id].linkOriginTag))
      && (forall k, id :: 0 <= k < |order| && !s.Linked(order[k]) && id in t.docs && t.docs[id].ActiveLinkTo(order[k]) && id < marks[k] ==>
            t.docs[id].linkOriginTag)
  {
    var run := StartRun(s.docs, version, remote, rows);
    StartFlags(s, version, remote, rows);
    FlagsAlong(s, run, moves);
    PlayKeepsPlan(s, run, moves);
    hide FlagsInv, Marks, Play, StartRun;
    FlagsAtTheEnd(s, version, remote, rows, Play(s, run, moves).0, Play(s, run, moves).1, Marks(s, run, moves));
  }

  lemma {:induction false} PlayKeepsPlan(s: State, run: Run, moves: seq<Move>)
    requires run.Valid()
    ensures var r := Play(s, run, moves).1; r == run.(i := r.i, j := r.j, tally := r.tally, phase := r.phase)
  {
    if moves != [] {
      hide RunStep, Step;
      PlayKeepsPlan(s, run, moves[..|moves| - 1]);
      StepKeepsPlan(Play(s, run, moves[..|moves| - 1]).0, Play(s, run, moves[..|moves| - 1]).1);
    }
  }

  /** What the flags invariant says once the run is finished. */
  lemma FlagsAtTheEnd(s: State, version: nat, remote: seq<RemoteDoc>, rows: seq<nat>, t: State, run: Run, marks: seq<nat>)
    requires LinksInv(s) && Enumerates(rows, s.docs.Keys) && FlagsInv(t, run, marks) && run.phase.Finished?
    requires run == StartRun(s.docs, version, remote, rows).(i := run.i, j := run.j, tally := run.tally, phase := run.phase)
    ensures var order := RemoteOrder(remote);
      && |marks| == |order|
      && (forall id :: id in t.docs && t.docs[id].ActiveLink() && t.docs[id].linkOriginTag ==>
            t.docs[id].storageRef.Some? && t.docs[id].storageRef.value in RemoteById(remote))
      && (forall id :: id in t.docs && id in s.docs && s.docs[id].ActiveLink() ==>
            s.docs[id].storageRef.Some? && (s.docs[id].storageRef.value in RemoteById(remote) ==> t.docs[id].linkOriginTag))
      && (forall k, id :: 0 <= k < |order| && !s.Linked(order[k]) && id in t.docs && t.docs[id].ActiveLinkTo(order[k]) && id < marks[k] ==>
            t.docs[id].linkOriginTag)
  {
    hide RemoteOrder, RemoteById, LinksOf, ByRef, LinkSnapshot;
    StartedFromStart(s.docs, rows);
    assert run.order[..|run.order|] == run.order;
    forall id | id in t.docs && id in s.docs && s.docs[id].ActiveLink()
      ensures s.docs[id].storageRef.Some? && (s.docs[id].storageRef.value in RemoteById(remote) ==> t.docs[id].linkOriginTag)
    {
      assert OriginsOk(s.docs[id]) && id in run.snap;
      assert s.docs[id].storageRef.value in RemoteById(remote) ==> ToBeFlagged(run, run.snap[id]);
    }
    forall r | r in run.byRef ensures s.Linked(r) {
      assert PointsAt(s.docs, run.byRef, r);
    }
  }
}
