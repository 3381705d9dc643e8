// One reconciliation run whose single writes interleave with the operations of
// the API and the document service.
module TagInterleaving {
  import opened Wrappers
  import opened TagModel
  import opened TagInvariants
  import opened TagRuns
  import opened TagVersions

  /** Either the run makes its next step, or some other operation happens. */
  datatype Move = RunOn | Other(e: Event)

  function Play(s: State, run: Run, moves: seq<Move>): (r: (State, Run))
    requires run.Valid()
    ensures r.1.Valid() && r.1.version == run.version
  {
    if moves == [] then (s, run)
    else
      var before := Play(s, run, moves[..|moves| - 1]);
      match moves[|moves| - 1]
      case RunOn => RunStep(before.0, before.1)
      case Other(e) => (Step(before.0, e), before.1)
  }

  function OthersOf(moves: seq<Move>): seq<Event> {
    if moves == [] then []
    else
      var before := OthersOf(moves[..|moves| - 1]);
      match moves[|moves| - 1]
      case RunOn => before
      case Other(e) => before + [e]
  }

  /** The run's version is not the configured one at any point of the moves. */
  ghost predicate Superseded(s: State, version: nat, moves: seq<Move>) {
    forall k :: 0 <= k <= |moves| ==> !After(s, OthersOf(moves[..k])).ConfigIs(version)
  }

  lemma AfterOne(s: State, es: seq<Event>, e: Event)
    ensures After(s, es + [e]) == Step(After(s, es), e)
  {
    assert (es + [e])[..|es|] == es;
  }

  lemma SupersededStep(s: State, run: Run)
    requires run.Valid() && !s.ConfigIs(run.version)
    ensures RunStep(s, run).0 == s && RunStep(s, run).1.version == run.version
  {
    hide WriteRemote;
  }

  lemma PrefixSuperseded(s: State, version: nat, moves: seq<Move>)
    requires moves != [] && Superseded(s, version, moves)
    ensures Superseded(s, version, moves[..|moves| - 1]) && !After(s, OthersOf(moves[..|moves| - 1])).ConfigIs(version)
  {
    var n := |moves| - 1;
    forall k | 0 <= k <= n ensures !After(s, OthersOf(moves[..n][..k])).ConfigIs(version) {
      assert moves[..n][..k] == moves[..k];
    }
  }

  /** Once superseded, the run's steps are invisible: the store is the one the
      other operations alone would have produced. */
  lemma {:induction false} SupersededRunIsInvisible(s: State, run: Run, moves: seq<Move>)
    requires run.Valid() && Superseded(s, run.version, moves)
    ensures Play(s, run, moves).0 == After(s, OthersOf(moves))
  {
    if moves != [] {
      hide RunStep, Step, Superseded;
      var n := |moves| - 1;
      PrefixSuperseded(s, run.version, moves);
      SupersededRunIsInvisible(s, run, moves[..n]);
      var before := Play(s, run, moves[..n]);
      SupersededStep(before.0, before.1);
      if moves[n].Other? {
        AfterOne(s, OthersOf(moves[..n]), moves[n].e);
      }
    }
  }

  /** A superseded run ends by writing its own job row and nothing else: not the
      newer configuration, no document, no backfill job. */
  lemma SupersededFinishWritesOwnRow(s: State, id: nat, version: nat, name: string, total: nat, now: int, run: Run, rows: seq<nat>)
    requires id in s.jobs && !s.ConfigIs(version)
    ensures var t := FinishSync(s, id, version, name, total, now, run, rows);
      id in t.jobs && t == s.PutJob(id, t.jobs[id]) && !t.jobs[id].Active()
  {
  }

  lemma {:induction false} SupersededRunAll(s: State, run: Run)
    requires run.Valid() && !s.ConfigIs(run.version)
    ensures RunAll(s, run).0 == s
    decreases run.Left()
  {
    if run.phase.Walking? {
      SupersededStep(s, run);
      var next := RunStep(s, run);
      SupersededRunAll(next.0, next.1);
    }
  }

  /** Whatever Paperless answers, the end of a superseded sync touches neither the
      newer configuration nor a document nor another row. */
  lemma SupersededEndWritesOwnRow(s: State, id: nat, answer: SyncAnswer, now: int, rows: seq<nat>)
    requires Enabled(s, EvEndSync(id, answer, now, rows)) && !s.ConfigIs(s.inflight[id].version)
    ensures var t := EndSync(s, id, answer, now, rows);
      && id in t.jobs && t == s.(jobs := s.jobs[id := t.jobs[id]], inflight := s.inflight - {id})
      && (answer.Listed? ==> !t.jobs[id].Active())
  {
    hide FinishSync, StartRun, RunAll;
    if answer.Listed? {
      var version := s.inflight[id].version;
      var idle := s.(inflight := s.inflight - {id});
      var start := StartRun(s.docs, version, answer.remote, rows);
      RunVersion(s.docs, version, answer.remote, rows);
      SupersededRunAll(idle, start);
      SupersededFinishWritesOwnRow(idle, id, version, answer.name, |answer.remote|, now, RunAll(idle, start).1, rows);
    }
  }

  lemma RunVersion(docs: map<nat, Doc>, version: nat, remote: seq<RemoteDoc>, rows: seq<nat>)
    ensures StartRun(docs, version, remote, rows).version == version
  {
  }

  /** A delivered row reaches Paperless exactly when it belongs to the current
      configuration, the policy is active and the server is the configured one;
      otherwise it is settled, and at most the drift is noted. */
  lemma WorkStartsIff(s: State, id: nat, baseUrl: string)
    requires Enabled(s, EvBeginSync(id, baseUrl))
    ensures var t := BeginSync(s, id, baseUrl);
      && (id in t.inflight <==> s.ConfigIs(s.jobs[id].version) && !s.policyArchived && !ConnectionDrift(s.config.value, baseUrl))
      && (id in t.inflight ==> t.jobs[id] == s.jobs[id].(status := Running, progress := Progress(0, None, 0, 0, 0)))
      && (id in t.inflight ==> t.config == s.config && t.inflight[id] == Attempt(s.jobs[id].version, s.config.value.tagId, s.jobs[id].retryCount))
      && (id !in t.inflight ==> !t.jobs[id].Active() && t.inflight == s.inflight)
      && (t.config == s.config || (s.ConfigIs(s.jobs[id].version) && t.config.value == s.config.value.(syncStatus := SyncError, syncError := Some("CONNECTION_CHANGED"))))
      && t.docs == s.docs && forall j :: j in s.jobs && j != id ==> j in t.jobs && t.jobs[j] == s.jobs[j]
  {
  }

  predicate OriginsKept(before: Doc, after: Doc) {
    && after.archived == before.archived && after.linkOriginManual == before.linkOriginManual
    && (before.linkOriginTag ==> after.linkOriginTag)
  }

  /** No row of `before` was archived or lost an origin. */
  ghost predicate NothingRemoved(before: State, after: State) {
    forall id :: id in before.docs ==> id in after.docs && OriginsKept(before.docs[id], after.docs[id])
  }

  ghost predicate FreshDocs(s: State) { forall id :: id in s.docs ==> id < s.nextDoc }

  lemma {:induction false} RetryRowsKeepsFresh(s: State, ids: seq<nat>, only: Option<nat>, version: nat)
    requires FreshDocs(s)
    ensures FreshDocs(RetryRows(s, ids, only, version))
    decreases |ids|
  {
    hide QueueTagging;
    if ids != [] { RetryRowsKeepsFresh(s, ids[..|ids| - 1], only, version); }
  }

  lemma {:induction false} BackfillRowsKeepsFresh(s: State, ids: seq<nat>, version: nat)
    requires FreshDocs(s)
    ensures FreshDocs(BackfillRows(s, ids, version))
    decreases |ids|
  {
    hide QueueTagging;
    if ids != [] { BackfillRowsKeepsFresh(s, ids[..|ids| - 1], version); }
  }

  lemma RunStepKeepsFresh(s: State, run: Run)
    requires run.Valid() && FreshDocs(s)
    ensures FreshDocs(RunStep(s, run).0)
  {
    hide DeriveTagLinkMetadata, ApplyMetadata, NewTagDoc;
  }

  lemma {:induction false} RunAllKeepsFresh(s: State, run: Run)
    requires run.Valid() && FreshDocs(s)
    ensures FreshDocs(RunAll(s, run).0)
    decreases run.Left()
  {
    hide RunStep, FreshDocs;
    if run.phase.Walking? {
      RunStepKeepsFresh(s, run);
      RunAllKeepsFresh(RunStep(s, run).0, RunStep(s, run).1);
    }
  }

  lemma FinishSyncKeepsFresh(s: State, id: nat, version: nat, name: string, total: nat, now: int, run: Run, rows: seq<nat>)
    requires id in s.jobs && FreshDocs(s)
    ensures FreshDocs(FinishSync(s, id, version, name, total, now, run, rows))
  {
    hide BackfillRows;
    forall t: State | FreshDocs(t) ensures FreshDocs(BackfillRows(t, rows, version)) {
      BackfillRowsKeepsFresh(t, rows, version);
    }
  }

  lemma EndSyncKeepsFresh(s: State, id: nat, answer: SyncAnswer, now: int, rows: seq<nat>)
    requires FreshDocs(s)
    ensures FreshDocs(EndSync(s, id, answer, now, rows))
  {
    hide RunAll, StartRun, FinishSync;
    if id in s.inflight && id in s.jobs && answer.Listed? {
      var version := s.inflight[id].version;
      var idle, start := s.(inflight := s.inflight - {id}), StartRun(s.docs, version, answer.remote, rows);
      RunAllKeepsFresh(idle, start);
      var done := RunAll(idle, start);
      FinishSyncKeepsFresh(done.0, id, version, answer.name, |answer.remote|, now, done.1, rows);
    }
  }

  lemma LinkKeepsFresh(s: State, meta: RemoteDoc, found: Option<nat>)
    requires FreshDocs(s)
    ensures FreshDocs(LinkDocument(s, meta, found))
  {
    hide QueueTagging;
  }

  lemma StepKeepsFresh(s: State, e: Event)
    requires FreshDocs(s)
    ensures FreshDocs(Step(s, e))
  {
    hide RetryRows, EndSync, QueueTagging, SupersedeJobs, WithoutTag, LinkDocument;
    match e
    case EvSetTag(_, _, _, _) =>
    case EvRemoveTag =>
    case EvRequestSync =>
    case EvRetryTagging(only, rows) => if s.config.Some? { RetryRowsKeepsFresh(s, rows, only, s.config.value.version); }
    case EvLink(meta, found) => LinkKeepsFresh(s, meta, found);
    case EvRemoveDocument(_) =>
    case EvTick(_) =>
    case EvBeginSync(_, _) =>
    case EvEndSync(job, answer, now, rows) => EndSyncKeepsFresh(s, job, answer, now, rows);
    case EvBeginTag(_, _) =>
    case EvEndTag(_, _) =>
    case EvArchivePolicy =>
  }

  /** The moves of the run itself between the states before and after each. */
  ghost predicate RunRemovesNothing(s: State, run: Run, moves: seq<Move>)
    requires run.Valid()
  {
    forall k :: 0 <= k < |moves| && moves[k].RunOn? ==> NothingRemoved(Play(s, run, moves[..k]).0, Play(s, run, moves[..k + 1]).0)
  }

  /** Whatever interleaves: if a run has not walked the whole remote list - because
      it was stopped midway, or is still at it - none of its writes has archived a
      row or dropped an origin. */
  lemma {:induction false} NothingRemovedEarly(s: State, run: Run, moves: seq<Move>)
    requires run.Valid() && FreshDocs(s) && !run.phase.Finished?
    requires Play(s, run, moves).1.i < |Play(s, run, moves).1.order|
    ensures RunRemovesNothing(s, run, moves) && FreshDocs(Play(s, run, moves).0) && !Play(s, run, moves).1.phase.Finished?
    decreases |moves|
  {
    hide FreshDocs, NothingRemoved, RunStep, Step;
    if moves != [] {
      var n := |moves| - 1;
      var before := Play(s, run, moves[..n]);
      assert moves[..n + 1] == moves;
      if moves[n].RunOn? { WalksOn(before.0, before.1); }
      NothingRemovedEarly(s, run, moves[..n]);
      if moves[n].RunOn? {
        RunStepRemovesNothing(before.0, before.1);
        RunStepKeepsFresh(before.0, before.1);
      } else {
        StepKeepsFresh(before.0, moves[n].e);
      }
      forall k | 0 <= k < n && moves[k].RunOn? ensures NothingRemoved(Play(s, run, moves[..k]).0, Play(s, run, moves[..k + 1]).0) {
        assert moves[..n][..k] == moves[..k] && moves[..n][..k + 1] == moves[..k + 1] && moves[..n][k] == moves[k];
      }
    }
  }

  lemma WalksOn(s: State, run: Run)
    requires run.Valid()
    ensures var next := RunStep(s, run).1; next.order == run.order && run.i <= next.i
  {
    hide WriteRemote;
  }

  lemma RunStepRemovesNothing(t: State, run: Run)
    requires run.Valid() && FreshDocs(t) && !run.phase.Finished? && RunStep(t, run).1.i < |run.order|
    ensures NothingRemoved(t, RunStep(t, run).0) && !RunStep(t, run).1.phase.Finished?
  {
    WalksOn(t, run);
    if run.phase.Walking? && t.ConfigIs(run.version) {
      hide WriteRemote, OriginsKept;
      WriteRemovesNothing(t, run, run.order[run.i]);
    }
  }

  lemma WriteRemovesNothing(t: State, run: Run, ref: int)
    requires run.Valid() && ref in run.remote && FreshDocs(t)
    ensures NothingRemoved(t, WriteRemote(t, run, ref).0)
  {
    hide DeriveTagLinkMetadata, FallbackName;
    assert t.nextDoc !in t.docs;
  }

  // --- A configuration change during the run ---------------------------------------------

  lemma PlayConcat(s: State, run: Run, a: seq<Move>, b: seq<Move>)
    requires run.Valid()
    ensures Play(s, run, a + b) == Play(Play(s, run, a).0, Play(s, run, a).1, b)
    decreases |b|
  {
    hide RunStep, Step;
    if b == [] {
      assert a + b == a;
    } else {
      var n := |b| - 1;
      PlayConcat(s, run, a, b[..n]);
      assert (a + b)[..|a + b| - 1] == a + b[..n];
    }
  }

  lemma {:induction false} PlayVersioned(s: State, run: Run, moves: seq<Move>)
    requires run.Valid()
    ensures VersionedOf(Play(s, run, moves).0) == VersionedAfter(VersionedOf(s), OthersOf(moves))
  {
    hide RunStep, Step, NextVersioned;
    if moves != [] {
      var n := |moves| - 1;
      PlayVersioned(s, run, moves[..n]);
      if moves[n].Other? {
        StepVersion(Play(s, run, moves[..n]).0, moves[n].e);
        assert OthersOf(moves)[..|OthersOf(moves)| - 1] == OthersOf(moves[..n]);
      }
    }
  }

  lemma {:induction false} LiveGrows(a: seq<Event>, b: seq<Event>)
    requires Changes(Live(a))
    ensures Changes(Live(a + b))
  {
    var k :| 0 <= k < |Live(a)| && ChangesConfig(Live(a)[k]);
    LivePrefix(a, b);
    assert Live(a + b)[k] == Live(a)[k];
  }

  lemma {:induction false} LivePrefix(a: seq<Event>, b: seq<Event>)
    ensures Live(a) <= Live(a + b)
  {
    if b == [] {
      assert a + b == a;
    } else {
      var n := |b| - 1;
      LivePrefix(a, b[..n]);
      assert (a + b)[..|a + b| - 1] == a + b[..n];
    }
  }

  /** From the events `es` on, none of the moves brings the version back. */
  ghost predicate NeverReused(es: seq<Event>, moves: seq<Move>, version: nat) {
    forall k :: 0 <= k <= |moves| ==> !Reuses(es + OthersOf(moves[..k]), version)
  }

  lemma ChangedIsSuperseded(s: State, es: seq<Event>, now: State, moves: seq<Move>, version: nat)
    requires s.ConfigIs(version) && version > 0 && !s.policyArchived && Changes(Live(es))
    requires VersionedOf(now) == VersionedAfter(VersionedOf(s), es) && NeverReused(es, moves, version)
    ensures Superseded(now, version, moves)
  {
    forall k | 0 <= k <= |moves| ensures !After(now, OthersOf(moves[..k])).ConfigIs(version) {
      hide VersionedAfter, Reuses, Live, Changes, After;
      var others := OthersOf(moves[..k]);
      AfterVersioned(now, others);
      VersionedConcat(VersionedOf(s), es, others);
      LiveGrows(es, others);
      ReusedIff(VersionedOf(s), es + others);
    }
  }

  /** A worker starts to handle a sync of the configured version in state `s`; `es`
      happens before it takes its snapshot, `moves` and `rest` interleave with the
      writes of its run. Once `es` or `moves` has changed the configuration, the
      rest of the run is invisible: no document, no newer configuration, no job but
      its own row, to the end - unless the version comes back. */
  lemma ChangedRunIsInvisible(s: State, es: seq<Event>, run: Run, moves: seq<Move>, rest: seq<Move>,
                              id: nat, name: string, total: nat, at: int, rows: seq<nat>)
    requires run.Valid() && s.ConfigIs(run.version) && run.version > 0 && !s.policyArchived
    requires Changes(Live(es + OthersOf(moves))) && NeverReused(es + OthersOf(moves), rest, run.version)
    requires id in Play(After(s, es), run, moves + rest).0.jobs
    ensures var changed := Play(After(s, es), run, moves).0;
      var end := Play(After(s, es), run, moves + rest);
      var t := FinishSync(end.0, id, run.version, name, total, at, end.1, rows);
      && end.0 == After(changed, OthersOf(rest))
      && id in t.jobs && t == end.0.PutJob(id, t.jobs[id]) && !t.jobs[id].Active()
  {
    hide Play, FinishSync, Live, Changes, VersionedAfter, After;
    var begun := After(s, es);
    var changed := Play(begun, run, moves);
    AfterVersioned(s, es);
    PlayVersioned(begun, run, moves);
    VersionedConcat(VersionedOf(s), es, OthersOf(moves));
    ChangedIsSuperseded(s, es + OthersOf(moves), changed.0, rest, run.version);
    SupersededRunIsInvisible(changed.0, changed.1, rest);
    PlayConcat(begun, run, moves, rest);
    NotConfiguredAtTheEnd(changed.0, run.version, rest);
    var end := Play(begun, run, moves + rest);
    SupersededFinishWritesOwnRow(end.0, id, run.version, name, total, at, end.1, rows);
  }

  lemma NotConfiguredAtTheEnd(s: State, version: nat, moves: seq<Move>)
    requires Superseded(s, version, moves)
    ensures !After(s, OthersOf(moves)).ConfigIs(version)
  {
    assert moves[..|moves|] == moves;
  }

  /** The same for a run taken in one piece, and for every answer of Paperless: a
      sync that was begun before the configuration changed ends by writing its own
      row. */
  lemma ChangedSyncWritesOwnRow(s: State, es: seq<Event>, id: nat, answer: SyncAnswer, now: int, rows: seq<nat>)
    requires s.config.Some? && s.config.value.version > 0 && !s.policyArchived
    requires Changes(Live(es)) && !Reuses(es, s.config.value.version)
    requires Enabled(After(s, es), EvEndSync(id, answer, now, rows)) && After(s, es).inflight[id].version == s.config.value.version
    ensures var u := After(s, es); var t := EndSync(u, id, answer, now, rows);
      && id in t.jobs && t == u.(jobs := u.jobs[id := t.jobs[id]], inflight := u.inflight - {id})
      && (answer.Listed? ==> !t.jobs[id].Active())
  {
    hide After, EndSync, Live, Changes, Reuses;
    VersionReusedIff(s, es);
    SupersededEndWritesOwnRow(After(s, es), id, answer, now, rows);
  }

  lemma PlayOne(s: State, run: Run, moves: seq<Move>, k: nat)
    requires run.Valid() && k < |moves|
    ensures Play(s, run, moves[..0]) == (s, run)
    ensures var before := Play(s, run, moves[..k]);
      Play(s, run, moves[..k + 1]) ==
      match moves[k] case RunOn => RunStep(before.0, before.1) case Other(e) => (Step(before.0, e), before.1)
  {
    assert moves[..k + 1][..k] == moves[..k];
  }

  lemma StartOfOne(remote: RemoteDoc)
    ensures var run := StartRun(map[], 1, [remote], []);
      run == Run(1, map[], [], map[], [remote.paperlessId], map[remote.paperlessId := remote], 0, 0, Tally(0, 0, 0, 0), Walking)
  {
    assert RemoteOrder([remote][..0]) == [] && RemoteById([remote][..0]) == map[];
    assert LinkSnapshot(map[], []) == map[];
  }

  // --- Link and unlink between the snapshot and the write ------------------------------

  /** Removing a lost tag origin leaves every link an origin unless the user
      dropped the manual origin after the snapshot was taken. */
  lemma DropKeepsLinksIff(s: State, run: Run)
    requires run.Valid() && run.phase.Walking? && run.j < |run.locals| && LinksInv(s) && s.ConfigIs(run.version)
    requires var id := run.locals[run.j];
      LostTag(run.snap[id], run.remote) && id in s.docs && s.docs[id].storageType.PaperlessLink?
    ensures var id := run.locals[run.j];
      LinksInv(LocalStep(s, run).0) <==>
      !(run.snap[id].linkOriginManual && !s.docs[id].linkOriginManual && !s.docs[id].archived)
  {
    var id := run.locals[run.j];
    var t := LocalStep(s, run).0;
    assert t.docs[id] == DropTagOrigin(s.docs[id], run.snap[id]);
    if OriginsOk(t.docs[id]) {
      RowsKeptKeepsLinks(s, t);
    }
  }

  /** An active manual link survives the removal of its lost tag origin exactly
      when it was already manual in the snapshot. */
  lemma ManualSurvivesIff(s: State, run: Run)
    requires run.Valid() && run.phase.Walking? && run.j < |run.locals| && s.ConfigIs(run.version)
    requires var id := run.locals[run.j];
      LostTag(run.snap[id], run.remote) && id in s.docs && s.docs[id].ActiveLink() && s.docs[id].linkOriginManual
    ensures var id := run.locals[run.j];
      LocalStep(s, run).0.docs[id].ActiveLink() <==> run.snap[id].linkOriginManual
  {
  }
}
