// A link or an unlink between the snapshot of a reconciliation and its write.
module TagSnapshotRaces {
  import opened Wrappers
  import opened TagModel
  import opened TagInvariants
  import opened TagRuns
  import opened TagInterleaving
  import opened TagRaces

  lemma OneLinkSnapshot(doc: Doc)
    requires doc.ActiveLinkTo(5)
    ensures StartRun(map[0 := doc], 1, [], [0]) == Run(1, map[0 := doc], [0], map[5 := 0], [], map[], 0, 0, Tally(0, 0, 0, 0), Walking)
  {
    var docs: map<nat, Doc> := map[0 := doc];
    var rows: seq<nat> := [0];
    assert rows[..0] == [] && LinksOf(docs, rows[..0]) == [];
    assert LinksOf(docs, rows) == rows;
    assert LinkSnapshot(docs, rows) == docs;
    assert ByRef(docs, rows[..0]) == map[];
  }

  /** The list is empty, the row has a tag origin in the snapshot: one write, then
      the run is finished. */
  lemma OneLinkLost(s: State, seen: Doc)
    requires s.ConfigIs(1) && seen.ActiveLinkTo(5) && seen.linkOriginTag && 0 in s.docs
    ensures var run := StartRun(map[0 := seen], 1, [], [0]);
      var one := RunStep(s, run); var two := RunStep(one.0, one.1);
      two.1.phase.Finished? && two.0 == s.PutDoc(0, DropTagOrigin(s.docs[0], seen))
  {
    OneLinkSnapshot(seen);
    assert LostTag(seen, map[]);
  }

  lemma PlayAfter(s: State, run: Run, e: Event)
    requires run.Valid()
    ensures var t := Step(s, e); var one := RunStep(t, run);
      Play(s, run, [Other(e), RunOn, RunOn]) == RunStep(one.0, one.1)
  {
    hide RunStep, Step, Play;
    var moves := [Other(e), RunOn, RunOn];
    PlayOne(s, run, moves, 0);
    PlayOne(s, run, moves, 1);
    PlayOne(s, run, moves, 2);
    assert moves[..3] == moves;
  }

  // --- Linked after the snapshot -----------------------------------------------------

  const RESYNCING := SYNCED.(
    jobs := SYNCED.jobs[1 := NewJob(SyncPolicy, 1).(status := Running)], nextJob := 2, inflight := map[1 := Attempt(1, 7, 0)])

  const SECOND_SYNC: seq<Event> :=
    [Configure(7), EvBeginSync(0, ""), EvEndSync(0, ANSWER, 0, []), EvRequestSync, EvBeginSync(1, "")]

  lemma SecondSyncBegins()
    ensures Initial(EMPTY) && Feasible(EMPTY, SECOND_SYNC) && After(EMPTY, SECOND_SYNC) == RESYNCING
  {
    hide Does, NewTagDoc, RequestSync;
    RestartedSync();
    FirstSync();
    Requested();
    TracedFeasible([EMPTY, CONFIGURED, SYNCING, SYNCED, RequestSync(SYNCED), RESYNCING], SECOND_SYNC);
  }

  lemma Requested()
    ensures Does(SYNCED, EvRequestSync, RequestSync(SYNCED)) && Does(RequestSync(SYNCED), EvBeginSync(1, ""), RESYNCING)
  {
    hide NewTagDoc;
    assert !SYNCED.HasActive(SyncPolicy);
  }

  lemma LinkedLate()
    ensures Enabled(RESYNCING, EvLink(CONTRACT, Some(0)))
    ensures var t := Step(RESYNCING, EvLink(CONTRACT, Some(0)));
      t.ConfigIs(1) && 0 in t.docs && t.docs[0].ActiveLinkTo(5) && t.docs[0].linkOriginManual
    ensures RESYNCING.docs == map[0 := TAGGED] && TAGGED.ActiveLinkTo(5) && TAGGED.linkOriginTag && !TAGGED.linkOriginManual
  {
    hide QueueTagging;
  }

  /** The sync has taken its snapshot, the user links the listed document, and the
      run then archives the user's link because the list lost it. */
  lemma LateLinkIsArchived() returns (linked: State, end: (State, Run))
    ensures Initial(EMPTY) && Feasible(EMPTY, SECOND_SYNC) && After(EMPTY, SECOND_SYNC) == RESYNCING
    ensures Enabled(RESYNCING, EvLink(CONTRACT, Some(0))) && linked == Step(RESYNCING, EvLink(CONTRACT, Some(0)))
    ensures 0 in linked.docs && linked.docs[0].ActiveLinkTo(5) && linked.docs[0].linkOriginManual
    ensures end == Play(RESYNCING, StartRun(RESYNCING.docs, 1, [], [0]), [Other(EvLink(CONTRACT, Some(0))), RunOn, RunOn])
    ensures end.1.phase.Finished? && 0 in end.0.docs && end.0.docs[0].linkOriginManual && end.0.docs[0].archived
  {
    hide StartRun, Play, RunStep, Does;
    SecondSyncBegins();
    LinkedLate();
    hide Step, Enabled, NewTagDoc;
    linked := Step(RESYNCING, EvLink(CONTRACT, Some(0)));
    var run := StartRun(RESYNCING.docs, 1, [], [0]);
    PlayAfter(RESYNCING, run, EvLink(CONTRACT, Some(0)));
    OneLinkLost(linked, TAGGED);
    end := Play(RESYNCING, run, [Other(EvLink(CONTRACT, Some(0))), RunOn, RunOn]);
  }

  // --- Unlinked after the snapshot ---------------------------------------------------

  const BOTH := SYNCED.(
    docs := map[0 := TAGGED.(linkOriginManual := true, tagging := Some(TaggingPending))],
    jobs := SYNCED.jobs[1 := NewJob(TagDocument(0), 1)], nextJob := 2)

  const BOTH_SYNCING := BOTH.(
    jobs := BOTH.jobs[2 := NewJob(SyncPolicy, 1).(status := Running)], nextJob := 3, inflight := map[2 := Attempt(1, 7, 0)])

  const LINKED_THEN_SYNC: seq<Event> :=
    [Configure(7), EvBeginSync(0, ""), EvEndSync(0, ANSWER, 0, []), EvLink(CONTRACT, Some(0)), EvRequestSync, EvBeginSync(2, "")]

  lemma LinkedTwice()
    ensures Does(SYNCED, EvLink(CONTRACT, Some(0)), BOTH)
  {
    assert !SYNCED.HasActive(TagDocument(0));
  }

  lemma RequestedAgain()
    ensures Does(BOTH, EvRequestSync, RequestSync(BOTH)) && Does(RequestSync(BOTH), EvBeginSync(2, ""), BOTH_SYNCING)
  {
    hide NewTagDoc;
    assert !BOTH.HasActive(SyncPolicy);
  }

  lemma ThirdSyncBegins()
    ensures Initial(EMPTY) && Feasible(EMPTY, LINKED_THEN_SYNC) && After(EMPTY, LINKED_THEN_SYNC) == BOTH_SYNCING
  {
    hide Does, RequestSync, NewTagDoc;
    RestartedSync();
    FirstSync();
    LinkedTwice();
    RequestedAgain();
    TracedFeasible([EMPTY, CONFIGURED, SYNCING, SYNCED, BOTH, RequestSync(BOTH), BOTH_SYNCING], LINKED_THEN_SYNC);
  }

  /** The sync has seen both origins, the user unlinks the document, and the run
      then takes the tag origin too: an active link without any origin. */
  lemma LateUnlinkLeavesNoOrigin() returns (end: (State, Run))
    ensures Initial(EMPTY) && Feasible(EMPTY, LINKED_THEN_SYNC) && After(EMPTY, LINKED_THEN_SYNC) == BOTH_SYNCING
    ensures Enabled(BOTH_SYNCING, EvRemoveDocument(0))
    ensures end == Play(BOTH_SYNCING, StartRun(BOTH_SYNCING.docs, 1, [], [0]), [Other(EvRemoveDocument(0)), RunOn, RunOn])
    ensures end.1.phase.Finished? && 0 in end.0.docs && end.0.docs[0].ActiveLink()
    ensures !end.0.docs[0].linkOriginManual && !end.0.docs[0].linkOriginTag
  {
    hide StartRun, Play, RunStep;
    ThirdSyncBegins();
    var run := StartRun(BOTH_SYNCING.docs, 1, [], [0]);
    PlayAfter(BOTH_SYNCING, run, EvRemoveDocument(0));
    OneLinkLost(Step(BOTH_SYNCING, EvRemoveDocument(0)), BOTH_SYNCING.docs[0]);
    end := Play(BOTH_SYNCING, run, [Other(EvRemoveDocument(0)), RunOn, RunOn]);
  }
}
