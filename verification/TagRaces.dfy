// Schedules under which a guarantee of the tag synchronisation fails.
module TagRaces {
  import opened Wrappers
  import opened TagModel
  import opened TagInvariants
  import opened TagOutbox
  import opened TagRuns
  import opened TagInterleaving

  const EMPTY := State(None, map[], map[], 0, 0, false, map[])

  const CONTRACT := RemoteDoc(5, None, None, None)

  function Configure(tagId: int): Event { EvSetTag(tagId, "", None, "") }

  // The tag changes while a worker confirms the old one.
  const LATE_CONFIRMATION: seq<Event> :=
    [Configure(7), EvLink(CONTRACT, None), EvBeginTag(1, ""), Configure(8), EvEndTag(1, Verified)]

  const CONFIGURED := State(Some(Config(7, None, "", 1, SyncPending, None, None)), map[], map[0 := NewJob(SyncPolicy, 1)], 0, 1, false, map[])

  const LINKED := CONFIGURED.(
    docs := map[0 := NewManualDoc(CONTRACT).(tagging := Some(TaggingPending))], nextDoc := 1,
    jobs := map[0 := NewJob(SyncPolicy, 1), 1 := NewJob(TagDocument(0), 1)], nextJob := 2)

  const TAGGING := LINKED.(
    jobs := map[0 := NewJob(SyncPolicy, 1), 1 := NewJob(TagDocument(0), 1).(status := Running)], inflight := map[1 := Attempt(1, 7, 0)])

  lemma FirstTag()
    ensures Does(EMPTY, Configure(7), CONFIGURED)
  {
    assert SetTag(EMPTY, 7, "", None, "").jobs == CONFIGURED.jobs;
  }

  lemma FirstLink()
    ensures Does(CONFIGURED, EvLink(CONTRACT, None), LINKED)
  {
    assert !CONFIGURED.Linked(5) && !CONFIGURED.HasActive(TagDocument(0));
  }

  lemma FirstTagging()
    ensures Does(LINKED, EvBeginTag(1, ""), TAGGING)
  {
  }

  lemma ConfigureThenLink()
    ensures Does(EMPTY, Configure(7), CONFIGURED)
    ensures Does(CONFIGURED, EvLink(CONTRACT, None), LINKED) && Does(LINKED, EvBeginTag(1, ""), TAGGING)
  {
    hide Does;
    FirstTag();
    FirstLink();
    FirstTagging();
  }

  lemma ReconfigureThenConfirm() returns (s: State, t: State)
    ensures Does(TAGGING, Configure(8), s) && Does(s, EvEndTag(1, Verified), t)
    ensures t.config == Some(Config(8, None, "", 2, SyncPending, None, None))
    ensures t.docs == map[0 := NewManualDoc(CONTRACT).(tagging := Some(Applied), verifiedFor := Some(7))]
  {
    s := SetTag(TAGGING, 8, "", None, "");
    assert s.jobs[1].kind == TagDocument(0) && s.docs == TAGGING.docs;
    t := EndTag(s, 1, Verified);
  }

  lemma LateConfirmationStates() returns (s: seq<State>)
    ensures Traced(s, LATE_CONFIRMATION) && s[0] == EMPTY
    ensures s[5].config == Some(Config(8, None, "", 2, SyncPending, None, None))
    ensures s[5].docs == map[0 := NewManualDoc(CONTRACT).(tagging := Some(Applied), verifiedFor := Some(7))]
  {
    hide Does, NewManualDoc;
    ConfigureThenLink();
    var s4, s5 := ReconfigureThenConfirm();
    s := [EMPTY, CONFIGURED, LINKED, TAGGING, s4, s5];
  }

  predicate Does(s: State, e: Event, t: State) { Enabled(s, e) && Step(s, e) == t }

  ghost predicate Traced(s: seq<State>, es: seq<Event>) {
    |s| == |es| + 1 && forall k :: 0 <= k < |es| ==> Does(s[k], es[k], s[k + 1])
  }

  lemma {:induction false} TracedAfter(s: seq<State>, es: seq<Event>, k: nat)
    requires Traced(s, es) && k <= |es|
    ensures After(s[0], es[..k]) == s[k]
  {
    hide Enabled, Step;
    if k > 0 {
      TracedAfter(s, es, k - 1);
      PrefixAfter(s[0], es, k - 1);
    }
  }

  lemma TracedFeasible(s: seq<State>, es: seq<Event>)
    requires Traced(s, es)
    ensures Feasible(s[0], es) && After(s[0], es) == s[|es|]
  {
    hide Enabled, Step;
    forall k: nat | k <= |es| ensures After(s[0], es[..k]) == s[k] { TracedAfter(s, es, k); }
    forall k: nat | k < |es| ensures Enabled(After(s[0], es[..k]), es[k]) {
      assert Does(s[k], es[k], s[k + 1]);
    }
    assert es[..|es|] == es;
  }

  /** A feasible run from the empty store ends with an active manual link that is
      APPLIED, verified for tag 7, while tag 8 is configured. */
  lemma LateConfirmationBreaksTagging()
    ensures Initial(EMPTY) && Feasible(EMPTY, LATE_CONFIRMATION)
    ensures var t := After(EMPTY, LATE_CONFIRMATION);
      && t.config.Some? && t.config.value.tagId == 8
      && 0 in t.docs && t.docs[0].ActiveLink() && t.docs[0].linkOriginManual && t.docs[0].tagging == Some(Applied) && t.docs[0].verifiedFor == Some(7)
      && !TaggingInv(t)
  {
    var s := LateConfirmationStates();
    TracedFeasible(s, LATE_CONFIRMATION);
    assert 0 in s[5].docs && !TaggingFits(CurrentTag(s[5]), s[5].docs[0]);
  }

  // The configuration is deleted and created again while a sync is running.
  const RECREATED: seq<Event> :=
    [Configure(7), EvBeginSync(0, ""), EvRemoveTag, Configure(8), EvEndSync(0, ListFailed, 0, [])]

  const SYNCING := CONFIGURED.(jobs := map[0 := NewJob(SyncPolicy, 1).(status := Running)], inflight := map[0 := Attempt(1, 7, 0)])

  lemma RestartedSync()
    ensures Does(EMPTY, Configure(7), CONFIGURED) && Does(CONFIGURED, EvBeginSync(0, ""), SYNCING)
  {
    FirstTag();
  }

  lemma RecreateThenFail() returns (s: State, t: State)
    ensures Does(SYNCING, EvRemoveTag, RemoveTag(SYNCING)) && Does(RemoveTag(SYNCING), Configure(8), s)
    ensures Does(s, EvEndSync(0, ListFailed, 0, []), t)
    ensures t.ConfigIs(1) && 0 in t.jobs && 1 in t.jobs && t.jobs[1] == NewJob(SyncPolicy, 1)
    ensures t.jobs[0].status.Pending? && t.jobs[0].kind == SyncPolicy && t.jobs[0].version == 1
  {
    s := SetTag(RemoveTag(SYNCING), 8, "", None, "");
    t := EndSync(s, 0, ListFailed, 0, []);
  }

  /** The put-back row and the new row are both active syncs of the current version. */
  lemma RecreatedBreaksUniqueness()
    ensures Initial(EMPTY) && Feasible(EMPTY, RECREATED)
    ensures var t := After(EMPTY, RECREATED);
      t.ConfigIs(1) && 0 in t.jobs && 1 in t.jobs && CurrentActive(t.jobs[0], SyncPolicy, 1) && CurrentActive(t.jobs[1], SyncPolicy, 1)
  {
    hide Does, RemoveTag;
    RestartedSync();
    var s4, s5 := RecreateThenFail();
    TracedFeasible([EMPTY, CONFIGURED, SYNCING, RemoveTag(SYNCING), s4, s5], RECREATED);
  }

  // --- The same version again --------------------------------------------------------

  const REUSED := [Other(EvRemoveTag), Other(Configure(8)), RunOn, RunOn]

  const BEGUN: seq<Event> := [Configure(7), EvBeginSync(0, "")]

  lemma SyncBegins()
    ensures Initial(EMPTY) && Feasible(EMPTY, BEGUN) && After(EMPTY, BEGUN) == SYNCING
  {
    hide Does;
    RestartedSync();
    TracedFeasible([EMPTY, CONFIGURED, SYNCING], BEGUN);
  }

  lemma Recreated() returns (s: State)
    ensures s == Step(Step(SYNCING, EvRemoveTag), Configure(8))
    ensures s.docs == map[] && s.nextDoc == 0 && s.ConfigIs(1) && s.config.value.tagId == 8 && s.jobs.Keys == {0, 1}
  {
    s := SetTag(RemoveTag(SYNCING), 8, "", None, "");
  }

  lemma ReusedRunWrites() returns (end: (State, Run))
    ensures end == Play(SYNCING, StartRun(map[], 1, [CONTRACT], []), REUSED)
    ensures end.1.phase.Finished? && end.0.docs == map[0 := NewTagDoc(5, CONTRACT)]
    ensures end.0.ConfigIs(1) && end.0.config.value.tagId == 8 && 0 in end.0.jobs
  {
    hide NewTagDoc, StartRun, Play, Step;
    var run := StartRun(map[], 1, [CONTRACT], []);
    PlayOne(SYNCING, run, REUSED, 0);
    PlayOne(SYNCING, run, REUSED, 1);
    PlayOne(SYNCING, run, REUSED, 2);
    PlayOne(SYNCING, run, REUSED, 3);
    assert REUSED[..4] == REUSED;
    var s2 := Recreated();
    OneDocumentWalked(s2);
    end := Play(SYNCING, run, REUSED);
  }

  lemma OneDocumentWalked(s: State)
    requires s.ConfigIs(1) && s.docs == map[] && s.nextDoc == 0
    ensures var one := RunStep(s, StartRun(map[], 1, [CONTRACT], []));
      RunStep(one.0, one.1) == (s.(docs := map[0 := NewTagDoc(5, CONTRACT)], nextDoc := 1),
                                StartRun(map[], 1, [CONTRACT], []).(i := 1, tally := Tally(1, 0, 0, 0), phase := Finished))
  {
    hide NewTagDoc;
    StartOfOne(CONTRACT);
  }

  /** A sync begun for tag 7 in a run from the empty store, still walking its list
      when the tag is removed and tag 8 set, adds its document under tag 8 and
      declares the new configuration ACTIVE under the old tag's name. */
  lemma ReusedVersionIsOverwritten(name: string, now: int) returns (end: (State, Run), t: State)
    ensures Initial(EMPTY) && Feasible(EMPTY, BEGUN) && After(EMPTY, BEGUN) == SYNCING
    ensures end == Play(SYNCING, StartRun(map[], 1, [CONTRACT], []), REUSED)
    ensures 0 in end.0.jobs && t == FinishSync(end.0, 0, 1, name, 1, now, end.1, [])
    ensures t.docs == map[0 := NewTagDoc(5, CONTRACT)]
    ensures t.config.Some? && t.config.value.tagId == 8 && t.config.value.syncStatus.SyncActive? && t.config.value.tagName == Some(name)
  {
    hide NewTagDoc, StartRun, Play;
    SyncBegins();
    end := ReusedRunWrites();
    t := FinishSync(end.0, 0, 1, name, 1, now, end.1, []);
  }

  // --- Link and unlink between snapshot and write --------------------------------------

  const TAGGED := NewTagDoc(5, CONTRACT)

  const SYNCED := CONFIGURED.(
    config := Some(Config(7, Some("tax"), "", 1, SyncActive, None, Some(0))),
    docs := map[0 := TAGGED], nextDoc := 1,
    jobs := map[0 := NewJob(SyncPolicy, 1).(status := Completed, progress := Progress(1, Some(1), 1, 0, 0), handlings := 1)])

  const ANSWER := Listed("tax", [CONTRACT])

  /** A run that adds the contract to an empty list. */
  lemma OneDocumentAdded(s: State)
    requires s.ConfigIs(1) && s.docs == map[] && s.nextDoc == 0
    ensures RunAll(s, StartRun(map[], 1, [CONTRACT], [])) ==
      (s.(docs := map[0 := TAGGED], nextDoc := 1),
       StartRun(map[], 1, [CONTRACT], []).(i := 1, tally := Tally(1, 0, 0, 0), phase := Finished))
  {
    hide NewTagDoc;
    OneDocumentWalked(s);
    StartOfOne(CONTRACT);
    var one := RunStep(s, StartRun(map[], 1, [CONTRACT], []));
    var two := RunStep(one.0, one.1);
    assert RunAll(two.0, two.1) == two && RunAll(one.0, one.1) == two;
  }

  /** The first sync lists the contract. */
  lemma FirstSync()
    ensures Does(SYNCING, EvEndSync(0, ANSWER, 0, []), SYNCED)
  {
    hide NewTagDoc, StartRun, RunAll;
    assert SYNCING.inflight - {0} == map[];
    OneDocumentAdded(SYNCING.(inflight := map[]));
  }
}
