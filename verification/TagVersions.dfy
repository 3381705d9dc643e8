// The configuration version over whole runs: which operations change it, and
// when a version is configured a second time.
module TagVersions {
  import opened Wrappers
  import opened TagModel

  /** What decides the version: None without a configuration. */
  datatype Versioned = Versioned(version: Option<nat>, archived: bool)

  function VersionedOf(s: State): Versioned {
    Versioned(if s.config.Some? then Some(s.config.value.version) else None, s.policyArchived)
  }

  predicate ChangesConfig(e: Event) { e.EvSetTag? || e.EvRemoveTag? }

  // --- One operation -----------------------------------------------------------------

  lemma {:induction false} RetryRowsKeepsConfig(s: State, ids: seq<nat>, only: Option<nat>, version: nat)
    ensures var t := RetryRows(s, ids, only, version); t.config == s.config && t.policyArchived == s.policyArchived
    decreases |ids|
  {
    hide QueueTagging;
    if ids != [] { RetryRowsKeepsConfig(s, ids[..|ids| - 1], only, version); }
  }

  lemma {:induction false} BackfillRowsKeepsConfig(s: State, ids: seq<nat>, version: nat)
    ensures var t := BackfillRows(s, ids, version); t.config == s.config && t.policyArchived == s.policyArchived
    decreases |ids|
  {
    hide QueueTagging;
    if ids != [] { BackfillRowsKeepsConfig(s, ids[..|ids| - 1], version); }
  }

  lemma FinishSyncKeepsVersion(s: State, id: nat, version: nat, name: string, total: nat, now: int, run: Run, rows: seq<nat>)
    requires id in s.jobs
    ensures VersionedOf(FinishSync(s, id, version, name, total, now, run, rows)) == VersionedOf(s)
  {
    hide BackfillRows;
    forall t: State ensures BackfillRows(t, rows, version).config == t.config && BackfillRows(t, rows, version).policyArchived == t.policyArchived {
      BackfillRowsKeepsConfig(t, rows, version);
    }
  }

  lemma EndSyncKeepsVersion(s: State, id: nat, answer: SyncAnswer, now: int, rows: seq<nat>)
    ensures VersionedOf(EndSync(s, id, answer, now, rows)) == VersionedOf(s)
  {
    hide RunAll, StartRun, FinishSync;
    if id in s.inflight && id in s.jobs && answer.Listed? {
      var run := RunAll(s.(inflight := s.inflight - {id}), StartRun(s.docs, s.inflight[id].version, answer.remote, rows));
      FinishSyncKeepsVersion(run.0, id, s.inflight[id].version, answer.name, |answer.remote|, now, run.1, rows);
    }
  }

  lemma LinkKeepsVersion(s: State, meta: RemoteDoc, found: Option<nat>)
    ensures VersionedOf(LinkDocument(s, meta, found)) == VersionedOf(s)
  {
    hide QueueTagging;
  }

  /** Only setTag, removeTag and archiving touch what decides the version. */
  lemma OthersKeepVersion(s: State, e: Event)
    requires !ChangesConfig(e) && !e.EvArchivePolicy?
    ensures VersionedOf(Step(s, e)) == VersionedOf(s)
  {
    hide RetryRows, LinkDocument, EndSync;
    match e
    case EvRequestSync =>
    case EvRetryTagging(only, rows) => if s.config.Some? { RetryRowsKeepsConfig(s, rows, only, s.config.value.version); }
    case EvLink(meta, found) => LinkKeepsVersion(s, meta, found);
    case EvRemoveDocument(_) =>
    case EvTick(_) =>
    case EvBeginSync(_, _) =>
    case EvEndSync(job, answer, now, rows) => EndSyncKeepsVersion(s, job, answer, now, rows);
    case EvBeginTag(_, _) =>
    case EvEndTag(_, _) =>
  }

  function NextVersioned(v: Versioned, e: Event): Versioned {
    if e.EvArchivePolicy? then v.(archived := true)
    else if v.archived then v
    else if e.EvSetTag? then v.(version := Some(if v.version.Some? then v.version.value + 1 else 1))
    else if e.EvRemoveTag? then v.(version := None)
    else v
  }

  lemma StepVersion(s: State, e: Event)
    ensures VersionedOf(Step(s, e)) == NextVersioned(VersionedOf(s), e)
  {
    hide SupersedeJobs, WithoutTag;
    if !ChangesConfig(e) && !e.EvArchivePolicy? {
      hide Step;
      OthersKeepVersion(s, e);
    }
  }

  function VersionedAfter(v: Versioned, es: seq<Event>): Versioned {
    if es == [] then v else NextVersioned(VersionedAfter(v, es[..|es| - 1]), es[|es| - 1])
  }

  lemma {:induction false} AfterVersioned(s: State, es: seq<Event>)
    ensures VersionedOf(After(s, es)) == VersionedAfter(VersionedOf(s), es)
  {
    hide Step, VersionedOf, NextVersioned;
    if es != [] {
      AfterVersioned(s, es[..|es| - 1]);
      StepVersion(After(s, es[..|es| - 1]), es[|es| - 1]);
    }
  }

  lemma {:induction false} VersionedConcat(v: Versioned, a: seq<Event>, b: seq<Event>)
    ensures VersionedAfter(v, a + b) == VersionedAfter(VersionedAfter(v, a), b)
  {
    hide NextVersioned;
    if b == [] {
      assert a + b == a;
    } else {
      var n := |b| - 1;
      VersionedConcat(v, a, b[..n]);
      assert (a + b)[..|a + b| - 1] == a + b[..n];
    }
  }

  // --- Any run ---------------------------------------------------------------------------

  /** The events before the policy was archived: only they can change the version. */
  function Live(es: seq<Event>): (r: seq<Event>)
    ensures r <= es
    ensures |r| < |es| ==> es[|r|].EvArchivePolicy?
    ensures forall k :: 0 <= k < |r| ==> !r[k].EvArchivePolicy?
  {
    if es == [] then []
    else
      var n := |es| - 1;
      var before := Live(es[..n]);
      if |before| == n && !es[n].EvArchivePolicy? then es else before
  }

  predicate Removes(es: seq<Event>) { exists k :: 0 <= k < |es| && es[k].EvRemoveTag? }

  predicate Changes(es: seq<Event>) { exists k :: 0 <= k < |es| && ChangesConfig(es[k]) }

  /** The number of assignments after the last removal (of all, if there is none). */
  function SetsSinceRemoval(es: seq<Event>): nat {
    if es == [] || es[|es| - 1].EvRemoveTag? then 0
    else SetsSinceRemoval(es[..|es| - 1]) + if es[|es| - 1].EvSetTag? then 1 else 0
  }

  lemma {:induction false} VersionedIs(v: Versioned, es: seq<Event>)
    requires v.version.Some? && !v.archived
    ensures var live := Live(es); var w := VersionedAfter(v, es);
      && (w.archived <==> |live| < |es|)
      && (w.version.None? <==> Removes(live) && SetsSinceRemoval(live) == 0)
      && (w.version.Some? ==> w.version.value == SetsSinceRemoval(live) + if Removes(live) then 0 else v.version.value)
  {
    if es != [] {
      var n := |es| - 1;
      VersionedIs(v, es[..n]);
      assert es == es[..n] + [es[n]];
      assert Removes(es) <==> Removes(es[..n]) || es[n].EvRemoveTag?;
    }
  }

  /** Whatever happens: without a configuration exactly when the last effective
      change was a removal; else the version counts the assignments since the last
      removal, or goes on from the old version if there was none. */
  lemma VersionAfter(s: State, es: seq<Event>)
    requires s.config.Some? && !s.policyArchived
    ensures var live := Live(es); var t := After(s, es);
      && (t.policyArchived <==> |live| < |es|)
      && (t.config.None? <==> Removes(live) && SetsSinceRemoval(live) == 0)
      && (t.config.Some? ==> t.config.value.version == SetsSinceRemoval(live) + if Removes(live) then 0 else s.config.value.version)
  {
    AfterVersioned(s, es);
    VersionedIs(VersionedOf(s), es);
  }

  lemma {:induction false} ChangedWithoutRemoval(es: seq<Event>)
    requires Changes(es) && !Removes(es)
    ensures SetsSinceRemoval(es) > 0
  {
    var n := |es| - 1;
    assert !es[n].EvRemoveTag?;
    if !es[n].EvSetTag? {
      assert Changes(es[..n]) by {
        var k :| 0 <= k < |es| && ChangesConfig(es[k]);
        assert es[..n][k] == es[k];
      }
      assert forall k :: 0 <= k < n ==> es[..n][k] == es[k];
      ChangedWithoutRemoval(es[..n]);
    }
  }

  /** The tag was removed and set so often since that the version is back. */
  predicate Reuses(es: seq<Event>, version: nat) { Removes(Live(es)) && SetsSinceRemoval(Live(es)) == version }

  lemma ReusedIff(v: Versioned, es: seq<Event>)
    requires v.version.Some? && v.version.value > 0 && !v.archived && Changes(Live(es))
    ensures VersionedAfter(v, es).version == v.version <==> Reuses(es, v.version.value)
  {
    VersionedIs(v, es);
    if !Removes(Live(es)) { ChangedWithoutRemoval(Live(es)); }
  }

  /** Once the configuration was changed, its version is configured again exactly
      when the tag was removed and set that many times since - whatever else
      happened. */
  lemma VersionReusedIff(s: State, es: seq<Event>)
    requires s.config.Some? && s.config.value.version > 0 && !s.policyArchived && Changes(Live(es))
    ensures After(s, es).ConfigIs(s.config.value.version) <==> Reuses(es, s.config.value.version)
  {
    AfterVersioned(s, es);
    ReusedIff(VersionedOf(s), es);
  }
}
