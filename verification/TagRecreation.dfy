// Configuring a tag again after it was removed: the version starts at 1 again,
// while handlers of earlier rows may still be at work.
module TagRecreation {
  import opened Wrappers
  import opened TagModel
  import opened TagInvariants
  import opened TagOutbox
  import opened TagRuns
  import opened TagDelivery
  import opened TagUnlinked

  // --- Longer runs -----------------------------------------------------------------

  lemma OneMore(s: State, es: seq<Event>, e: Event)
    requires Feasible(s, es) && Enabled(After(s, es), e)
    ensures Feasible(s, es + [e]) && After(s, es + [e]) == Step(After(s, es), e)
    ensures forall task :: NeverRecreates(s, es, task) && !Recreates(After(s, es), e, task) ==> NeverRecreates(s, es + [e], task)
  {
    hide Enabled, Step, Recreates;
    var all := es + [e];
    assert all[..|es|] == es && es[..|es|] == es;
    assert forall k :: 0 <= k < |es| ==> all[..k] == es[..k];
  }

  // --- A handler that outlives its configuration --------------------------------------

  /** `u` is `s` after tags were set: version `n` is configured, `m` is the sync row
      of it, nothing else is active, and what was being handled still is. */
  ghost predicate Outlived(s: State, u: State, m: nat, n: nat) {
    && u.ConfigIs(n) && !u.policyArchived && u.inflight == s.inflight
    && OnlySyncActive(s.jobs, u.jobs, m, n) && SameLinks(s.docs, u.docs)
  }

  ghost predicate OnlySyncActive(before: map<nat, Job>, after: map<nat, Job>, m: nat, n: nat) {
    && m in after && after[m] == NewJob(SyncPolicy, n)
    && (forall id :: id in before ==> id != m && id in after && after[id] == before[id].(status := after[id].status, error := after[id].error))
    && (forall j :: j in after && after[j].Active() ==> j == m)
  }

  ghost predicate SameLinks(before: map<nat, Doc>, after: map<nat, Doc>) {
    before.Keys == after.Keys && forall d :: d in before ==>
      after[d].storageRef == before[d].storageRef && after[d].storageType == before[d].storageType && after[d].archived == before[d].archived
  }

  function Raise(): Event { EvSetTag(0, "", None, "") }

  lemma SetOutlives(s: State, tagId: int, name: string, clientName: Option<string>, connection: string)
    requires JobsInv(s) && !s.policyArchived
    ensures var n := if s.config.Some? then s.config.value.version + 1 else 1;
      Outlived(s, SetTag(s, tagId, name, clientName, connection), s.nextJob, n)
  {
    hide RowsOk, SupersedeJobs, OnlySyncActive, SameLinks;
    var t := SetTag(s, tagId, name, clientName, connection);
    OneNewSync(s.jobs, s.inflight, s.nextJob, t.config.value.version);
    SetKeepsLinks(s, tagId, name, clientName, connection);
  }

  lemma OneNewSync(jobs: map<nat, Job>, inflight: map<nat, Attempt>, nextJob: nat, n: nat)
    requires RowsOk(jobs, inflight, nextJob)
    ensures OnlySyncActive(jobs, SupersedeJobs(jobs, "SUPERSEDED")[nextJob := NewJob(SyncPolicy, n)], nextJob, n)
  {
    assert forall id :: id in jobs ==> JobOk(id, jobs[id], nextJob);
  }

  lemma SetKeepsLinks(s: State, tagId: int, name: string, clientName: Option<string>, connection: string)
    ensures SameLinks(s.docs, SetTag(s, tagId, name, clientName, connection).docs)
  {
    hide SupersedeJobs;
  }

  lemma OutlivedTwice(s: State, u: State, v: State, m: nat, n: nat, m': nat, n': nat)
    requires Outlived(s, u, m, n) && Outlived(u, v, m', n')
    ensures Outlived(s, v, m', n')
  {
  }

  /** However high a handler's version is, further tags reach it. */
  lemma {:induction false} VersionIsReached(s: State, t: State, m0: nat, n: nat, task: JobKind) returns (es: seq<Event>, m: nat)
    requires LinksInv(t) && JobsInv(t) && Outlived(s, t, m0, 1) && n > 0
    ensures Feasible(t, es) && NeverRecreates(t, es, task) && Outlived(s, After(t, es), m, n)
    ensures LinksInv(After(t, es)) && JobsInv(After(t, es))
  {
    hide LinksInv, JobsInv, Outlived, Recreates, SetTag;
    if n == 1 {
      es, m := [], m0;
    } else {
      var before, m1 := VersionIsReached(s, t, m0, n - 1, task);
      var u := After(t, before);
      RaiseOnce(s, u, m1, n - 1, task);
      OneMore(t, before, Raise());
      es, m := before + [Raise()], u.nextJob;
    }
  }

  lemma RaiseOnce(s: State, u: State, m: nat, n: nat, task: JobKind)
    requires LinksInv(u) && JobsInv(u) && Outlived(s, u, m, n)
    ensures Enabled(u, Raise()) && !Recreates(u, Raise(), task) && Outlived(s, Step(u, Raise()), u.nextJob, n + 1)
    ensures LinksInv(Step(u, Raise())) && JobsInv(Step(u, Raise()))
  {
    hide LinksInv, JobsInv, SetTag;
    SetOutlives(u, 0, "", None, "");
    OutlivedTwice(s, u, Step(u, Raise()), m, n, u.nextJob, n + 1);
    StepKeepsLinks(u, Raise());
    StepKeepsJobs(u, Raise(), task);
  }

  // --- The put-back --------------------------------------------------------------------

  ghost predicate TwoCurrentRows(t: State, task: JobKind, a: nat, b: nat) {
    && t.config.Some? && a != b && a in t.jobs && b in t.jobs
    && CurrentActive(t.jobs[a], task, t.config.value.version) && CurrentActive(t.jobs[b], task, t.config.value.version)
  }

  /** A failing sync whose version is configured again comes back as a second one. */
  lemma SyncReturns(s: State, u: State, id: nat, m: nat, n: nat, rows: seq<nat>)
    requires Outlived(s, u, m, n) && id in s.jobs && RowsOk(u.jobs, u.inflight, u.nextJob) && Enumerates(rows, u.docs.Keys)
    requires id in u.inflight && u.jobs[id].kind.SyncPolicy? && u.jobs[id].version == n && HasRetries(u.jobs[id])
    ensures var e := EvEndSync(id, ListFailed, 0, rows);
      Enabled(u, e) && TwoCurrentRows(Step(u, e), SyncPolicy, id, m) && !e.EvSetTag?
  {
    assert AttemptOk(u.jobs[id], u.inflight[id]);
  }

  /** A failing tagging whose version is configured again comes back beside the
      one that linking the document queued meanwhile. */
  lemma TaggingReturns(s: State, u: State, id: nat, m: nat, n: nat, meta: RemoteDoc)
    requires Outlived(s, u, m, n) && id in s.jobs && RowsOk(u.jobs, u.inflight, u.nextJob)
    requires id in u.inflight && u.jobs[id].kind.TagDocument? && u.jobs[id].version == n && HasRetries(u.jobs[id])
    requires u.jobs[id].kind.doc in u.docs && u.docs[u.jobs[id].kind.doc].ActiveLinkTo(meta.paperlessId)
    ensures var link := EvLink(meta, Some(u.jobs[id].kind.doc)); var v := Step(u, link); var e := EvEndTag(id, NotVerified("UNREACHABLE"));
      && Enabled(u, link) && Enabled(v, e)
      && TwoCurrentRows(Step(v, e), u.jobs[id].kind, id, u.nextJob)
  {
    var d := u.jobs[id].kind.doc;
    var v := Step(u, EvLink(meta, Some(d)));
    assert AttemptOk(u.jobs[id], u.inflight[id]) && JobOk(id, u.jobs[id], u.nextJob);
    assert !u.HasActive(TagDocument(d));
    assert v.jobs == u.jobs[u.nextJob := NewJob(TagDocument(d), n)] && v.config == u.config && v.inflight == u.inflight;
  }

  /** Two failing taggings of one version both come back. */
  lemma BothTaggingsReturn(s: State, u: State, a: nat, b: nat, m: nat, n: nat)
    requires Outlived(s, u, m, n) && RowsOk(u.jobs, u.inflight, u.nextJob)
    requires a != b && a in s.jobs && b in s.jobs && a in u.inflight && b in u.inflight && u.jobs[a].kind == u.jobs[b].kind
    requires u.jobs[a].kind.TagDocument? && u.jobs[a].version == n && u.jobs[b].version == n && HasRetries(u.jobs[a]) && HasRetries(u.jobs[b])
    requires u.jobs[a].kind.doc in u.docs
    ensures var first, second := EvEndTag(a, NotVerified("UNREACHABLE")), EvEndTag(b, NotVerified("UNREACHABLE"));
      var v := Step(u, first);
      Enabled(u, first) && Enabled(v, second) && TwoCurrentRows(Step(v, second), u.jobs[a].kind, a, b)
  {
    assert AttemptOk(u.jobs[a], u.inflight[a]) && AttemptOk(u.jobs[b], u.inflight[b]);
  }

  lemma AnyOrder(ids: set<nat>) returns (rows: seq<nat>)
    ensures Enumerates(rows, ids)
  {
    rows := [];
    var left := ids;
    while left != {}
      invariant left <= ids && Distinct(rows) && forall x :: x in rows <==> x in ids && x !in left
    {
      var x :| x in left;
      rows, left := rows + [x], left - {x};
    }
  }

  // --- The condition ---------------------------------------------------------------------

  /** Whatever happens, short of creating a configuration again in this situation,
      at most one active row for the task carries the version configured then. */
  ghost predicate StaysUnique(t: State, task: JobKind) {
    forall es :: Feasible(t, es) && NeverRecreates(t, es, task) ==> OneCurrentRow(After(t, es), task)
  }

  lemma TwoAreNotOne(t: State, task: JobKind, a: nat, b: nat)
    requires TwoCurrentRows(t, task, a, b)
    ensures !OneCurrentRow(t, task)
  {
  }

  /** A continuation that keeps away from such re-creations and still ends badly. */
  ghost predicate Breaks(t: State, es: seq<Event>, task: JobKind) {
    Feasible(t, es) && NeverRecreates(t, es, task) && !OneCurrentRow(After(t, es), task)
  }

  lemma OneMoreBreaks(t: State, es: seq<Event>, e: Event, task: JobKind, a: nat, b: nat)
    requires Feasible(t, es) && NeverRecreates(t, es, task) && Enabled(After(t, es), e) && !e.EvSetTag?
    requires TwoCurrentRows(Step(After(t, es), e), task, a, b)
    ensures Breaks(t, es + [e], task)
  {
    hide Enabled, Step, OneCurrentRow, TwoCurrentRows, MayReturn;
    OneMore(t, es, e);
    TwoAreNotOne(Step(After(t, es), e), task, a, b);
  }

  lemma SyncReturnBreaks(s: State, t: State, id: nat, m0: nat) returns (es: seq<Event>)
    requires LinksInv(t) && JobsInv(t) && JobsInv(s) && id in s.jobs && Outlived(s, t, m0, 1)
    requires id in s.inflight && s.jobs[id].kind == SyncPolicy && HasRetries(s.jobs[id])
    ensures Breaks(t, es, SyncPolicy)
  {
    hide LinksInv, Enabled, Step, TwoCurrentRows, Breaks, Feasible, NeverRecreates;
    var n := s.jobs[id].version;
    assert JobOk(id, s.jobs[id], s.nextJob);
    var before, m := VersionIsReached(s, t, m0, n, SyncPolicy);
    var u := After(t, before);
    var rows := AnyOrder(u.docs.Keys);
    SyncReturns(s, u, id, m, n, rows);
    var e := EvEndSync(id, ListFailed, 0, rows);
    OneMoreBreaks(t, before, e, SyncPolicy, id, m);
    es := before + [e];
  }

  lemma TaggingReturnBreaks(s: State, t: State, id: nat, m0: nat) returns (es: seq<Event>)
    requires LinksInv(t) && JobsInv(t) && JobsInv(s) && id in s.jobs && Outlived(s, t, m0, 1)
    requires id in s.inflight && s.jobs[id].kind.TagDocument? && HasRetries(s.jobs[id])
    requires var d := s.jobs[id].kind.doc; d in s.docs && s.docs[d].ActiveLink() && s.docs[d].storageRef.Some?
    ensures Breaks(t, es, s.jobs[id].kind)
  {
    hide LinksInv, Enabled, Step, TwoCurrentRows, Breaks, Feasible, NeverRecreates, MayReturn;
    var n, task := s.jobs[id].version, s.jobs[id].kind;
    assert JobOk(id, s.jobs[id], s.nextJob);
    var before, m := VersionIsReached(s, t, m0, n, task);
    var u := After(t, before);
    var meta := RemoteDoc(s.docs[task.doc].storageRef.value, None, None, None);
    TaggingReturns(s, u, id, m, n, meta);
    var link, e := EvLink(meta, Some(task.doc)), EvEndTag(id, NotVerified("UNREACHABLE"));
    OneMore(t, before, link);
    OneMoreBreaks(t, before + [link], e, task, id, u.nextJob);
    es := before + [link] + [e];
  }

  lemma BothReturnBreak(s: State, t: State, a: nat, b: nat, m0: nat) returns (es: seq<Event>)
    requires LinksInv(t) && JobsInv(t) && JobsInv(s) && Outlived(s, t, m0, 1)
    requires a in s.jobs && BothMayReturn(s, s.jobs[a].kind, a, b) && s.jobs[a].kind.TagDocument? && s.jobs[a].kind.doc in s.docs
    ensures Breaks(t, es, s.jobs[a].kind)
  {
    hide LinksInv, Enabled, Step, TwoCurrentRows, Breaks, Feasible, NeverRecreates, MayReturn;
    var n, task := s.jobs[a].version, s.jobs[a].kind;
    assert JobOk(a, s.jobs[a], s.nextJob);
    var before, m := VersionIsReached(s, t, m0, n, task);
    BothTaggingsReturn(s, After(t, before), a, b, m, n);
    var first, second := EvEndTag(a, NotVerified("UNREACHABLE")), EvEndTag(b, NotVerified("UNREACHABLE"));
    OneMore(t, before, first);
    OneMoreBreaks(t, before + [first], second, task, a, b);
    es := before + [first] + [second];
  }

  lemma NoReturnKeeps(t: State, task: JobKind)
    requires LinksInv(t) && JobsInv(t) && CurrentRowsUnique(t, task)
    ensures StaysUnique(t, task)
  {
    hide LinksInv, JobsInv, UniqueRows;
    forall es | Feasible(t, es) && NeverRecreates(t, es, task) ensures OneCurrentRow(After(t, es), task) {
      CurrentRowsAlong(t, es, task, |es|);
      assert es[..|es|] == es;
      UniqueIsOne(After(t, es), task);
    }
  }

  lemma UniqueIsOne(t: State, task: JobKind)
    requires CurrentRowsUnique(t, task)
    ensures OneCurrentRow(t, task)
  {
  }

  ghost predicate BothMayReturn(s: State, task: JobKind, a: nat, b: nat) {
    && a != b && a in s.inflight && b in s.inflight && a in s.jobs && b in s.jobs
    && s.jobs[a].kind == task && s.jobs[b].kind == task && HasRetries(s.jobs[a]) && HasRetries(s.jobs[b])
    && s.jobs[a].version == s.jobs[b].version
  }

  /** A row that may be put back meets another one: a new one for syncs and for
      documents that are linked, else only one of its own version that may be put
      back as well. */
  ghost predicate MayMeet(s: State, task: JobKind) {
    if task.SyncPolicy? || (task.doc in s.docs && s.docs[task.doc].ActiveLink()) then MayReturn(s, task)
    else exists a, b :: BothMayReturn(s, task, a, b)
  }

  lemma SetLeavesDiffering(s: State, tagId: int, name: string, clientName: Option<string>, connection: string, d: nat)
    requires JobsInv(s) && !s.policyArchived && NotLinked(s.docs, d) && !(exists a, b :: BothMayReturn(s, TagDocument(d), a, b))
    ensures var t := SetTag(s, tagId, name, clientName, connection); NotLinked(t.docs, d) && VersionsDiffer(t, TagDocument(d))
  {
    var t := SetTag(s, tagId, name, clientName, connection);
    SetOutlives(s, tagId, name, clientName, connection);
    forall a, b | Alive(t.jobs, t.inflight, a, TagDocument(d)) && Alive(t.jobs, t.inflight, b, TagDocument(d)) && t.jobs[a].version == t.jobs[b].version
      ensures a == b
    {
      assert a in s.inflight && b in s.inflight && (a in s.jobs && b in s.jobs ==> a == b || BothMayReturn(s, TagDocument(d), a, b));
      assert AttemptOk(s.jobs[a], s.inflight[a]) && AttemptOk(s.jobs[b], s.inflight[b]);
    }
  }

  lemma DifferingStays(t: State, d: nat)
    requires LinksInv(t) && JobsInv(t) && NotLinked(t.docs, d) && VersionsDiffer(t, TagDocument(d))
    ensures StaysUnique(t, TagDocument(d))
  {
    hide LinksInv, JobsInv, NotLinked, VersionsDiffer;
    forall es | Feasible(t, es) && NeverRecreates(t, es, TagDocument(d)) ensures OneCurrentRow(After(t, es), TagDocument(d)) {
      VersionsDifferAlong(t, es, d, |es|);
      assert es[..|es|] == es;
      DifferingIsOne(After(t, es), TagDocument(d));
    }
  }

  lemma DifferingIsOne(t: State, task: JobKind)
    requires VersionsDiffer(t, task)
    ensures OneCurrentRow(t, task)
  {
    if t.config.Some? {
      forall a, b | a in t.jobs && b in t.jobs && CurrentActive(t.jobs[a], task, t.config.value.version) && CurrentActive(t.jobs[b], task, t.config.value.version)
        ensures a == b
      {
        assert Alive(t.jobs, t.inflight, a, task) && Alive(t.jobs, t.inflight, b, task);
      }
    }
  }

  lemma LinkedTaskIff(s: State, tagId: int, name: string, clientName: Option<string>, connection: string, task: JobKind)
    requires LinksInv(s) && JobsInv(s) && s.config.None? && !s.policyArchived
    requires task.SyncPolicy? || (task.doc in s.docs && s.docs[task.doc].ActiveLink())
    ensures StaysUnique(SetTag(s, tagId, name, clientName, connection), task) <==> !MayReturn(s, task)
  {
    hide LinksInv, JobsInv, SetTag, StaysUnique, UniqueRows, Outlived, Breaks;
    var t := SetTag(s, tagId, name, clientName, connection);
    SetTagKeepsLinks(s, tagId, name, clientName, connection);
    SetTagKeepsJobs(s, tagId, name, clientName, connection, task);
    if MayReturn(s, task) {
      var id :| id in s.inflight && id in s.jobs && s.jobs[id].kind == task && HasRetries(s.jobs[id]);
      SetOutlives(s, tagId, name, clientName, connection);
      if task.SyncPolicy? {
        var es := SyncReturnBreaks(s, t, id, s.nextJob);
        NotStays(t, es, task);
      } else {
        ActiveHasRef(s, task.doc);
        var es := TaggingReturnBreaks(s, t, id, s.nextJob);
        NotStays(t, es, task);
      }
    } else {
      NoReturnKeeps(t, task);
    }
  }

  lemma UnlinkedTaskIff(s: State, tagId: int, name: string, clientName: Option<string>, connection: string, d: nat)
    requires LinksInv(s) && JobsInv(s) && s.config.None? && !s.policyArchived && NotLinked(s.docs, d)
    ensures StaysUnique(SetTag(s, tagId, name, clientName, connection), TagDocument(d)) <==>
      !(exists a, b :: BothMayReturn(s, TagDocument(d), a, b))
  {
    hide LinksInv, JobsInv, SetTag, StaysUnique, Outlived, Breaks, VersionsDiffer;
    var t := SetTag(s, tagId, name, clientName, connection);
    SetTagKeepsLinks(s, tagId, name, clientName, connection);
    SetTagKeepsJobs(s, tagId, name, clientName, connection, SyncPolicy);
    if a, b :| BothMayReturn(s, TagDocument(d), a, b) {
      SetOutlives(s, tagId, name, clientName, connection);
      var es := BothReturnBreak(s, t, a, b, s.nextJob);
      NotStays(t, es, TagDocument(d));
    } else {
      SetLeavesDiffering(s, tagId, name, clientName, connection, d);
      DifferingStays(t, d);
    }
  }

  /** Creating a removed configuration again is harmless for a task in every
      continuation exactly when no row for it is being handled that may be put back
      and meet another one. */
  lemma RecreationIsSafeIff(s: State, tagId: int, name: string, clientName: Option<string>, connection: string, task: JobKind)
    requires LinksInv(s) && JobsInv(s) && s.config.None? && !s.policyArchived && (task.TagDocument? ==> task.doc in s.docs)
    ensures StaysUnique(SetTag(s, tagId, name, clientName, connection), task) <==> !MayMeet(s, task)
  {
    hide LinksInv, JobsInv, SetTag, StaysUnique, MayReturn;
    if task.SyncPolicy? || s.docs[task.doc].ActiveLink() {
      LinkedTaskIff(s, tagId, name, clientName, connection, task);
    } else {
      UnlinkedTaskIff(s, tagId, name, clientName, connection, task.doc);
    }
  }

  lemma NotStays(t: State, es: seq<Event>, task: JobKind)
    requires Breaks(t, es, task)
    ensures !StaysUnique(t, task)
  {
  }

  lemma ActiveHasRef(s: State, id: nat)
    requires LinksInv(s) && id in s.docs && s.docs[id].ActiveLink()
    ensures s.docs[id].storageRef.Some?
  {
    assert OriginsOk(s.docs[id]);
  }
}
