// The cost entries of one policy: which entry applies at a point in time, and
// how creating, changing and removing entries changes that.
module CostEntries {
  import opened Wrappers

  datatype Frequency = Monthly | Quarterly | SemiAnnual | Annual

  /** Times are milliseconds; `validTo` is inclusive. */
  datatype Entry = Entry(
    id: nat,
    validFrom: int,
    validTo: Option<int>,
    amount: Option<real>,
    frequency: Frequency,
    createdAt: int)

  predicate Covers(e: Entry, t: int) {
    e.validFrom <= t && (e.validTo.None? || e.validTo.value >= t)
  }

  /** Sorted before: the later start, for equal starts the later creation. */
  predicate Before(a: Entry, b: Entry) {
    a.validFrom > b.validFrom || (a.validFrom == b.validFrom && a.createdAt > b.createdAt)
  }

  /** The first of the covering entries in the (stable) sort order. */
  function EntryForPeriod(entries: seq<Entry>, t: int): (r: Option<Entry>)
    ensures r.None? <==> forall e :: e in entries ==> !Covers(e, t)
    ensures r.Some? ==> r.value in entries && Covers(r.value, t)
    ensures r.Some? ==> forall e :: e in entries && Covers(e, t) ==> !Before(e, r.value)
  {
    if entries == [] then None
    else
      var n := |entries| - 1;
      var best := EntryForPeriod(entries[..n], t);
      assert entries == entries[..n] + [entries[n]];
      if Covers(entries[n], t) && (best.None? || Before(entries[n], best.value)) then Some(entries[n]) else best
  }

  /** Of the covering entries the latest start applies, and of equal starts the
      entry created last. */
  lemma LatestThenNewest(entries: seq<Entry>, t: int, e: Entry)
    requires e in entries && Covers(e, t)
    ensures var r := EntryForPeriod(entries, t);
      r.Some? && (e.validFrom < r.value.validFrom || (e.validFrom == r.value.validFrom && e.createdAt <= r.value.createdAt))
  {
  }

  // --- The table invariant -------------------------------------------------------

  ghost predicate DistinctStarts(rows: seq<Entry>) {
    forall a, b :: a in rows && b in rows && a.validFrom == b.validFrom ==> a == b
  }

  /** Every id once, every start once, no entry ends before it starts. */
  ghost predicate TableInv(rows: seq<Entry>) {
    && (forall i, j :: 0 <= i < j < |rows| ==> rows[i].id != rows[j].id && rows[i].validFrom != rows[j].validFrom)
    && (forall e :: e in rows && e.validTo.Some? ==> e.validFrom <= e.validTo.value)
  }

  lemma StartsAreDistinct(rows: seq<Entry>)
    requires TableInv(rows)
    ensures DistinctStarts(rows) && forall a, b :: a in rows && b in rows && a.id == b.id ==> a == b
  {
  }

  /** With distinct starts the latest covering start decides. */
  lemma AppliesUniquely(rows: seq<Entry>, t: int, e: Entry)
    requires DistinctStarts(rows) && e in rows && Covers(e, t)
    requires forall x :: x in rows && Covers(x, t) ==> x.validFrom <= e.validFrom
    ensures EntryForPeriod(rows, t) == Some(e)
  {
  }

  /** The order in which the rows are read is irrelevant. */
  lemma AnyOrderAgrees(rows: seq<Entry>, other: seq<Entry>, t: int)
    requires DistinctStarts(rows) && forall e :: e in rows <==> e in other
    ensures EntryForPeriod(other, t) == EntryForPeriod(rows, t)
  {
    var r := EntryForPeriod(rows, t);
    if r.Some? {
      assert forall x :: x in rows && Covers(x, t) ==> !Before(x, r.value) && x.validFrom <= r.value.validFrom;
      AppliesUniquely(other, t, r.value);
    }
  }

  // --- Writes ----------------------------------------------------------------------

  /** UPDATE ... SET validTo WHERE id. */
  function SetValidTo(rows: seq<Entry>, id: nat, validTo: Option<int>): (r: seq<Entry>)
    ensures |r| == |rows|
    ensures forall i :: 0 <= i < |rows| ==> r[i] == if rows[i].id == id then rows[i].(validTo := validTo) else rows[i]
  {
    seq(|rows|, i requires 0 <= i < |rows| => if rows[i].id == id then rows[i].(validTo := validTo) else rows[i])
  }

  /** The rows with another id; also the effect of DELETE ... WHERE id. */
  function Without(rows: seq<Entry>, id: nat): (r: seq<Entry>)
    ensures forall e :: e in r <==> e in rows && e.id != id
  {
    if rows == [] then []
    else
      var n := |rows| - 1;
      assert rows == rows[..n] + [rows[n]];
      if rows[n].id == id then Without(rows[..n], id) else Without(rows[..n], id) + [rows[n]]
  }

  function EndPredecessor(rows: seq<Entry>, validFrom: int, exclude: nat): (seq<Entry>, bool) {
    var predecessor := EntryForPeriod(Without(rows, exclude), validFrom);
    if predecessor.None? then (rows, false)
    else if predecessor.value.validTo.Some? && predecessor.value.validTo.value <= validFrom - 1 then (rows, false)
    else (SetValidTo(rows, predecessor.value.id, Some(validFrom - 1)), true)
  }

  /** A row the query for the automatically ended predecessor may return. */
  predicate RestorePick(rows: seq<Entry>, validFrom: int, pick: Option<nat>) {
    if pick.None? then forall e :: e in rows ==> e.validTo != Some(validFrom - 1)
    else exists e :: e in rows && e.id == pick.value && e.validTo == Some(validFrom - 1)
  }

  function Restore(rows: seq<Entry>, pick: Option<nat>): seq<Entry> {
    if pick.None? then rows else SetValidTo(rows, pick.value, None)
  }

  datatype Rejection = NotFound | AmountRequired | ForeignDocument | NotABillingDocument | InvalidRange | Collision

  /** The document a new entry names as its source, as the query finds it among the
      unarchived documents of the policy. */
  datatype SourceDocument = NotNamed | Missing | Found(billing: bool)

  datatype CreateRequest = CreateRequest(validFrom: int, validTo: Option<int>, amount: Option<real>, frequency: Frequency, source: SourceDocument)

  predicate StartTaken(rows: seq<Entry>, validFrom: int, exclude: Option<nat>) {
    exists e :: e in rows && e.validFrom == validFrom && Some(e.id) != exclude
  }

  function NewEntry(id: nat, req: CreateRequest, now: int): Entry {
    Entry(id, req.validFrom, req.validTo, req.amount, req.frequency, now)
  }

  function Create(rows: seq<Entry>, id: nat, req: CreateRequest, now: int): Result<seq<Entry>, Rejection> {
    if req.amount.None? then Err(AmountRequired)
    else if req.source.Missing? then Err(ForeignDocument)
    else if req.source.Found? && !req.source.billing then Err(NotABillingDocument)
    else if req.validTo.Some? && req.validTo.value <= req.validFrom then Err(InvalidRange)
    else if StartTaken(rows, req.validFrom, None) then Err(Collision)
    else Ok(EndPredecessor(rows + [NewEntry(id, req, now)], req.validFrom, id).0)
  }

  datatype UpdateRequest = UpdateRequest(validFrom: Option<int>, validTo: Patch<int>, amount: Patch<real>, frequency: Option<Frequency>)

  function Find(rows: seq<Entry>, id: nat): (r: Option<Entry>)
    ensures r.None? <==> forall e :: e in rows ==> e.id != id
    ensures r.Some? ==> r.value in rows && r.value.id == id
  {
    if rows == [] then None
    else
      assert rows == [rows[0]] + rows[1..];
      if rows[0].id == id then Some(rows[0]) else Find(rows[1..], id)
  }

  /** The final validTo of an update, or why it is refused. */
  function FinalValidTo(rows: seq<Entry>, existing: Entry, req: UpdateRequest, validFrom: int): Result<Option<int>, Rejection> {
    var validTo := match req.validTo case Absent => existing.validTo case Clear => None case Set(v) => Some(v);
    if validTo.None? || validTo.value > validFrom then Ok(validTo)
    else if !req.validTo.Absent? then Err(InvalidRange)
    else if exists e :: e in rows && e.validFrom == validTo.value + 1 then Ok(None)
    else Err(InvalidRange)
  }

  function Rewrite(rows: seq<Entry>, id: nat, entry: Entry): (r: seq<Entry>)
    ensures |r| == |rows|
    ensures forall i :: 0 <= i < |rows| ==> r[i] == if rows[i].id == id then entry else rows[i]
  {
    seq(|rows|, i requires 0 <= i < |rows| => if rows[i].id == id then entry else rows[i])
  }

  /** The row an accepted update writes, or why the update is refused. */
  function Updated(rows: seq<Entry>, id: nat, req: UpdateRequest): Result<Entry, Rejection> {
    var existing := Find(rows, id);
    if existing.None? then Err(NotFound)
    else if (match req.amount case Absent => existing.value.amount.None? case Clear => true case Set(_) => false) then Err(AmountRequired)
    else
      var validFrom := if req.validFrom.Some? then req.validFrom.value else existing.value.validFrom;
      var validTo := FinalValidTo(rows, existing.value, req, validFrom);
      if validTo.Err? then Err(validTo.error)
      else if validFrom != existing.value.validFrom && StartTaken(rows, validFrom, Some(id)) then Err(Collision)
      else Ok(existing.value.(validFrom := validFrom, validTo := validTo.value,
                              amount := if req.amount.Set? then Some(req.amount.value) else existing.value.amount,
                              frequency := if req.frequency.Some? then req.frequency.value else existing.value.frequency))
  }

  /** The rows after an accepted update; `pick` is the predecessor reopened when
      the start moves forward. */
  function Moved(rows: seq<Entry>, existing: Entry, entry: Entry, pick: Option<nat>): seq<Entry> {
    var written := Rewrite(rows, entry.id, entry);
    if entry.validFrom == existing.validFrom then written
    else
      var reopened := if entry.validFrom > existing.validFrom then Restore(written, pick) else written;
      EndPredecessor(reopened, entry.validFrom, entry.id).0
  }

  function Remove(rows: seq<Entry>, id: nat, pick: Option<nat>): seq<Entry> {
    Restore(Without(rows, id), pick)
  }

  // --- Every operation keeps the invariant -------------------------------------------

  lemma SetValidToKeeps(rows: seq<Entry>, id: nat, validTo: Option<int>)
    requires TableInv(rows)
    requires validTo.Some? ==> forall e :: e in rows && e.id == id ==> e.validFrom <= validTo.value
    ensures TableInv(SetValidTo(rows, id, validTo))
  {
  }

  lemma AppendKeeps(rows: seq<Entry>, e: Entry)
    requires TableInv(rows) && (forall x :: x in rows ==> x.id != e.id && x.validFrom != e.validFrom)
    requires e.validTo.Some? ==> e.validFrom <= e.validTo.value
    ensures TableInv(rows + [e])
  {
    assert forall x :: x in rows + [e] ==> x in rows || x == e;
  }

  lemma PrefixKeeps(rows: seq<Entry>, n: nat)
    requires TableInv(rows) && n < |rows|
    ensures TableInv(rows[..n]) && forall x :: x in rows[..n] ==> x.id != rows[n].id && x.validFrom != rows[n].validFrom
    ensures rows[n].validTo.Some? ==> rows[n].validFrom <= rows[n].validTo.value
  {
    assert rows[n] in rows;
  }

  lemma {:induction false} WithoutKeeps(rows: seq<Entry>, id: nat)
    requires TableInv(rows)
    ensures TableInv(Without(rows, id))
  {
    if rows != [] {
      hide TableInv;
      var n := |rows| - 1;
      PrefixKeeps(rows, n);
      WithoutKeeps(rows[..n], id);
      if rows[n].id != id { AppendKeeps(Without(rows[..n], id), rows[n]); }
    }
  }

  /** Whoever applies at a free start really gets shorter, and stays non-empty. */
  lemma EndPredecessorShortens(rows: seq<Entry>, validFrom: int, exclude: nat)
    requires TableInv(rows) && !StartTaken(rows, validFrom, Some(exclude))
    ensures var predecessor := EntryForPeriod(Without(rows, exclude), validFrom);
      var done := EndPredecessor(rows, validFrom, exclude);
      && (done.1 <==> predecessor.Some?)
      && (predecessor.None? ==> done.0 == rows)
      && (predecessor.Some? ==>
            && predecessor.value.validFrom <= validFrom - 1
            && (predecessor.value.validTo.Some? ==> validFrom - 1 < predecessor.value.validTo.value)
            && done.0 == SetValidTo(rows, predecessor.value.id, Some(validFrom - 1)))
      && TableInv(done.0)
  {
    var predecessor := EntryForPeriod(Without(rows, exclude), validFrom);
    if predecessor.Some? {
      StartsAreDistinct(rows);
      SetValidToKeeps(rows, predecessor.value.id, Some(validFrom - 1));
    }
  }

  lemma CreateKeeps(rows: seq<Entry>, id: nat, req: CreateRequest, now: int)
    requires TableInv(rows) && (forall e :: e in rows ==> e.id < id) && Create(rows, id, req, now).Ok?
    ensures TableInv(Create(rows, id, req, now).value)
  {
    var e := NewEntry(id, req, now);
    assert forall x :: x in rows + [e] ==> x in rows || x == e;
    EndPredecessorShortens(rows + [e], req.validFrom, id);
  }

  lemma RestoreKeeps(rows: seq<Entry>, pick: Option<nat>)
    requires TableInv(rows)
    ensures TableInv(Restore(rows, pick))
  {
    if pick.Some? { SetValidToKeeps(rows, pick.value, None); }
  }

  lemma RewriteKeeps(rows: seq<Entry>, existing: Entry, entry: Entry)
    requires TableInv(rows) && existing in rows && entry.id == existing.id
    requires entry.validTo.Some? ==> entry.validFrom <= entry.validTo.value
    requires entry.validFrom == existing.validFrom || !StartTaken(rows, entry.validFrom, Some(entry.id))
    ensures TableInv(Rewrite(rows, entry.id, entry))
    ensures !StartTaken(Rewrite(rows, entry.id, entry), entry.validFrom, Some(entry.id))
    ensures entry in Rewrite(rows, entry.id, entry)
  {
    var r := Rewrite(rows, entry.id, entry);
    StartsAreDistinct(rows);
    var k :| 0 <= k < |rows| && rows[k] == existing;
    assert r[k] == entry;
    forall i, j | 0 <= i < j < |r| ensures r[i].id != r[j].id && r[i].validFrom != r[j].validFrom {
      assert rows[i] in rows && rows[j] in rows;
    }
  }

  lemma RestoredStarts(rows: seq<Entry>, pick: Option<nat>)
    ensures forall e :: e in Restore(rows, pick) ==> exists w :: w in rows && w.id == e.id && w.validFrom == e.validFrom
  {
  }

  lemma MovedKeeps(rows: seq<Entry>, existing: Entry, entry: Entry, pick: Option<nat>)
    requires TableInv(rows) && existing in rows && entry.id == existing.id
    requires entry.validTo.Some? ==> entry.validFrom <= entry.validTo.value
    requires entry.validFrom == existing.validFrom || !StartTaken(rows, entry.validFrom, Some(entry.id))
    ensures TableInv(Moved(rows, existing, entry, pick))
  {
    hide TableInv, Rewrite, Restore, EndPredecessor;
    var written := Rewrite(rows, entry.id, entry);
    RewriteKeeps(rows, existing, entry);
    RestoreKeeps(written, pick);
    RestoredStarts(written, pick);
    if entry.validFrom != existing.validFrom {
      EndPredecessorShortens(written, entry.validFrom, entry.id);
      EndPredecessorShortens(Restore(written, pick), entry.validFrom, entry.id);
    }
  }

  lemma FinalEndOk(rows: seq<Entry>, existing: Entry, req: UpdateRequest, validFrom: int)
    ensures var r := FinalValidTo(rows, existing, req, validFrom); r.Ok? && r.value.Some? ==> validFrom < r.value.value
  {
  }

  lemma UpdateKeeps(rows: seq<Entry>, id: nat, req: UpdateRequest, pick: Option<nat>)
    requires TableInv(rows) && Updated(rows, id, req).Ok?
    ensures TableInv(Moved(rows, Find(rows, id).value, Updated(rows, id, req).value, pick))
  {
    hide TableInv, FinalValidTo, Moved;
    var existing := Find(rows, id).value;
    var entry := Updated(rows, id, req).value;
    FinalEndOk(rows, existing, req, entry.validFrom);
    MovedKeeps(rows, existing, entry, pick);
  }

  lemma RemoveKeeps(rows: seq<Entry>, id: nat, pick: Option<nat>)
    requires TableInv(rows)
    ensures TableInv(Remove(rows, id, pick))
  {
    WithoutKeeps(rows, id);
    RestoreKeeps(Without(rows, id), pick);
  }
}
