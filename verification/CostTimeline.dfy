// What the operations on cost entries do to the function "time -> applied entry".
module CostTimeline {
  import opened Wrappers
  import opened CostEntries

  /** The same entry apart from its end. */
  predicate SameEntry(a: Option<Entry>, b: Option<Entry>) {
    if a.None? then b.None? else b.Some? && b.value == a.value.(validTo := b.value.validTo)
  }

  ghost predicate Covered(rows: seq<Entry>, t: int) { exists e :: e in rows && Covers(e, t) }

  // --- Creating ----------------------------------------------------------------------

  /** The rows after `e` was added and its predecessor cut. */
  function Inserted(rows: seq<Entry>, e: Entry): seq<Entry> {
    var predecessor := EntryForPeriod(rows, e.validFrom);
    if predecessor.None? then rows + [e] else SetValidTo(rows + [e], predecessor.value.id, Some(e.validFrom - 1))
  }

  /** The new row excluded, the other rows decide who applies. */
  lemma NewRowExcluded(rows: seq<Entry>, e: Entry, t: int)
    requires DistinctStarts(rows) && forall x :: x in rows ==> x.id != e.id
    ensures EntryForPeriod(Without(rows + [e], e.id), t) == EntryForPeriod(rows, t)
  {
    hide Without, EntryForPeriod;
    var all := rows + [e];
    assert forall x :: x in all <==> x in rows || x == e;
    AnyOrderAgrees(rows, Without(all, e.id), t);
  }

  lemma CreateInserts(rows: seq<Entry>, id: nat, req: CreateRequest, now: int)
    requires TableInv(rows) && (forall x :: x in rows ==> x.id < id) && Create(rows, id, req, now).Ok?
    ensures var e := NewEntry(id, req, now);
      Create(rows, id, req, now).value == Inserted(rows, e) && TableInv(Inserted(rows, e))
  {
    hide TableInv, Without, EntryForPeriod, SetValidTo, EndPredecessor;
    var e := NewEntry(id, req, now);
    AppendKeeps(rows, e);
    assert !StartTaken(rows + [e], req.validFrom, Some(id));
    EndPredecessorShortens(rows + [e], req.validFrom, id);
    StartsAreDistinct(rows);
    NewRowExcluded(rows, e, req.validFrom);
  }

  /** `after` is `rows` with `e` added and `cut` shortened to end before `e`. */
  ghost predicate CutAndAdded(rows: seq<Entry>, after: seq<Entry>, e: Entry, cut: Option<Entry>) {
    && e in after
    && (forall x :: x in after ==>
          || x == e
          || (x in rows && (cut.Some? ==> x.id != cut.value.id))
          || (cut.Some? && x == cut.value.(validTo := Some(e.validFrom - 1))))
    && (forall x :: x in rows && (cut.Some? ==> x.id != cut.value.id) ==> x in after)
    && (cut.Some? ==> cut.value in rows && cut.value.(validTo := Some(e.validFrom - 1)) in after)
  }

  lemma AppendMembers(rows: seq<Entry>, e: Entry)
    ensures CutAndAdded(rows, rows + [e], e, None)
  {
    assert forall x :: x in rows + [e] <==> x in rows || x == e;
  }

  lemma CutMembers(rows: seq<Entry>, e: Entry, cut: Entry)
    requires cut in rows && (forall a, b :: a in rows && b in rows && a.id == b.id ==> a == b) && (forall x :: x in rows ==> x.id != e.id)
    ensures CutAndAdded(rows, SetValidTo(rows + [e], cut.id, Some(e.validFrom - 1)), e, Some(cut))
  {
    hide SetValidTo;
    var all := rows + [e];
    var after := SetValidTo(all, cut.id, Some(e.validFrom - 1));
    assert after[|rows|] == e;
    forall x | x in rows ensures (if x.id == cut.id then x.(validTo := Some(e.validFrom - 1)) else x) in after {
      var i :| 0 <= i < |rows| && rows[i] == x;
      assert all[i] == x;
      assert after[i] in after;
    }
    forall x | x in after ensures x == e || (x in rows && x.id != cut.id) || x == cut.(validTo := Some(e.validFrom - 1)) {
      var i :| 0 <= i < |after| && after[i] == x;
      if i < |rows| { assert all[i] == rows[i] && rows[i] in rows; }
    }
  }

  lemma InsertedMembers(rows: seq<Entry>, e: Entry)
    requires TableInv(rows) && (forall x :: x in rows ==> x.id != e.id)
    ensures CutAndAdded(rows, Inserted(rows, e), e, EntryForPeriod(rows, e.validFrom))
  {
    hide TableInv, EntryForPeriod, SetValidTo, CutAndAdded;
    StartsAreDistinct(rows);
    var cut := EntryForPeriod(rows, e.validFrom);
    if cut.Some? { CutMembers(rows, e, cut.value); } else { AppendMembers(rows, e); }
  }

  /** Creating an entry `e` changes who applies at t exactly so: nothing before
      its start; later starters keep applying; otherwise `e` where it covers t,
      and the old function without the cut predecessor where it does not. */
  lemma CreateChangesApplied(rows: seq<Entry>, id: nat, req: CreateRequest, now: int, t: int)
    requires TableInv(rows) && (forall x :: x in rows ==> x.id < id) && Create(rows, id, req, now).Ok?
    ensures var e := NewEntry(id, req, now);
      var before := EntryForPeriod(rows, t);
      var after := EntryForPeriod(Create(rows, id, req, now).value, t);
      var cut := EntryForPeriod(rows, e.validFrom);
      if t < e.validFrom then SameEntry(before, after)
      else if before.Some? && before.value.validFrom > e.validFrom then after == before
      else if Covers(e, t) then after == Some(e)
      else after == EntryForPeriod(if cut.Some? then Without(rows, cut.value.id) else rows, t)
  {
    hide TableInv, EntryForPeriod, Without, SetValidTo, Create, Inserted;
    var e := NewEntry(id, req, now);
    var all := Create(rows, id, req, now).value;
    var cut := EntryForPeriod(rows, e.validFrom);
    CreateInserts(rows, id, req, now);
    InsertedMembers(rows, e);
    StartsAreDistinct(rows);
    StartsAreDistinct(all);
    var before := EntryForPeriod(rows, t);
    if t < e.validFrom {
      AppliedBefore(rows, all, e, cut, t);
    } else {
      AppliedFrom(rows, all, e, cut, t);
    }
  }

  lemma AppliedBefore(rows: seq<Entry>, all: seq<Entry>, e: Entry, cut: Option<Entry>, t: int)
    requires DistinctStarts(all) && t < e.validFrom && CutAndAdded(rows, all, e, cut)
    requires forall a, b :: a in rows && b in rows && a.id == b.id ==> a == b
    requires cut == EntryForPeriod(rows, e.validFrom)
    ensures SameEntry(EntryForPeriod(rows, t), EntryForPeriod(all, t))
  {
    hide EntryForPeriod;
    var before := EntryForPeriod(rows, t);
    if before.Some? {
      var b := before.value;
      AppliesUniquely(all, t, if cut == before then b.(validTo := Some(e.validFrom - 1)) else b);
    } else {
      assert cut.Some? ==> !Covers(cut.value, t);
      assert forall x :: x in all ==> !Covers(x, t);
    }
  }

  lemma AppliedFrom(rows: seq<Entry>, all: seq<Entry>, e: Entry, cut: Option<Entry>, t: int)
    requires DistinctStarts(rows) && DistinctStarts(all) && t >= e.validFrom && CutAndAdded(rows, all, e, cut)
    requires forall a, b :: a in rows && b in rows && a.id == b.id ==> a == b
    requires cut == EntryForPeriod(rows, e.validFrom) && forall x :: x in rows ==> x.validFrom != e.validFrom
    ensures var before := EntryForPeriod(rows, t);
      var after := EntryForPeriod(all, t);
      if before.Some? && before.value.validFrom > e.validFrom then after == before
      else if Covers(e, t) then after == Some(e)
      else after == EntryForPeriod(if cut.Some? then Without(rows, cut.value.id) else rows, t)
  {
    hide EntryForPeriod, Without;
    var before := EntryForPeriod(rows, t);
    if before.Some? && before.value.validFrom > e.validFrom {
      AppliesUniquely(all, t, before.value);
    } else if Covers(e, t) {
      AppliesUniquely(all, t, e);
    } else {
      var expected := EntryForPeriod(if cut.Some? then Without(rows, cut.value.id) else rows, t);
      if expected.Some? { AppliesUniquely(all, t, expected.value); }
    }
  }

  // --- No gap --------------------------------------------------------------------------

  ghost predicate EndedAt(rows: seq<Entry>, t: int) { exists e :: e in rows && e.validTo == Some(t) }

  lemma UpdatedMembers(rows: seq<Entry>, id: nat, validTo: Option<int>)
    ensures forall x :: x in rows ==> (if x.id == id then x.(validTo := validTo) else x) in SetValidTo(rows, id, validTo)
  {
    forall x | x in rows ensures (if x.id == id then x.(validTo := validTo) else x) in SetValidTo(rows, id, validTo) {
      var i :| 0 <= i < |rows| && rows[i] == x;
      assert SetValidTo(rows, id, validTo)[i] in SetValidTo(rows, id, validTo);
    }
  }

  /** A row that ended exactly before `from` and is open-ended after the restore. */
  ghost predicate Reopened(rows: seq<Entry>, after: seq<Entry>, from: int, p: Entry) {
    && p in rows && p.validTo == Some(from - 1) && p.(validTo := None) in after
    && forall x :: x in rows && x != p ==> x in after
  }

  lemma RestoreReopens(rows: seq<Entry>, from: int, pick: Option<nat>) returns (p: Entry)
    requires TableInv(rows) && RestorePick(rows, from, pick) && EndedAt(rows, from - 1)
    ensures Reopened(rows, Restore(rows, pick), from, p)
  {
    StartsAreDistinct(rows);
    p :| p in rows && p.id == pick.value && p.validTo == Some(from - 1);
    UpdatedMembers(rows, p.id, None);
  }

  /** Removing an entry whose predecessor was ended right before it uncovers nothing. */
  lemma RemoveLeavesNoGap(rows: seq<Entry>, id: nat, pick: Option<nat>, t: int)
    requires TableInv(rows) && Find(rows, id).Some?
    requires var from := Find(rows, id).value.validFrom; EndedAt(rows, from - 1) && RestorePick(Without(rows, id), from, pick)
    requires Covered(rows, t)
    ensures Covered(Remove(rows, id, pick), t)
  {
    hide Without, Find, SetValidTo;
    var e := Find(rows, id).value;
    var rest := Without(rows, id);
    WithoutKeeps(rows, id);
    var ended :| ended in rows && ended.validTo == Some(e.validFrom - 1);
    StartsAreDistinct(rows);
    assert ended in rest;
    var p := RestoreReopens(rest, e.validFrom, pick);
    var x :| x in rows && Covers(x, t);
    if x == e || x == p {
      assert Covers(p.(validTo := None), t);
    } else {
      assert x in Restore(rest, pick);
    }
  }

  lemma RewriteMembers(rows: seq<Entry>, existing: Entry, entry: Entry)
    requires TableInv(rows) && existing in rows && existing.id == entry.id
    ensures entry in Rewrite(rows, entry.id, entry)
    ensures forall x :: x in rows && x != existing ==> x in Rewrite(rows, entry.id, entry)
  {
    StartsAreDistinct(rows);
    forall x | x in rows ensures (if x == existing then entry else x) in Rewrite(rows, entry.id, entry) {
      var i :| 0 <= i < |rows| && rows[i] == x;
      assert Rewrite(rows, entry.id, entry)[i] in Rewrite(rows, entry.id, entry);
    }
  }

  /** `x` is the row `y`, cut right before `from` because it applied there. */
  predicate CutFrom(y: Entry, x: Entry, from: int) {
    x == y.(validTo := Some(from - 1)) && Covers(y, from)
  }

  lemma EndPredecessorTouches(rows: seq<Entry>, validFrom: int, exclude: nat)
    requires TableInv(rows)
    ensures var after := EndPredecessor(rows, validFrom, exclude).0;
      && (forall x :: x in rows && x.id == exclude ==> x in after)
      && (forall x :: x in after ==> x in rows || (x.id != exclude && exists y :: y in rows && CutFrom(y, x, validFrom)))
  {
    var predecessor := EntryForPeriod(Without(rows, exclude), validFrom);
    StartsAreDistinct(rows);
    if predecessor.Some? {
      UpdatedMembers(rows, predecessor.value.id, Some(validFrom - 1));
    }
  }

  /** An accepted update writes what was submitted and keeps the rest of the row;
      unless the start moves forward no other row is reopened, and at most the one
      in force at the new start is cut. */
  lemma UpdateEffect(rows: seq<Entry>, id: nat, req: UpdateRequest, pick: Option<nat>)
    requires TableInv(rows) && Updated(rows, id, req).Ok?
    requires var existing := Find(rows, id).value; var entry := Updated(rows, id, req).value;
      entry.validFrom > existing.validFrom ==> RestorePick(Rewrite(rows, id, entry), existing.validFrom, pick)
    ensures var existing := Find(rows, id).value;
      var entry := Updated(rows, id, req).value;
      var after := Moved(rows, existing, entry, pick);
      && entry in after && entry.id == id && entry.createdAt == existing.createdAt
      && entry.amount.Some? && (req.amount.Absent? ==> entry.amount == existing.amount) && (req.amount.Set? ==> entry.amount == Some(req.amount.value))
      && entry.validFrom == (if req.validFrom.Some? then req.validFrom.value else existing.validFrom)
      && (req.validTo.Set? ==> entry.validTo == Some(req.validTo.value)) && (req.validTo.Clear? ==> entry.validTo.None?)
      && (req.validTo.Absent? ==>
            entry.validTo == if existing.validTo.None? || existing.validTo.value > entry.validFrom then existing.validTo else None)
      && entry.frequency == (if req.frequency.Some? then req.frequency.value else existing.frequency)
      && (entry.validFrom <= existing.validFrom ==>
            forall x :: x in after && x.id != id ==> x in rows || exists y :: y in rows && CutFrom(y, x, entry.validFrom))
  {
    hide TableInv, EndPredecessor, Rewrite, Restore, RestorePick, StartTaken;
    var existing := Find(rows, id).value;
    var entry := Updated(rows, id, req).value;
    var written := Rewrite(rows, id, entry);
    FinalEndOk(rows, existing, req, entry.validFrom);
    RewriteKeeps(rows, existing, entry);
    RewriteMembers(rows, existing, entry);
    RestoreKeeps(written, pick);
    EndPredecessorTouches(written, entry.validFrom, id);
    EndPredecessorTouches(Restore(written, pick), entry.validFrom, id);
    RewrittenFrom(rows, entry);
    if entry.validFrom > existing.validFrom { StillThere(written, entry, existing.validFrom, pick); }
  }

  /** The row just written is not the one that is reopened. */
  lemma StillThere(rows: seq<Entry>, entry: Entry, from: int, pick: Option<nat>)
    requires TableInv(rows) && entry in rows && from < entry.validFrom && RestorePick(rows, from, pick)
    ensures entry in Restore(rows, pick)
  {
    StartsAreDistinct(rows);
    if pick.Some? { UpdatedMembers(rows, pick.value, None); }
  }

  /** An update is refused for the first of these reasons that holds, and accepted
      when none does: no such entry; no amount left; an end that is not after the
      start - a submitted one, or an old one that no later entry had caused; a start
      that another entry has. */
  lemma UpdateAcceptedIff(rows: seq<Entry>, id: nat, req: UpdateRequest, e: Entry)
    requires TableInv(rows) && e in rows && e.id == id
    ensures var from := if req.validFrom.Some? then req.validFrom.value else e.validFrom;
      var amountLeft := req.amount.Set? || (req.amount.Absent? && e.amount.Some?);
      var endFits := match req.validTo
        case Clear => true
        case Set(end) => end > from
        case Absent => e.validTo.None? || e.validTo.value > from || exists x :: x in rows && x.validFrom == e.validTo.value + 1;
      var startFree := from == e.validFrom || forall x :: x in rows && x.id != id ==> x.validFrom != from;
      if !amountLeft then Updated(rows, id, req) == Err(AmountRequired)
      else if !endFits then Updated(rows, id, req) == Err(InvalidRange)
      else if !startFree then Updated(rows, id, req) == Err(Collision)
      else Updated(rows, id, req).Ok?
  {
    StartsAreDistinct(rows);
  }

  lemma UpdateOfNothing(rows: seq<Entry>, id: nat, req: UpdateRequest)
    requires forall e :: e in rows ==> e.id != id
    ensures Updated(rows, id, req) == Err(NotFound)
  {
  }

  /** A creation is refused for the first of these reasons that holds, and accepted
      when none does; then the new row says what was submitted. */
  lemma CreateAcceptedIff(rows: seq<Entry>, id: nat, req: CreateRequest, now: int)
    requires TableInv(rows) && (forall x :: x in rows ==> x.id < id)
    ensures var r := Create(rows, id, req, now);
      if req.amount.None? then r == Err(AmountRequired)
      else if req.source == Missing then r == Err(ForeignDocument)
      else if req.source == Found(false) then r == Err(NotABillingDocument)
      else if req.validTo.Some? && req.validTo.value <= req.validFrom then r == Err(InvalidRange)
      else if exists x :: x in rows && x.validFrom == req.validFrom then r == Err(Collision)
      else
        && r.Ok?
        && exists e :: e in r.value && e.id == id && e.validFrom == req.validFrom && e.validTo == req.validTo && e.amount == req.amount
                       && e.frequency == req.frequency && e.createdAt == now
  {
    hide EndPredecessor, TableInv;
    if Create(rows, id, req, now).Ok? {
      NewRowStays(rows, id, req, now);
    }
  }

  lemma NewRowStays(rows: seq<Entry>, id: nat, req: CreateRequest, now: int)
    requires TableInv(rows) && (forall x :: x in rows ==> x.id < id) && Create(rows, id, req, now).Ok?
    ensures NewEntry(id, req, now) in Create(rows, id, req, now).value
  {
    hide Create, Inserted, TableInv;
    CreateInserts(rows, id, req, now);
    InsertedMembers(rows, NewEntry(id, req, now));
  }

  lemma RewrittenFrom(rows: seq<Entry>, entry: Entry)
    ensures forall x :: x in Rewrite(rows, entry.id, entry) ==> x == entry || (x in rows && x.id != entry.id)
  {
  }

  lemma UpdatedFacts(rows: seq<Entry>, id: nat, req: UpdateRequest)
    requires TableInv(rows) && Updated(rows, id, req).Ok? && req.validTo.Absent?
    ensures var existing := Find(rows, id).value; var entry := Updated(rows, id, req).value;
      && entry.id == id
      && (entry.validTo == existing.validTo || entry.validTo.None?)
      && TableInv(Rewrite(rows, id, entry))
      && !StartTaken(Rewrite(rows, id, entry), entry.validFrom, Some(id))
  {
    RewriteKeeps(rows, Find(rows, id).value, Updated(rows, id, req).value);
  }

  /** After the cut at `entry` a time stays covered when the reopened row covers
      it before the cut, or another row covers it. */
  lemma CutKeepsCover(reopened: seq<Entry>, entry: Entry, open: Entry, t: int)
    requires TableInv(reopened) && !StartTaken(reopened, entry.validFrom, Some(entry.id))
    requires entry in reopened && open in reopened && open.validTo.None? && open.id != entry.id && open.validFrom < entry.validFrom
    requires open.validFrom <= t < entry.validFrom || exists x :: x in reopened && x != open && Covers(x, t)
    ensures Covered(EndPredecessor(reopened, entry.validFrom, entry.id).0, t)
  {
    hide Without, SetValidTo, EntryForPeriod, EndPredecessor, TableInv;
    EndPredecessorShortens(reopened, entry.validFrom, entry.id);
    assert open in Without(reopened, entry.id) && Covers(open, entry.validFrom);
    var c := EntryForPeriod(Without(reopened, entry.id), entry.validFrom).value;
    StartsAreDistinct(reopened);
    var after := EndPredecessor(reopened, entry.validFrom, entry.id).0;
    UpdatedMembers(reopened, c.id, Some(entry.validFrom - 1));
    var shortened := c.(validTo := Some(entry.validFrom - 1));
    if t < entry.validFrom {
      if c == open || Covers(c, t) {
        assert shortened in after && (Covers(c, t) || open.validFrom <= t ==> Covers(shortened, t));
      }
      var x := if open.validFrom <= t then open else var y :| y in reopened && y != open && Covers(y, t); y;
      assert Covers(x, t) && (x.id != c.id ==> x in after);
    } else if c != open {
      assert Covers(open, t) && open in after;
    } else {
      var x :| x in reopened && x != open && Covers(x, t);
      assert x in after;
    }
  }

  /** Moving a start forward, its end not submitted, uncovers nothing when an
      entry was ended right before the old start. */
  lemma MoveForwardLeavesNoGap(rows: seq<Entry>, id: nat, req: UpdateRequest, pick: Option<nat>, t: int)
    requires TableInv(rows) && Updated(rows, id, req).Ok? && req.validTo.Absent?
    requires var existing := Find(rows, id).value; var entry := Updated(rows, id, req).value;
      && entry.validFrom > existing.validFrom && EndedAt(rows, existing.validFrom - 1)
      && RestorePick(Rewrite(rows, id, entry), existing.validFrom, pick)
    requires Covered(rows, t)
    ensures Covered(Moved(rows, Find(rows, id).value, Updated(rows, id, req).value, pick), t)
  {
    hide Rewrite, Restore, RestorePick, EndPredecessor, FinalValidTo, TableInv, Covered, EndedAt, StartTaken;
    var existing := Find(rows, id).value;
    var entry := Updated(rows, id, req).value;
    var written := Rewrite(rows, id, entry);
    UpdatedFacts(rows, id, req);
    RewriteMembers(rows, existing, entry);
    MoveForwardCovers(rows, written, existing, entry, pick, t);
  }

  lemma MoveForwardCovers(rows: seq<Entry>, written: seq<Entry>, existing: Entry, entry: Entry, pick: Option<nat>, t: int)
    requires TableInv(rows) && TableInv(written) && existing in rows && entry in written && existing.id == entry.id
    requires forall x :: x in rows && x != existing ==> x in written
    requires entry.validFrom > existing.validFrom && (entry.validTo == existing.validTo || entry.validTo.None?)
    requires !StartTaken(written, entry.validFrom, Some(entry.id))
    requires RestorePick(written, existing.validFrom, pick) && EndedAt(rows, existing.validFrom - 1)
    requires Covered(rows, t)
    ensures Covered(EndPredecessor(Restore(written, pick), entry.validFrom, entry.id).0, t)
  {
    hide EndPredecessor, Restore;
    var ended :| ended in rows && ended.validTo == Some(existing.validFrom - 1);
    assert ended != existing;
    var p := RestoreReopens(written, existing.validFrom, pick);
    var open := p.(validTo := None);
    var reopened := Restore(written, pick);
    RestoreKeeps(written, pick);
    StartsAreDistinct(written);
    assert p != entry && entry in reopened;
    RestoredStarts(written, pick);
    var x :| x in rows && Covers(x, t);
    if x == existing {
      assert t >= entry.validFrom ==> Covers(entry, t);
    } else if x != p {
      assert x in reopened && x != open;
    }
    CutKeepsCover(reopened, entry, open, t);
  }

  // --- Undoing a creation ------------------------------------------------------------------

  lemma {:induction false} WithoutAbsent(rows: seq<Entry>, id: nat)
    requires forall e :: e in rows ==> e.id != id
    ensures Without(rows, id) == rows
  {
    if rows != [] {
      var n := |rows| - 1;
      assert rows == rows[..n] + [rows[n]];
      WithoutAbsent(rows[..n], id);
    }
  }

  lemma WithoutAppended(rows: seq<Entry>, e: Entry)
    requires forall x :: x in rows ==> x.id != e.id
    ensures Without(rows + [e], e.id) == rows
  {
    WithoutAbsent(rows, e.id);
    assert (rows + [e])[..|rows|] == rows;
  }

  lemma SetValidToAppended(rows: seq<Entry>, e: Entry, id: nat, end: int)
    requires id != e.id && forall x :: x in rows ==> x.id != e.id
    ensures SetValidTo(rows + [e], id, Some(end)) == SetValidTo(rows, id, Some(end)) + [e]
    ensures forall x :: x in SetValidTo(rows, id, Some(end)) ==> x.id != e.id
  {
    hide SetValidTo;
    forall x | x in SetValidTo(rows, id, Some(end)) ensures x.id != e.id {
      var i :| 0 <= i < |rows| && SetValidTo(rows, id, Some(end))[i] == x;
      assert rows[i] in rows;
    }
  }

  lemma WithoutNew(rows: seq<Entry>, e: Entry, cut: Option<Entry>, end: int)
    requires (forall x :: x in rows ==> x.id != e.id) && (cut.Some? ==> cut.value.id != e.id)
    ensures Without(rows + [e], e.id) == rows
    ensures cut.Some? ==> Without(SetValidTo(rows + [e], cut.value.id, Some(end)), e.id) == SetValidTo(rows, cut.value.id, Some(end))
  {
    hide Without, SetValidTo;
    WithoutAppended(rows, e);
    if cut.Some? {
      SetValidToAppended(rows, e, cut.value.id, end);
      WithoutAppended(SetValidTo(rows, cut.value.id, Some(end)), e);
    }
  }

  lemma WithoutCreated(rows: seq<Entry>, id: nat, req: CreateRequest, now: int)
    requires TableInv(rows) && (forall x :: x in rows ==> x.id < id) && Create(rows, id, req, now).Ok?
    ensures var cut := EntryForPeriod(rows, req.validFrom);
      Without(Create(rows, id, req, now).value, id) == if cut.None? then rows else SetValidTo(rows, cut.value.id, Some(req.validFrom - 1))
  {
    hide Create, TableInv, EntryForPeriod, Without, SetValidTo, Covers, StartTaken;
    var e := NewEntry(id, req, now);
    CreateInserts(rows, id, req, now);
    WithoutNew(rows, e, EntryForPeriod(rows, req.validFrom), req.validFrom - 1);
  }

  lemma RemoveIsRestore(rows: seq<Entry>, id: nat)
    ensures forall pick :: Remove(rows, id, pick) == Restore(Without(rows, id), pick)
  {
  }

  /** Removing the entry just created gives back the table, whichever row the
      query picks, exactly when nothing ended right before its start and the cut
      predecessor (if any) was open-ended. */
  lemma CreateThenRemoveRestoresIff(rows: seq<Entry>, id: nat, req: CreateRequest, now: int)
    requires TableInv(rows) && (forall x :: x in rows ==> x.id < id) && Create(rows, id, req, now).Ok?
    ensures var created := Create(rows, id, req, now).value;
      var cut := EntryForPeriod(rows, req.validFrom);
      (forall pick :: RestorePick(Without(created, id), req.validFrom, pick) ==> Remove(created, id, pick) == rows)
      <==> !EndedAt(rows, req.validFrom - 1) && (cut.Some? ==> cut.value.validTo.None?)
  {
    hide Create, TableInv, EntryForPeriod, Without, SetValidTo, Restore, RestorePick, EndedAt, StartTaken, Covers;
    var cut := EntryForPeriod(rows, req.validFrom);
    WithoutCreated(rows, id, req, now);
    StartsAreDistinct(rows);
    RemoveIsRestore(Create(rows, id, req, now).value, id);
    if cut.None? {
      UncutRestoresIff(rows, req.validFrom);
    } else {
      CutRestoresIff(rows, cut.value, req.validFrom);
    }
  }

  lemma UncutRestoresIff(rows: seq<Entry>, from: int)
    ensures (forall pick :: RestorePick(rows, from, pick) ==> Restore(rows, pick) == rows) <==> !EndedAt(rows, from - 1)
  {
    hide SetValidTo;
    if EndedAt(rows, from - 1) {
      var x :| x in rows && x.validTo == Some(from - 1);
      assert RestorePick(rows, from, Some(x.id));
      RestoreChanges(rows, x);
    }
  }

  lemma RestoreChanges(rows: seq<Entry>, x: Entry)
    requires x in rows && x.validTo.Some?
    ensures Restore(rows, Some(x.id)) != rows
  {
    var i :| 0 <= i < |rows| && rows[i] == x;
    assert Restore(rows, Some(x.id))[i].validTo.None?;
  }

  lemma CutRestoresIff(rows: seq<Entry>, cut: Entry, from: int)
    requires cut in rows && Covers(cut, from) && (forall a, b :: a in rows && b in rows && a.id == b.id ==> a == b)
    ensures var shortened := SetValidTo(rows, cut.id, Some(from - 1));
      (forall pick :: RestorePick(shortened, from, pick) ==> Restore(shortened, pick) == rows)
      <==> !EndedAt(rows, from - 1) && cut.validTo.None?
  {
    hide Restore, RestorePick, SetValidTo;
    var shortened := SetValidTo(rows, cut.id, Some(from - 1));
    if !EndedAt(rows, from - 1) && cut.validTo.None? {
      forall pick | RestorePick(shortened, from, pick) ensures Restore(shortened, pick) == rows {
        CutRowIsPicked(rows, cut, from, pick);
      }
    } else if cut.validTo.Some? {
      PickSpoils(rows, cut, from, cut);
    } else {
      var x :| x in rows && x.validTo == Some(from - 1);
      PickSpoils(rows, cut, from, x);
    }
  }

  /** Picking `x`, a row with an end of its own, does not give back the table. */
  lemma PickSpoils(rows: seq<Entry>, cut: Entry, from: int, x: Entry)
    requires x in rows && x.validTo.Some? && (x == cut || (x.id != cut.id && x.validTo == Some(from - 1)))
    ensures var shortened := SetValidTo(rows, cut.id, Some(from - 1));
      RestorePick(shortened, from, Some(x.id)) && Restore(shortened, Some(x.id)) != rows
  {
    var shortened := SetValidTo(rows, cut.id, Some(from - 1));
    var k :| 0 <= k < |rows| && rows[k] == x;
    assert shortened[k] in shortened;
    assert Restore(shortened, Some(x.id))[k].validTo.None?;
  }

  lemma OnlyCutEnded(rows: seq<Entry>, cut: Entry, from: int, x: Entry)
    requires !EndedAt(rows, from - 1) && x in SetValidTo(rows, cut.id, Some(from - 1)) && x.validTo == Some(from - 1)
    ensures x.id == cut.id
  {
    hide SetValidTo;
    var k :| 0 <= k < |rows| && SetValidTo(rows, cut.id, Some(from - 1))[k] == x;
    assert rows[k] in rows;
  }

  lemma CutThenReopened(rows: seq<Entry>, cut: Entry, end: int)
    requires cut in rows && cut.validTo.None? && forall a, b :: a in rows && b in rows && a.id == b.id ==> a == b
    ensures SetValidTo(SetValidTo(rows, cut.id, Some(end)), cut.id, None) == rows
  {
    hide SetValidTo;
    var back := SetValidTo(SetValidTo(rows, cut.id, Some(end)), cut.id, None);
    forall m | 0 <= m < |rows| ensures back[m] == rows[m] {
      assert rows[m] in rows;
    }
  }

  lemma CutRowIsPicked(rows: seq<Entry>, cut: Entry, from: int, pick: Option<nat>)
    requires cut in rows && cut.validTo.None? && !EndedAt(rows, from - 1)
    requires forall a, b :: a in rows && b in rows && a.id == b.id ==> a == b
    requires RestorePick(SetValidTo(rows, cut.id, Some(from - 1)), from, pick)
    ensures Restore(SetValidTo(rows, cut.id, Some(from - 1)), pick) == rows
  {
    hide SetValidTo, EndedAt;
    var shortened := SetValidTo(rows, cut.id, Some(from - 1));
    UpdatedMembers(rows, cut.id, Some(from - 1));
    assert cut.(validTo := Some(from - 1)) in shortened;
    var x :| x in shortened && x.id == pick.value && x.validTo == Some(from - 1);
    OnlyCutEnded(rows, cut, from, x);
    CutThenReopened(rows, cut, from - 1);
  }

  // --- Runs ------------------------------------------------------------------------------------

  datatype Op =
    | OpCreate(create: CreateRequest, now: int)
    | OpUpdate(id: nat, update: UpdateRequest, pick: Option<nat>)
    | OpRemove(id: nat, pick: Option<nat>)

  datatype Table = Table(rows: seq<Entry>, nextId: nat)

  function Apply(t: Table, op: Op): Table {
    match op
    case OpCreate(req, now) =>
      var r := Create(t.rows, t.nextId, req, now);
      if r.Ok? then Table(r.value, t.nextId + 1) else t
    case OpUpdate(id, req, pick) =>
      var r := Updated(t.rows, id, req);
      if r.Ok? then t.(rows := Moved(t.rows, Find(t.rows, id).value, r.value, pick)) else t
    case OpRemove(id, pick) => if Find(t.rows, id).Some? then t.(rows := Remove(t.rows, id, pick)) else t
  }

  function ApplyAll(t: Table, ops: seq<Op>): Table {
    if ops == [] then t else Apply(ApplyAll(t, ops[..|ops| - 1]), ops[|ops| - 1])
  }

  ghost predicate Sound(t: Table) {
    TableInv(t.rows) && forall e :: e in t.rows ==> e.id < t.nextId
  }

  lemma EndPredecessorIds(rows: seq<Entry>, validFrom: int, exclude: nat, bound: nat)
    requires forall e :: e in rows ==> e.id < bound
    ensures forall e :: e in EndPredecessor(rows, validFrom, exclude).0 ==> e.id < bound
  {
  }

  lemma ApplyKeepsSound(t: Table, op: Op)
    requires Sound(t)
    ensures Sound(Apply(t, op))
  {
    hide TableInv, EndPredecessor, Without, FinalValidTo, Moved;
    match op
    case OpCreate(req, now) =>
      if Create(t.rows, t.nextId, req, now).Ok? {
        CreateKeeps(t.rows, t.nextId, req, now);
        EndPredecessorIds(t.rows + [NewEntry(t.nextId, req, now)], req.validFrom, t.nextId, t.nextId + 1);
      }
    case OpUpdate(id, req, pick) =>
      if Updated(t.rows, id, req).Ok? {
        UpdateKeeps(t.rows, id, req, pick);
        MovedIds(t.rows, Find(t.rows, id).value, Updated(t.rows, id, req).value, pick, t.nextId);
      }
    case OpRemove(id, pick) =>
      RemoveKeeps(t.rows, id, pick);
  }

  lemma MovedIds(rows: seq<Entry>, existing: Entry, entry: Entry, pick: Option<nat>, bound: nat)
    requires entry.id < bound && forall e :: e in rows ==> e.id < bound
    ensures forall e :: e in Moved(rows, existing, entry, pick) ==> e.id < bound
  {
    hide EndPredecessor;
    var written := Rewrite(rows, entry.id, entry);
    EndPredecessorIds(written, entry.validFrom, entry.id, bound);
    EndPredecessorIds(Restore(written, pick), entry.validFrom, entry.id, bound);
  }

  /** Whatever was created, changed and removed: starts stay distinct and no
      entry ends before it starts, so reading the rows in any order gives the
      same applied entry at every time. */
  lemma {:induction false} ReachableTables(t: Table, ops: seq<Op>)
    requires Sound(t)
    ensures var end := ApplyAll(t, ops);
      && Sound(end)
      && forall other, time :: (forall e :: e in end.rows <==> e in other) ==> EntryForPeriod(other, time) == EntryForPeriod(end.rows, time)
  {
    if ops != [] {
      ReachableTables(t, ops[..|ops| - 1]);
      ApplyKeepsSound(ApplyAll(t, ops[..|ops| - 1]), ops[|ops| - 1]);
    }
    var end := ApplyAll(t, ops);
    StartsAreDistinct(end.rows);
    forall other, time | forall e :: e in end.rows <==> e in other
      ensures EntryForPeriod(other, time) == EntryForPeriod(end.rows, time)
    {
      AnyOrderAgrees(end.rows, other, time);
    }
  }

  // --- A removal that does not restore -----------------------------------------------------------

  const LIMITED := Entry(0, 0, Some(10), Some(1.0), Monthly, 0)

  const FIRST := OpCreate(CreateRequest(0, Some(10), Some(1.0), Monthly, NotNamed), 0)
  const SECOND := OpCreate(CreateRequest(5, None, Some(2.0), Monthly, NotNamed), 1)

  const CUT := Table([LIMITED.(validTo := Some(4)), Entry(1, 5, None, Some(2.0), Monthly, 1)], 2)

  lemma SecondCutsFirst()
    ensures Apply(Table([], 0), FIRST) == Table([LIMITED], 1) && Apply(Table([LIMITED], 1), SECOND) == CUT
  {
    assert [LIMITED][..0] == [] && Without([LIMITED], 0) == [];
    assert [] + [LIMITED] == [LIMITED];
    var added := Entry(1, 5, None, Some(2.0), Monthly, 1);
    WithoutAppended([LIMITED], added);
    assert EntryForPeriod([LIMITED], 5) == Some(LIMITED);
    assert CUT.rows == SetValidTo([LIMITED] + [added], 0, Some(4));
  }

  lemma RemovalReopens()
    ensures RestorePick(Without(CUT.rows, 1), 5, Some(0))
    ensures Apply(CUT, OpRemove(1, Some(0))) == CUT.(rows := [LIMITED.(validTo := None)])
  {
    var cut := LIMITED.(validTo := Some(4));
    assert CUT.rows == [cut] + [CUT.rows[1]] && CUT.rows[1] in CUT.rows;
    WithoutAppended([cut], CUT.rows[1]);
    assert cut in [cut];
    assert SetValidTo([cut], 0, None) == [LIMITED.(validTo := None)];
  }

  /** An entry limited to time 10 is cut by one from time 5 on; removing that one
      leaves the first entry without any end. */
  lemma RemovalForgetsTheEnd()
    ensures ApplyAll(Table([], 0), [FIRST]).rows == [LIMITED]
    ensures RestorePick(Without(ApplyAll(Table([], 0), [FIRST, SECOND]).rows, 1), 5, Some(0))
    ensures ApplyAll(Table([], 0), [FIRST, SECOND, OpRemove(1, Some(0))]).rows == [LIMITED.(validTo := None)]
  {
    hide Apply, Without, RestorePick;
    SecondCutsFirst();
    RemovalReopens();
    assert [FIRST][..0] == [] && [FIRST, SECOND][..1] == [FIRST];
    assert [FIRST, SECOND, OpRemove(1, Some(0))][..2] == [FIRST, SECOND];
  }
}
