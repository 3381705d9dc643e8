// The cost entry rows of one policy, changed in place by the service.
module CostTable {
  import opened Wrappers
  import opened CostEntries
  import opened CostTimeline

  class CostStore {
    var rows: seq<Entry>
    var nextId: nat

    ghost function Abs(): Table
      reads this
    {
      Table(rows, nextId)
    }

    constructor ()
      ensures rows == [] && Sound(Abs())
    {
      rows, nextId := [], 0;
    }

    method EndPredecessorAt(validFrom: int, exclude: nat) returns (ended: bool)
      modifies this`rows
      ensures (rows, ended) == EndPredecessor(old(rows), validFrom, exclude)
    {
      var predecessor := EntryForPeriod(Without(rows, exclude), validFrom);
      if predecessor.None? { return false; }
      var end := validFrom - 1;
      if predecessor.value.validTo.Some? && predecessor.value.validTo.value <= end { return false; }
      rows := SetValidTo(rows, predecessor.value.id, Some(end));
      return true;
    }

    /** The query may return any of the rows that ended right before `validFrom`. */
    method RestorePredecessorAt(validFrom: int) returns (pick: Option<nat>)
      modifies this`rows
      ensures RestorePick(old(rows), validFrom, pick) && rows == Restore(old(rows), pick)
    {
      if exists e :: e in rows && e.validTo == Some(validFrom - 1) {
        var e :| e in rows && e.validTo == Some(validFrom - 1);
        pick := Some(e.id);
        rows := SetValidTo(rows, e.id, None);
      } else {
        pick := None;
      }
    }

    /** The new entry, and whether its predecessor was ended. */
    method CreateEntry(req: CreateRequest, now: int) returns (r: Result<(Entry, bool), Rejection>)
      requires Sound(Abs())
      modifies this
      ensures Sound(Abs()) && Abs() == Apply(old(Abs()), OpCreate(req, now))
      ensures var spec := Create(old(rows), old(nextId), req, now);
        if spec.Err? then r == Err(spec.error)
        else r == Ok((NewEntry(old(nextId), req, now),
                      EndPredecessor(old(rows) + [NewEntry(old(nextId), req, now)], req.validFrom, old(nextId)).1))
    {
      ApplyKeepsSound(Abs(), OpCreate(req, now));
      if req.amount.None? { return Err(AmountRequired); }
      match req.source {
        case NotNamed =>
        case Missing => return Err(ForeignDocument);
        case Found(billing) => if !billing { return Err(NotABillingDocument); }
      }
      if req.validTo.Some? && req.validTo.value <= req.validFrom { return Err(InvalidRange); }
      if StartTaken(rows, req.validFrom, None) { return Err(Collision); }
      var id := nextId;
      var entry := NewEntry(id, req, now);
      rows := rows + [entry];
      nextId := nextId + 1;
      var ended := EndPredecessorAt(req.validFrom, id);
      r := Ok((entry, ended));
    }

    method UpdateEntry(id: nat, req: UpdateRequest) returns (r: Result<Entry, Rejection>, pick: Option<nat>)
      requires Sound(Abs())
      modifies this`rows
      ensures Sound(Abs()) && r == Updated(old(rows), id, req)
      ensures Abs() == Apply(old(Abs()), OpUpdate(id, req, pick))
      ensures r.Ok? && r.value.validFrom > Find(old(rows), id).value.validFrom ==>
        RestorePick(Rewrite(old(rows), id, r.value), Find(old(rows), id).value.validFrom, pick)
    {
      hide Sound, SetValidTo, Restore, RestorePick, EndPredecessor, FinalValidTo, Rewrite;
      pick := None;
      r := Updated(rows, id, req);
      if r.Err? { return; }
      ghost var before := Abs();
      var existing := Find(rows, id).value;
      var entry := r.value;
      rows := Rewrite(rows, id, entry);
      if entry.validFrom != existing.validFrom {
        if entry.validFrom > existing.validFrom {
          pick := RestorePredecessorAt(existing.validFrom);
        }
        var _ := EndPredecessorAt(entry.validFrom, id);
      }
      ApplyKeepsSound(before, OpUpdate(id, req, pick));
    }

    method RemoveEntry(id: nat) returns (removed: bool, pick: Option<nat>)
      requires Sound(Abs())
      modifies this`rows
      ensures removed == Find(old(rows), id).Some?
      ensures Sound(Abs()) && Abs() == Apply(old(Abs()), OpRemove(id, pick))
      ensures removed ==> RestorePick(Without(old(rows), id), Find(old(rows), id).value.validFrom, pick)
    {
      hide Sound, Without, SetValidTo, Restore, RestorePick;
      pick := None;
      var existing := Find(rows, id);
      removed := existing.Some?;
      if removed {
        ghost var before := Abs();
        rows := Without(rows, id);
        pick := RestorePredecessorAt(existing.value.validFrom);
        ApplyKeepsSound(before, OpRemove(id, pick));
      }
    }
  }
}
