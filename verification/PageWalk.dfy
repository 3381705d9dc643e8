// The walk over all pages of the documents that carry a tag.
module PageWalk {
  import opened Wrappers
  import opened TagModel

  const MAX_PAGES: nat := 50

  /** What one request yields; BadRequest is status 400. */
  datatype Response = Unusable | BadRequest | Page(results: seq<RemoteDoc>, hasNext: bool)

  /** The server during one walk: page number and minimal field list -> response. */
  type Server = (nat, bool) -> Response

  /** Whether the walk still asks for the extended fields before page k + 1. */
  function MinimalAfter(server: Server, k: nat): bool {
    k > 0 && (MinimalAfter(server, k - 1) || server(k, false).BadRequest?)
  }

  /** The response the walk uses for page k: a rejected field list is retried once. */
  function Used(server: Server, k: nat): Response
    requires k > 0
  {
    if MinimalAfter(server, k - 1) then server(k, true)
    else if server(k, false).BadRequest? then server(k, true)
    else server(k, false)
  }

  /** Pages 1..n all arrived and only the last one has no successor. */
  ghost predicate Complete(server: Server, n: nat) {
    n > 0 && Used(server, n).Page? && !Used(server, n).hasNext
    && forall k {:trigger Used(server, k)} :: 0 < k < n ==> Used(server, k).Page? && Used(server, k).hasNext
  }

  function Collected(server: Server, n: nat): seq<RemoteDoc>
  {
    if n == 0 then [] else Collected(server, n - 1) + if Used(server, n).Page? then Used(server, n).results else []
  }

  predicate HasId(docs: seq<RemoteDoc>, id: int) { exists k :: 0 <= k < |docs| && docs[k].paperlessId == id }

  /** The first entry of each id. */
  function Dedupe(docs: seq<RemoteDoc>): (r: seq<RemoteDoc>)
    ensures DistinctIds(r)
    ensures forall id :: HasId(r, id) <==> HasId(docs, id)
    ensures forall d :: d in r ==> d in docs
  {
    if docs == [] then []
    else
      var n := |docs| - 1;
      var before := Dedupe(docs[..n]);
      assert docs == docs[..n] + [docs[n]];
      PrefixIds(docs, n);
      if HasId(before, docs[n].paperlessId) then before
      else
        AppendIds(before, docs[n]);
        before + [docs[n]]
  }

  lemma PrefixIds(docs: seq<RemoteDoc>, n: nat)
    requires n < |docs|
    ensures forall id :: HasId(docs[..n + 1], id) <==> HasId(docs[..n], id) || docs[n].paperlessId == id
  {
    assert docs[..n + 1] == docs[..n] + [docs[n]];
    AppendIds(docs[..n], docs[n]);
  }

  lemma AppendIds(docs: seq<RemoteDoc>, d: RemoteDoc)
    ensures forall id :: HasId(docs + [d], id) <==> HasId(docs, id) || d.paperlessId == id
  {
    forall id ensures HasId(docs + [d], id) <==> HasId(docs, id) || d.paperlessId == id {
      if HasId(docs, id) {
        var k :| 0 <= k < |docs| && docs[k].paperlessId == id;
        assert (docs + [d])[k].paperlessId == id;
      }
      assert (docs + [d])[|docs|] == d;
    }
  }

  method FirstPerId(all: seq<RemoteDoc>) returns (r: seq<RemoteDoc>)
    ensures r == Dedupe(all)
  {
    r := [];
    var seen: set<int> := {};
    for n := 0 to |all|
      invariant r == Dedupe(all[..n]) && forall id :: id in seen <==> HasId(r, id)
    {
      assert all[..n + 1][..n] == all[..n];
      if all[n].paperlessId !in seen {
        AppendIds(r, all[n]);
        r := r + [all[n]];
        seen := seen + {all[n].paperlessId};
      }
    }
    assert all[..|all|] == all;
  }

  /** Null, or a complete list with distinct ids: the walk succeeds exactly when
      all pages up to a last one within the page limit arrive. */
  method ListDocumentsByTag(configured: bool, server: Server) returns (r: Option<seq<RemoteDoc>>)
    ensures r.Some? <==> configured && exists n: nat :: n <= MAX_PAGES && Complete(server, n)
    ensures r.Some? ==> DistinctIds(r.value)
    ensures r.Some? ==> forall n: nat :: Complete(server, n) ==> r.value == Dedupe(Collected(server, n))
  {
    if !configured { return None; }
    var all: seq<RemoteDoc> := [];
    var minimal := false;
    for page := 1 to MAX_PAGES + 1
      invariant all == Collected(server, page - 1) && minimal == MinimalAfter(server, page - 1)
      invariant forall k {:trigger Used(server, k)} :: 0 < k < page ==> Used(server, k).Page? && Used(server, k).hasNext
    {
      var res := server(page, minimal);
      if res.BadRequest? && !minimal {
        minimal := true;
        res := server(page, minimal);
      }
      assert res == Used(server, page);
      if !res.Page? { return None; }
      all := all + res.results;
      if !res.hasNext {
        assert Complete(server, page);
        forall n: nat | Complete(server, n) ensures n == page { LastPageUnique(server, n, page); }
        var list := FirstPerId(all);
        return Some(list);
      }
    }
    r := None;
  }

  lemma LastPageUnique(server: Server, m: nat, n: nat)
    requires Complete(server, m) && Complete(server, n)
    ensures m == n
  {
  }

  /** A complete list has every document of every page. */
  lemma {:induction false} NothingLost(server: Server, n: nat, k: nat, d: RemoteDoc)
    requires Complete(server, n) && 0 < k <= n && d in Used(server, k).results
    ensures HasId(Dedupe(Collected(server, n)), d.paperlessId)
  {
    CollectedHas(server, n, k, d);
    var i :| 0 <= i < |Collected(server, n)| && Collected(server, n)[i] == d;
    assert HasId(Collected(server, n), d.paperlessId);
  }

  lemma {:induction false} CollectedHas(server: Server, n: nat, k: nat, d: RemoteDoc)
    requires 0 < k <= n && Used(server, k).Page? && d in Used(server, k).results
    ensures d in Collected(server, n)
  {
    if k < n { CollectedHas(server, n - 1, k, d); }
  }

  // --- Which fields are asked for ---------------------------------------------------------

  predicate RejectedUpTo(server: Server, k: nat) { exists j :: 0 < j <= k && server(j, false).BadRequest? }

  lemma {:induction false} MinimalIff(server: Server, k: nat)
    ensures MinimalAfter(server, k) <==> RejectedUpTo(server, k)
  {
    if k > 0 {
      MinimalIff(server, k - 1);
      if RejectedUpTo(server, k - 1) {
        var j :| 0 < j <= k - 1 && server(j, false).BadRequest?;
        assert 0 < j <= k;
      }
    }
  }

  /** The extended fields are asked for until a page rejects them; that page and all
      later ones are read with the minimal fields. */
  lemma FieldsAsked(server: Server, k: nat)
    requires k > 0
    ensures Used(server, k) == if exists j :: 0 < j <= k && server(j, false).BadRequest? then server(k, true) else server(k, false)
  {
    MinimalIff(server, k - 1);
    if exists j :: 0 < j <= k && server(j, false).BadRequest? {
      var j :| 0 < j <= k && server(j, false).BadRequest?;
      assert j == k || RejectedUpTo(server, k - 1);
    }
  }

  /** All pages are there exactly when each arrives and only the last announces none. */
  lemma CompleteIff(server: Server, n: nat)
    ensures Complete(server, n) <==>
      n > 0 && forall k {:trigger Used(server, k)} :: 0 < k <= n ==> Used(server, k).Page? && (Used(server, k).hasNext <==> k < n)
  {
  }
}
