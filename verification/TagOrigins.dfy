// What one operation on a link undoes of another.
module TagOrigins {
  import opened Wrappers
  import opened Text
  import opened TagModel
  import opened TagInvariants
  import opened TagRuns
  import opened TagDelivery

  function RowOf(s: State, found: Option<nat>): nat { if found.Some? then found.value else s.nextDoc }

  /** Linking fills what is missing and overwrites nothing. */
  lemma MadeManual(s: State, id: nat, meta: RemoteDoc)
    requires id in s.docs
    ensures var t := ApplyManualLinkOrigin(s, id, meta); var before := s.docs[id];
      && t.docs == s.docs[id := t.docs[id]]
      && t.docs[id].ActiveLinkTo(meta.paperlessId) == before.ActiveLinkTo(meta.paperlessId)
      && t.docs[id].linkOriginManual && t.docs[id].linkOriginTag == before.linkOriginTag
      && t.docs[id].fileName == before.fileName
      && (before.documentDate.Some? ==> t.docs[id].documentDate == before.documentDate)
      && (before.documentDate.None? ==> t.docs[id].documentDate == meta.created)
      && (before.mimeType != None && before.mimeType != Some("") ==> t.docs[id].mimeType == before.mimeType)
      && ((before.mimeType == None || before.mimeType == Some("")) && meta.mimeType != None && meta.mimeType != Some("") ==>
            t.docs[id].mimeType == meta.mimeType)
      && t.docs[id] == before.(documentDate := t.docs[id].documentDate, mimeType := t.docs[id].mimeType, linkOriginManual := true,
                               tagging := if s.config.Some? then Some(TaggingPending) else before.tagging,
                               taggingError := if s.config.Some? then None else before.taggingError)
  {
    hide QueueTagging;
  }

  /** Unlinking touches one row: of two origins the manual one goes, else the row is
      archived with everything it says. */
  lemma UnlinkTouches(s: State, id: nat)
    requires id in s.docs && !s.docs[id].archived
    ensures RemoveDocument(s, id) == s.(docs := s.docs[id :=
      if s.docs[id].linkOriginTag && s.docs[id].linkOriginManual then s.docs[id].(linkOriginManual := false) else s.docs[id].(archived := true)])
  {
  }

  lemma LinkedRow(s: State, meta: RemoteDoc, found: Option<nat>)
    requires LinksInv(s) && Enabled(s, EvLink(meta, found))
    ensures var t := LinkDocument(s, meta, found); var id := RowOf(s, found);
      && t.docs.Keys == s.docs.Keys + {id} && (forall x :: x in s.docs && x != id ==> t.docs[x] == s.docs[x])
      && t.docs[id].ActiveLinkTo(meta.paperlessId) && t.docs[id].linkOriginManual
      && (t.docs[id].linkOriginTag <==> found.Some? && s.docs[id].linkOriginTag)
      && (s.config.Some? ==> t.docs[id].tagging == Some(TaggingPending))
  {
    hide ApplyManualLinkOrigin, OriginsOk, OneRowPerRef;
    if found.None? {
      assert s.nextDoc !in s.docs;
      MadeManual(s.PutDoc(s.nextDoc, NewManualDoc(meta)).(nextDoc := s.nextDoc + 1), s.nextDoc, meta);
    } else {
      MadeManual(s, found.value, meta);
    }
  }

  /** A new link says what Paperless says: its title, or a name made of its number,
      its date and its type. */
  lemma NewLinkSays(s: State, meta: RemoteDoc)
    requires LinksInv(s) && Enabled(s, EvLink(meta, None))
    ensures var t := LinkDocument(s, meta, None); var id := s.nextDoc;
      && id in t.docs && t.nextDoc == s.nextDoc + 1
      && (TrimOption(meta.title) != "" ==> t.docs[id].fileName == TrimOption(meta.title))
      && (TrimOption(meta.title) == "" ==> t.docs[id].fileName == "Paperless document " + IntToString(meta.paperlessId))
      && t.docs[id].documentDate == meta.created && t.docs[id].mimeType == meta.mimeType
  {
    hide QueueTagging, OriginsOk, OneRowPerRef, IntToString, Trim;
  }

  /** Unlinking what was just linked leaves the document linked exactly when the
      tag had assigned it, then by the tag alone, and no other row has changed. */
  lemma LinkThenUnlink(s: State, meta: RemoteDoc, found: Option<nat>)
    requires LinksInv(s) && Enabled(s, EvLink(meta, found))
    ensures var id := RowOf(s, found); var u := RemoveDocument(LinkDocument(s, meta, found), id);
      && (forall x :: x in s.docs && x != id ==> x in u.docs && u.docs[x] == s.docs[x])
      && (u.Linked(meta.paperlessId) <==> found.Some? && s.docs[id].linkOriginTag)
      && (u.Linked(meta.paperlessId) ==> u.docs[id].ActiveLinkTo(meta.paperlessId) && u.docs[id].linkOriginTag && !u.docs[id].linkOriginManual)
  {
    hide LinkDocument, LinksInv;
    LinkedRow(s, meta, found);
    LinkDocumentKeepsLinks(s, meta, found);
    var id := RowOf(s, found);
    var t := LinkDocument(s, meta, found);
    var u := RemoveDocument(t, id);
    OnlyOneRow(t, meta.paperlessId, id);
    assert u.docs == t.docs[id := u.docs[id]];
    assert u.docs[id].ActiveLinkTo(meta.paperlessId) <==> found.Some? && s.docs[id].linkOriginTag;
    assert forall x :: x in u.docs && u.docs[x].ActiveLinkTo(meta.paperlessId) ==> x == id;
  }

  lemma OnlyOneRow(t: State, ref: int, id: nat)
    requires LinksInv(t) && id in t.docs && t.docs[id].ActiveLinkTo(ref)
    ensures forall x :: x in t.docs && t.docs[x].ActiveLinkTo(ref) ==> x == id
  {
  }

  /** A row without the tag: it leaves if the tag was its only origin, and an active
      manual link has no tagging state left. */
  function Released(doc: Doc): Doc {
    if !doc.linkOriginManual then (if doc.linkOriginTag then doc.(linkOriginTag := false, archived := true) else doc)
    else if doc.archived then doc.(linkOriginTag := false)
    else doc.(linkOriginTag := false, tagging := None, taggingError := None)
  }

  /** Removing the tag leaves exactly the manual links, without tag origin and
      without tagging state, and nothing in the outbox is active. */
  lemma RemovingTheTagLeavesManualLinks(s: State)
    requires LinksInv(s) && s.config.Some? && !s.policyArchived
    ensures var t := RemoveTag(s);
      && t.config.None? && t.docs.Keys == s.docs.Keys
      && (forall id :: id in s.docs ==>
            (t.docs[id].ActiveLink() <==> s.docs[id].ActiveLink() && s.docs[id].linkOriginManual))
      && (forall id :: id in t.docs && t.docs[id].ActiveLink() ==>
            t.docs[id] == s.docs[id].(linkOriginTag := false, tagging := None, taggingError := None))
      && (forall j :: j in t.jobs ==> !t.jobs[j].Active())
      && t.jobs.Keys == s.jobs.Keys && AllSuperseded(s.jobs, t.jobs, "TAG_REMOVED")
      && (forall id :: id in s.docs ==> t.docs[id] == Released(s.docs[id]))
  {
    hide OneRowPerRef;
    assert forall id :: id in s.docs ==> OriginsOk(s.docs[id]);
  }

  /** Configuring a tag and removing it again before any sync is undone on every
      link (up to a left-over error text). */
  lemma SetThenRemove(s: State, tagId: int, name: string, clientName: Option<string>, connection: string)
    requires LinksInv(s) && TaggingInv(s) && s.config.None? && !s.policyArchived
    ensures var t := RemoveTag(SetTag(s, tagId, name, clientName, connection));
      && t.config.None? && t.docs.Keys == s.docs.Keys
      && (forall id :: id in s.docs && s.docs[id].ActiveLink() ==> t.docs[id] == s.docs[id].(taggingError := None))
      && (forall id :: id in s.docs && !s.docs[id].ActiveLink() ==> !t.docs[id].ActiveLink())
  {
    hide OneRowPerRef, SetTag, RemoveTag;
    var u := SetTag(s, tagId, name, clientName, connection);
    SetTagKeepsLinks(s, tagId, name, clientName, connection);
    FirstTag(s, tagId, name, clientName, connection);
    RemovingTheTagLeavesManualLinks(u);
    assert forall id :: id in s.docs && s.docs[id].ActiveLink() ==> TaggingFits(None, s.docs[id]);
  }

  lemma FirstTag(s: State, tagId: int, name: string, clientName: Option<string>, connection: string)
    requires s.config.None? && !s.policyArchived
    ensures var t := SetTag(s, tagId, name, clientName, connection);
      t.docs == s.docs && t.config.Some? && !t.policyArchived
  {
  }
}
