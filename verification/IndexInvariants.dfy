/**
  What every publication, approval and rejection keeps about documents, chunks and
  links, and how the active index moves.
 */
module IndexInvariants {
  import opened Schema
  import opened KnowledgePublication
  import opened ReviewSupersession

  // ---- the invariants -----------------------------------------------------

  /** A link joins a stored snapshot and a stored version of the same offering. */
  ghost predicate LinksOk(d: Db) {
    forall l :: l in d.links ==>
      l.snapshot in d.snapshots && l.version in d.documents && l.version.scope == d.snapshots[l.snapshot].scope
  }

  /** A chunk belongs to a stored version's projection and is active iff the version is. */
  ghost predicate ChunksFollow(d: Db) {
    forall c :: c in d.chunks ==>
      c.version in d.documents && c.ordinal in c.version.Ordinals()
      && d.chunks[c].active == d.documents[c.version].active
  }

  /** A stored version has all its chunks. */
  ghost predicate ChunksComplete(d: Db) {
    forall v, o :: v in d.documents && o in v.Ordinals() ==> ChunkId(v, o) in d.chunks
  }

  ghost predicate StatesOk(d: Db) {
    forall v :: v in d.documents ==> (d.documents[v].active <==> d.documents[v].state.Active?)
  }

  ghost predicate SnapshotsOk(d: Db) {
    forall s :: s in d.snapshots ==>
      Dated(d, s) && (d.snapshots[s].status.Accepted? <==> d.snapshots[s].acceptedAt.Some?)
  }

  /** Pending reviews sit on snapshots not accepted yet. */
  ghost predicate ReviewsOk(d: Db) {
    forall r :: r in d.reviews && d.reviews[r].status.ReviewPending? ==>
      d.reviews[r].snapshot in d.snapshots && !d.snapshots[d.reviews[r].snapshot].status.Accepted?
  }

  ghost predicate DocumentsOk(d: Db) {
    LinksOk(d) && ChunksFollow(d) && ChunksComplete(d) && StatesOk(d)
  }

  ghost predicate Inv(d: Db) {
    DocumentsOk(d) && SnapshotsOk(d) && ReviewsOk(d)
  }

  function ActiveDocs(d: Db): set<Version> {
    set v | v in d.documents && d.documents[v].active
  }

  // ---- storing and linking ------------------------------------------------

  /** A version's chunk ids are those of its ordinals. */
  lemma ChunkIdsOf(v: Version)
    ensures forall c :: c in FirstChunkIds(v, |v.chunks|) <==> c.version == v && c.ordinal in v.Ordinals()
  {
    var ids := FirstChunkIds(v, |v.chunks|);
    forall c | c in ids ensures c.version == v && c.ordinal in v.Ordinals() {
      var i :| 0 <= i < |v.chunks| && c == ChunkId(v, v.chunks[i].ordinal);
      assert v.chunks[i] in v.chunks;
    }
    forall o | o in v.Ordinals() ensures ChunkId(v, o) in ids {
      var c :| c in v.chunks && c.ordinal == o;
      var i :| 0 <= i < |v.chunks| && v.chunks[i] == c;
    }
  }

  /** Storing a version, new or known, keeps everything and activates nothing. */
  lemma StoreKeeps(d: Db, doc: Document, now: Time)
    requires DocumentsOk(d)
    ensures DocumentsOk(StoreDb(d, doc, now))
    ensures ActiveDocs(StoreDb(d, doc, now)) == ActiveDocs(d)
    ensures forall v :: v in d.documents ==>
              v in StoreDb(d, doc, now).documents && StoreDb(d, doc, now).documents[v].state == d.documents[v].state
    ensures doc.version in d.documents ==> StoreDb(d, doc, now).chunks == d.chunks
  {
    var v, d1 := doc.version, StoreDb(d, doc, now);
    ChunkIdsOf(v);
    if v in d.documents {
      assert FirstChunkIds(v, |v.chunks|) <= d.chunks.Keys;
      assert d1.chunks == d.chunks;
    }
  }

  lemma {:induction false} StoreAllKeeps(d: Db, docs: seq<Document>, now: Time)
    requires DocumentsOk(d)
    ensures var d1 := StoreAllDb(d, docs, now);
            DocumentsOk(d1) && ActiveDocs(d1) == ActiveDocs(d)
            && (forall v :: v in d.documents ==> v in d1.documents && d1.documents[v].state == d.documents[v].state)
            && (forall i :: 0 <= i < |docs| ==> docs[i].version in d1.documents)
  {
    if docs != [] {
      var before := docs[..|docs| - 1];
      StoreAllKeeps(d, before, now);
      StoreKeeps(StoreAllDb(d, before, now), docs[|docs| - 1], now);
    }
  }

  // ---- activation ---------------------------------------------------------

  /** The four updates make the snapshot's set the offering's whole active index and
      leave every other offering's documents and chunks as they were. */
  lemma ActivateMakesTheIndex(d: Db, s: SnapshotId, now: Time)
    requires DocumentsOk(d) && s in d.snapshots
    ensures var d1, scope := ActivateDb(d, s, now), d.snapshots[s].scope;
            && d1.documents.Keys == d.documents.Keys && d1.chunks.Keys == d.chunks.Keys
            && (forall v :: v in d.documents && v.scope == scope ==>
                  (d1.documents[v].active <==> Link(s, v) in d.links))
            && (forall v :: v in d.documents && v.scope != scope ==> d1.documents[v] == d.documents[v])
            && (forall c :: c in d.chunks && c.version.scope != scope ==> d1.chunks[c] == d.chunks[c])
  {
    var d1 := ActivateDb(d, s, now);
    forall v | v in d.documents && v.scope == d.snapshots[s].scope
      ensures d1.documents[v].active <==> Link(s, v) in d.links
    {
    }
  }

  lemma ActivateKeeps(d: Db, s: SnapshotId, now: Time)
    requires DocumentsOk(d) && s in d.snapshots
    ensures DocumentsOk(ActivateDb(d, s, now))
    ensures forall v :: v in d.documents && ActivateDb(d, s, now).documents[v].state.PendingReview?
                        ==> d.documents[v].state.PendingReview?
    ensures forall v :: v in d.documents && d.documents[v].state.PendingReview? ==>
              ActivateDb(d, s, now).documents[v].active || ActivateDb(d, s, now).documents[v].state.PendingReview?
  {
    var out := Outside(d, s);
    var d1 := d.(chunks := RetireChunks(d.chunks, out, now));
    assert Outside(d1, s) == out;
    var d2 := d1.(documents := RetireDocuments(d1.documents, out, now));
    assert ChunksFollow(d2);
    assert StatesOk(d2);
    var linked := Linked(d2, s);
    var d3 := d2.(documents := ActivateDocuments(d2.documents, linked));
    assert Linked(d3, s) == linked;
    var d4 := d3.(chunks := ActivateChunks(d3.chunks, linked));
    assert d4 == ActivateDb(d, s, now);
    assert ChunksFollow(d4);
  }

  // ---- discarding ---------------------------------------------------------

  lemma DropKeeps(d: Db, dropped: set<Version>, links: set<Link>)
    requires DocumentsOk(d) && links <= d.links
    requires forall l :: l in links ==> l.version !in dropped
    ensures DocumentsOk(DropVersions(d, dropped).(links := links))
  {
    var d1 := DropVersions(d, dropped).(links := links);
    assert ChunksFollow(d1);
    assert ChunksComplete(d1);
  }

  lemma DiscardAllKeeps(d: Db, gone: set<SnapshotId>)
    requires DocumentsOk(d)
    ensures DocumentsOk(DiscardAllDb(d, gone))
    ensures ActiveDocs(DiscardAllDb(d, gone)) == ActiveDocs(d)
  {
    DropKeeps(d, DiscardableBy(d, gone), set l | l in d.links && l.snapshot !in gone);
  }

  lemma DiscardIsDiscardAll(d: Db, s: SnapshotId)
    ensures DiscardDb(d, s) == DiscardAllDb(d, {s})
  {
    DiscardNone(d);
    DiscardOneMore(d, {}, s);
    assert {} + {s} == {s};
  }

  /** What a run of discards deletes, whatever its order: exactly the never-active
      versions its snapshots link and no surviving snapshot links. Versions that were
      ever active, or that a surviving snapshot names, stay. */
  lemma DiscardEachDeletes(d: Db, snapshots: seq<SnapshotId>, v: Version)
    requires v in d.documents
    ensures v !in DiscardEach(d, snapshots).documents <==>
              && d.documents[v].state.PendingReview? && !d.documents[v].active
              && (exists s :: s in snapshots && Link(s, v) in d.links)
              && (forall s :: Link(s, v) in d.links ==> s in snapshots)
    ensures v in DiscardEach(d, snapshots).documents ==>
              DiscardEach(d, snapshots).documents[v] == d.documents[v]
              && forall o :: ChunkId(v, o) in d.chunks <==> ChunkId(v, o) in DiscardEach(d, snapshots).chunks
  {
    DiscardEachIsDiscardAll(d, snapshots);
    var gone := Members(snapshots);
    assert DiscardEach(d, snapshots) == DiscardAllDb(d, gone);
    if v in DiscardableBy(d, gone) {
      var l :| l in d.links && l.version == v;
      assert l == Link(l.snapshot, v) && l.snapshot in snapshots;
    }
    if (exists s :: s in snapshots && Link(s, v) in d.links) && (forall s :: Link(s, v) in d.links ==> s in snapshots) {
      forall l | l in d.links && l.version == v ensures l.snapshot in gone {
        assert l == Link(l.snapshot, v);
      }
    }
  }
}
