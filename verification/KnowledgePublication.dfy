/**
  Document versions, the sets snapshots own, and activation
  (app/repositories/knowledge_publication.py). As in the queue, a function gives the
  tables a statement or transaction leaves, and a method making the same updates in
  their written order is proved against it.
 */
module KnowledgePublication {
  import opened Wrappers
  import opened Schema
  import opened Tables

  datatype Document = Document(version: Version, run: RunId)

  // ---- storing a version --------------------------------------------------

  /** Insert with ON CONFLICT DO NOTHING: only the ids not stored yet. */
  function AddChunks(chunks: map<ChunkId, ChunkRow>, ids: set<ChunkId>): (r: map<ChunkId, ChunkRow>)
    ensures r.Keys == chunks.Keys + ids
    ensures forall c :: c in chunks ==> r[c] == chunks[c]
    ensures forall c :: c in ids && c !in chunks ==> r[c] == ChunkRow(false, None)
  {
    chunks + map c | c in ids && c !in chunks :: ChunkRow(false, None)
  }

  function FirstChunkIds(v: Version, n: nat): set<ChunkId>
    requires n <= |v.chunks|
  {
    set i | 0 <= i < n :: ChunkId(v, v.chunks[i].ordinal)
  }

  /** Storing a version again only refreshes its bookkeeping. */
  function StoredRow(documents: map<Version, DocRow>, doc: Document, now: Time): DocRow {
    if doc.version in documents then documents[doc.version].(lastSeenRun := doc.run, lastSeenAt := now)
    else DocRow(false, PendingReview, doc.run, now, None)
  }

  function StoreDb(d: Db, doc: Document, now: Time): Db {
    d.(documents := d.documents[doc.version := StoredRow(d.documents, doc, now)],
       chunks := AddChunks(d.chunks, FirstChunkIds(doc.version, |doc.version.chunks|)))
  }

  function StoreAllDb(d: Db, docs: seq<Document>, now: Time): Db {
    if docs == [] then d else StoreDb(StoreAllDb(d, docs[..|docs| - 1], now), docs[|docs| - 1], now)
  }

  method StoreDocumentVersion(db: Database, doc: Document, now: Time) returns (created: bool)
    modifies db
    ensures db.View() == StoreDb(old(db.View()), doc, now)
    ensures created <==> doc.version !in old(db.documents)
    ensures var v := doc.version;
            && v in db.documents && db.documents == old(db.documents)[v := db.documents[v]]
            && db.documents[v] == if created then DocRow(false, PendingReview, doc.run, now, None)
                                  else old(db.documents)[v].(lastSeenRun := doc.run, lastSeenAt := now)
    ensures forall c :: c in db.chunks <==>
                          c in old(db.chunks)
                          || (c.version == doc.version && c.ordinal in doc.version.Ordinals())
    ensures forall c :: c in db.chunks ==>
              db.chunks[c] == if c in old(db.chunks) then old(db.chunks)[c] else ChunkRow(false, None)
  {
    created := doc.version !in db.documents;
    db.documents := db.documents[doc.version := StoredRow(db.documents, doc, now)];
    InsertChunks(db, doc.version);
  }

  method InsertChunks(db: Database, v: Version)
    modifies db`chunks
    ensures db.chunks == AddChunks(old(db.chunks), FirstChunkIds(v, |v.chunks|))
  {
    for i := 0 to |v.chunks|
      invariant db.chunks == AddChunks(old(db.chunks), FirstChunkIds(v, i))
    {
      var c := ChunkId(v, v.chunks[i].ordinal);
      AddChunksStep(old(db.chunks), v, i);
      if c !in db.chunks {
        db.chunks := db.chunks[c := ChunkRow(false, None)];
      }
    }
  }

  lemma AddChunksStep(chunks: map<ChunkId, ChunkRow>, v: Version, i: nat)
    requires i < |v.chunks|
    ensures var c, before := ChunkId(v, v.chunks[i].ordinal), AddChunks(chunks, FirstChunkIds(v, i));
            AddChunks(chunks, FirstChunkIds(v, i + 1))
            == if c in before then before else before[c := ChunkRow(false, None)]
  {
    assert FirstChunkIds(v, i + 1) == FirstChunkIds(v, i) + {ChunkId(v, v.chunks[i].ordinal)};
    AddOneChunk(chunks, FirstChunkIds(v, i), ChunkId(v, v.chunks[i].ordinal));
  }

  lemma AddOneChunk(chunks: map<ChunkId, ChunkRow>, ids: set<ChunkId>, c: ChunkId)
    ensures var before := AddChunks(chunks, ids);
            AddChunks(chunks, ids + {c}) == if c in before then before else before[c := ChunkRow(false, None)]
  {
  }

  // ---- linking ------------------------------------------------------------

  function VersionsOf(docs: seq<Document>): set<Version> {
    set i | 0 <= i < |docs| :: docs[i].version
  }

  function LinksTo(snapshot: SnapshotId, versions: set<Version>): set<Link> {
    set v | v in versions :: Link(snapshot, v)
  }

  function LinkDb(d: Db, snapshot: SnapshotId, versions: set<Version>): Db {
    d.(links := d.links + LinksTo(snapshot, versions))
  }

  method LinkSnapshotDocuments(db: Database, snapshot: SnapshotId, docs: seq<Document>)
    modifies db
    ensures db.View() == LinkDb(old(db.View()), snapshot, VersionsOf(docs))
    ensures forall l :: l in db.links <==>
                          l in old(db.links)
                          || (l.snapshot == snapshot && exists i :: 0 <= i < |docs| && docs[i].version == l.version)
  {
    for i := 0 to |docs|
      invariant db.View() == old(db.View()).(links := db.links)
      invariant db.links == old(db.links) + LinksTo(snapshot, VersionsOf(docs[..i]))
    {
      assert VersionsOf(docs[..i + 1]) == VersionsOf(docs[..i]) + {docs[i].version} by {
        VersionsStep(docs, i);
      }
      db.links := db.links + {Link(snapshot, docs[i].version)};
    }
    assert docs[..|docs|] == docs;
  }

  lemma VersionsStep(docs: seq<Document>, i: nat)
    requires i < |docs|
    ensures VersionsOf(docs[..i + 1]) == VersionsOf(docs[..i]) + {docs[i].version}
  {
    var shorter, longer := docs[..i], docs[..i + 1];
    forall v | v in VersionsOf(longer) ensures v in VersionsOf(shorter) + {docs[i].version} {
      var k :| 0 <= k < |longer| && longer[k].version == v;
      assert k == i || shorter[k].version == v;
    }
    forall v | v in VersionsOf(shorter) ensures v in VersionsOf(longer) {
      var k :| 0 <= k < |shorter| && shorter[k].version == v;
      assert longer[k].version == v;
    }
    assert longer[i].version == docs[i].version;
  }

  // ---- activation ---------------------------------------------------------

  /** The offering's active documents outside the snapshot's set. */
  function Outside(d: Db, s: SnapshotId): set<Version> {
    if s !in d.snapshots then {}
    else set v | v in d.documents && d.documents[v].active
                 && v.scope == d.snapshots[s].scope && Link(s, v) !in d.links
  }

  function RetireChunks(chunks: map<ChunkId, ChunkRow>, outside: set<Version>, now: Time): (r: map<ChunkId, ChunkRow>)
    ensures r.Keys == chunks.Keys
  {
    map c | c in chunks :: if c.version in outside && chunks[c].active then ChunkRow(false, Some(now)) else chunks[c]
  }

  function RetireDocuments(documents: map<Version, DocRow>, outside: set<Version>, now: Time): (r: map<Version, DocRow>)
    ensures r.Keys == documents.Keys
  {
    map v | v in documents ::
      if v in outside then documents[v].(active := false, state := Retired, retiredAt := Some(now)) else documents[v]
  }

  function Linked(d: Db, s: SnapshotId): set<Version> {
    set v | v in d.documents && Link(s, v) in d.links
  }

  function InactiveLinked(d: Db, s: SnapshotId): set<Version> {
    set v | v in d.documents && Link(s, v) in d.links && !d.documents[v].active
  }

  function ActivateDocuments(documents: map<Version, DocRow>, linked: set<Version>): (r: map<Version, DocRow>)
    ensures r.Keys == documents.Keys
  {
    map v | v in documents ::
      if v in linked && !documents[v].active then documents[v].(active := true, state := Active, retiredAt := None)
      else documents[v]
  }

  function ActivateChunks(chunks: map<ChunkId, ChunkRow>, linked: set<Version>): (r: map<ChunkId, ChunkRow>)
    ensures r.Keys == chunks.Keys
  {
    map c | c in chunks :: if c.version in linked && !chunks[c].active then ChunkRow(true, None) else chunks[c]
  }

  /** The four bulk updates, in their written order. Each selects its rows from the
      tables as the previous one left them. */
  function ActivateDb(d: Db, s: SnapshotId, now: Time): Db {
    var d1 := d.(chunks := RetireChunks(d.chunks, Outside(d, s), now));
    var d2 := d1.(documents := RetireDocuments(d1.documents, Outside(d1, s), now));
    var d3 := d2.(documents := ActivateDocuments(d2.documents, Linked(d2, s)));
    d3.(chunks := ActivateChunks(d3.chunks, Linked(d3, s)))
  }

  /** Returns how many documents it retired and how many it activated. */
  method ActivateSnapshotSet(db: Database, s: SnapshotId, now: Time) returns (retired: nat, activated: nat)
    modifies db
    ensures db.View() == ActivateDb(old(db.View()), s, now)
    ensures retired == |Outside(old(db.View()), s)|
    ensures activated == |InactiveLinked(old(db.View()), s)|
  {
    var outside := Outside(db.View(), s);
    var retiring := set c | c in db.chunks && c.version in outside && db.chunks[c].active;
    db.chunks := UpdateWhere(db.chunks, retiring, (row: ChunkRow) => ChunkRow(false, Some(now)));
    assert db.chunks == RetireChunks(old(db.chunks), outside, now);
    outside := Outside(db.View(), s);
    assert outside == Outside(old(db.View()), s);
    retired := |outside|;
    db.documents := UpdateWhere(db.documents, outside,
                                (row: DocRow) => row.(active := false, state := Retired, retiredAt := Some(now)));
    assert db.documents == RetireDocuments(old(db.documents), outside, now);
    assert InactiveLinked(db.View(), s) == InactiveLinked(old(db.View()), s);
    activated := ActivateLinked(db, s);
  }

  /** The second half: the set's documents and then its chunks become active. */
  method ActivateLinked(db: Database, s: SnapshotId) returns (activated: nat)
    modifies db`documents, db`chunks
    ensures db.documents == ActivateDocuments(old(db.documents), Linked(old(db.View()), s))
    ensures db.chunks == ActivateChunks(old(db.chunks), Linked(old(db.View()), s))
    ensures activated == |InactiveLinked(old(db.View()), s)|
  {
    var linked, inactive := Linked(db.View(), s), InactiveLinked(db.View(), s);
    activated := |inactive|;
    db.documents := UpdateWhere(db.documents, inactive,
                                (row: DocRow) => row.(active := true, state := Active, retiredAt := None));
    assert Linked(db.View(), s) == linked;
    var activating := set c | c in db.chunks && c.version in linked && !db.chunks[c].active;
    db.chunks := UpdateWhere(db.chunks, activating, (row: ChunkRow) => ChunkRow(true, None));
  }

  /** Activation, row by row: what the snapshot links becomes active, what was active of its
      offering and is not linked is retired, and the rest keeps its row. */
  lemma ActivatedRow(d: Db, s: SnapshotId, now: Time, v: Version)
    requires v in d.documents && s in d.snapshots
    ensures var row := d.documents[v];
            && v in ActivateDb(d, s, now).documents
            && ActivateDb(d, s, now).documents[v] ==
               if Link(s, v) in d.links then
                 (if row.active then row else row.(active := true, state := Active, retiredAt := None))
               else if row.active && v.scope == d.snapshots[s].scope then
                 row.(active := false, state := Retired, retiredAt := Some(now))
               else row
  {
  }

  /** A chunk follows its version. */
  lemma ActivatedChunk(d: Db, s: SnapshotId, now: Time, c: ChunkId)
    requires c in d.chunks && c.version in d.documents && s in d.snapshots
    requires d.chunks[c].active == d.documents[c.version].active
    ensures var row, v := d.chunks[c], c.version;
            && c in ActivateDb(d, s, now).chunks
            && ActivateDb(d, s, now).chunks[c] ==
               if Link(s, v) in d.links then (if row.active then row else ChunkRow(true, None))
               else if row.active && v.scope == d.snapshots[s].scope then ChunkRow(false, Some(now))
               else row
  {
  }

  // ---- discarding ---------------------------------------------------------

  /** The versions a discard deletes: linked by the snapshot, never active, and
      linked by no other snapshot. */
  function Discardable(d: Db, s: SnapshotId): set<Version> {
    set v | v in d.documents && Link(s, v) in d.links
            && d.documents[v].state.PendingReview? && !d.documents[v].active
            && forall l :: l in d.links && l.version == v ==> l.snapshot == s
  }

  /** Deleting documents deletes their chunks by cascade. */
  function DropVersions(d: Db, dropped: set<Version>): Db {
    d.(documents := d.documents - dropped,
       chunks := map c | c in d.chunks && c.version !in dropped :: d.chunks[c])
  }

  function DiscardDb(d: Db, s: SnapshotId): Db {
    var dropped := Discardable(d, s);
    DropVersions(d, dropped).(links := set l | l in d.links && l.snapshot != s)
  }

  /** Returns the number of documents deleted. */
  method DiscardSnapshotDocuments(db: Database, s: SnapshotId) returns (deleted: nat)
    modifies db
    ensures db.View() == DiscardDb(old(db.View()), s)
    ensures deleted == |Discardable(old(db.View()), s)|
  {
    var before := db.View();
    var released := set l | l in db.links && l.snapshot == s;
    db.links := db.links - released;
    var dropped := set v | v in db.documents && Link(s, v) in released
                           && db.documents[v].state.PendingReview? && !db.documents[v].active
                           && forall l :: l in db.links && l.version == v ==> l.snapshot == s;
    assert dropped == Discardable(before, s);
    assert db.links == set l | l in before.links && l.snapshot != s;
    db.documents := db.documents - dropped;
    db.chunks := map c | c in db.chunks && c.version !in dropped :: db.chunks[c];
    deleted := |dropped|;
  }

  /** What discarding a whole collection of snapshots deletes: the versions they link
      that were never active and that no surviving snapshot links. */
  function DiscardableBy(d: Db, gone: set<SnapshotId>): set<Version> {
    set v | v in d.documents && d.documents[v].state.PendingReview? && !d.documents[v].active
            && (exists l :: l in d.links && l.version == v)
            && forall l :: l in d.links && l.version == v ==> l.snapshot in gone
  }

  function DiscardAllDb(d: Db, gone: set<SnapshotId>): Db {
    DropVersions(d, DiscardableBy(d, gone)).(links := set l | l in d.links && l.snapshot !in gone)
  }

  function DiscardEach(d: Db, snapshots: seq<SnapshotId>): Db {
    if snapshots == [] then d
    else DiscardDb(DiscardEach(d, snapshots[..|snapshots| - 1]), snapshots[|snapshots| - 1])
  }

  lemma DiscardableOneMore(d: Db, gone: set<SnapshotId>, s: SnapshotId)
    ensures DiscardableBy(d, gone + {s}) == DiscardableBy(d, gone) + Discardable(DiscardAllDb(d, gone), s)
  {
    var d1 := DiscardAllDb(d, gone);
    var first, second, both := DiscardableBy(d, gone), Discardable(d1, s), DiscardableBy(d, gone + {s});
    forall v | v in both ensures v in first + second {
      if v !in first {
        var l :| l in d.links && l.version == v && l.snapshot !in gone;
        assert l == Link(s, v) && l in d1.links;
      }
    }
    forall v | v in first + second ensures v in both {
      if v in second {
        assert Link(s, v) in d.links;
        forall l | l in d.links && l.version == v ensures l.snapshot in gone + {s} {
          assert l.snapshot in gone || l in d1.links;
        }
      }
    }
  }

  lemma DiscardOneMore(d: Db, gone: set<SnapshotId>, s: SnapshotId)
    ensures DiscardDb(DiscardAllDb(d, gone), s) == DiscardAllDb(d, gone + {s})
  {
    DiscardableOneMore(d, gone, s);
    var first, second := DiscardableBy(d, gone), Discardable(DiscardAllDb(d, gone), s);
    assert d.documents - first - second == d.documents - DiscardableBy(d, gone + {s});
  }

  function Members(snapshots: seq<SnapshotId>): set<SnapshotId> {
    set s | s in snapshots
  }

  lemma MembersStep(snapshots: seq<SnapshotId>)
    requires snapshots != []
    ensures Members(snapshots) == Members(snapshots[..|snapshots| - 1]) + {snapshots[|snapshots| - 1]}
  {
    assert snapshots == snapshots[..|snapshots| - 1] + [snapshots[|snapshots| - 1]];
  }

  /** Discarding one after another, in any order and with repetitions, is discarding
      the collection. */
  lemma {:induction false} DiscardEachIsDiscardAll(d: Db, snapshots: seq<SnapshotId>)
    ensures DiscardEach(d, snapshots) == DiscardAllDb(d, Members(snapshots))
  {
    if snapshots == [] {
      DiscardNone(d);
      assert Members(snapshots) == {};
    } else {
      var before, s := snapshots[..|snapshots| - 1], snapshots[|snapshots| - 1];
      DiscardEachIsDiscardAll(d, before);
      DiscardOneMore(d, Members(before), s);
      MembersStep(snapshots);
    }
  }

  lemma DiscardNone(d: Db)
    ensures DiscardAllDb(d, {}) == d
  {
    assert DiscardableBy(d, {}) == {};
    assert d.documents - {} == d.documents;
    assert (map c | c in d.chunks && c.version !in {} :: d.chunks[c]) == d.chunks;
    assert (set l | l in d.links && l.snapshot !in {}) == d.links;
  }

  lemma DiscardOrderIrrelevant(d: Db, a: seq<SnapshotId>, b: seq<SnapshotId>)
    requires forall s :: s in a <==> s in b
    ensures DiscardEach(d, a) == DiscardEach(d, b)
  {
    DiscardEachIsDiscardAll(d, a);
    DiscardEachIsDiscardAll(d, b);
    assert Members(a) == Members(b);
  }
}
