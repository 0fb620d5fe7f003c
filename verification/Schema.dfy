/**
  The tables the repositories share. A row holds the columns its guards and updates
  read; free text, JSON payloads, counters and audit events are not modelled.
  Ids stand for UUIDs and keep their order; times are instants of one clock.
 */
module Schema {
  import opened Wrappers

  type Time = int
  type RunId = nat
  type ExecId = nat
  type SnapshotId = nat
  type ReviewId = nat

  // ---- monitoring_runs ----------------------------------------------------

  datatype RunStatus = Queued | Running | AwaitingReview | Succeeded | PartialSuccess | Failed {
    predicate IsTerminal() {
      Succeeded? || PartialSuccess? || Failed?
    }

    /** Only queued and running runs are exclusive; one waiting for review blocks nothing. */
    predicate IsActive() {
      Queued? || Running?
    }
  }

  const ABANDONED := "run.abandoned"
  const INTERRUPTED := "run.interrupted"
  const CANCELLED := "run.cancelled"

  datatype RunRow = RunRow(
    product: string,
    offering: Option<string>,       // None: the whole product family
    key: Option<string>,
    status: RunStatus,
    queuedAt: Time,
    startedAt: Option<Time>,
    completedAt: Option<Time>,
    error: Option<string>,
    claimedBy: Option<string>,
    claimedAt: Option<Time>,
    heartbeatAt: Option<Time>,
    cancelRequestedAt: Option<Time>)
  {
    /** `coalesce(heartbeat_at, claimed_at)` */
    function LeaseAt(): Option<Time> {
      if heartbeatAt.Some? then heartbeatAt else claimedAt
    }
  }

  // ---- offering_executions ------------------------------------------------

  datatype ExecStatus = ExecPending | ExecRunning | ExecSucceeded | ExecCandidateReview | ExecFailed {
    predicate IsOpen() {
      ExecPending? || ExecRunning?
    }
  }

  datatype ExecRow = ExecRow(
    run: RunId,
    product: string,
    offering: string,
    status: ExecStatus,
    stage: Option<string>,
    startedAt: Option<Time>,
    completedAt: Option<Time>,
    failureCode: Option<string>)

  // ---- tariff_snapshots and human_reviews ---------------------------------

  /** Bank, product and offering; bank names are already lower-cased. */
  datatype Scope = Scope(bank: string, product: string, offering: string)

  datatype SnapshotStatus = Candidate | Accepted | ReviewRequired | Rejected

  datatype SnapshotRow = SnapshotRow(
    run: RunId,
    exec: ExecId,
    scope: Scope,
    status: SnapshotStatus,
    canonical: string,              // stands for the hash of the tariff's canonical form
    createdAt: Time,
    acceptedAt: Option<Time>)

  datatype ReviewStatus = ReviewPending | ReviewApproved | ReviewRejected | ReviewSuperseded | ReviewFailed

  /** A reviewer's decision; `content` is the candidate, override or reason it carries. */
  datatype Decision = Decision(rejectsAll: bool, content: string)

  const REJECT_ALL := Decision(true, "")

  /** `issue` is the field or question under review, `reason` why it is. */
  datatype ReviewRow = ReviewRow(
    exec: ExecId,
    snapshot: SnapshotId,
    product: string,
    offering: string,
    issue: string,
    reason: string,
    status: ReviewStatus,
    decision: Option<Decision>)

  // ---- knowledge_documents, knowledge_chunks, snapshot_documents ----------

  datatype Chunk = Chunk(ordinal: nat, content: string)

  /** The identity of a document version. The source hashes it; here the hashed
      values stand for their hash, which is what injective hashing means. The
      projection (the chunks) is part of the identity, so it fixes the chunk set. */
  datatype Version = Version(scope: Scope, kind: string, key: string, content: string, chunks: seq<Chunk>)
  {
    function Ordinals(): set<nat> {
      set c | c in chunks :: c.ordinal
    }
  }

  datatype ChunkId = ChunkId(version: Version, ordinal: nat)

  datatype PublicationState = PendingReview | Active | Retired

  datatype DocRow = DocRow(
    active: bool,
    state: PublicationState,
    lastSeenRun: RunId,
    lastSeenAt: Time,
    retiredAt: Option<Time>)

  datatype ChunkRow = ChunkRow(active: bool, retiredAt: Option<Time>)

  datatype Link = Link(snapshot: SnapshotId, version: Version)

  // ---- the database -------------------------------------------------------

  datatype Db = Db(
    runs: map<RunId, RunRow>,
    execs: map<ExecId, ExecRow>,
    snapshots: map<SnapshotId, SnapshotRow>,
    reviews: map<ReviewId, ReviewRow>,
    documents: map<Version, DocRow>,
    chunks: map<ChunkId, ChunkRow>,
    links: set<Link>)

  const EMPTY: Db := Db(map[], map[], map[], map[], map[], map[], {})

  /** The tables as the repositories' sessions update them. */
  class Database {
    var runs: map<RunId, RunRow>
    var execs: map<ExecId, ExecRow>
    var snapshots: map<SnapshotId, SnapshotRow>
    var reviews: map<ReviewId, ReviewRow>
    var documents: map<Version, DocRow>
    var chunks: map<ChunkId, ChunkRow>
    var links: set<Link>

    constructor ()
      ensures View() == EMPTY
    {
      runs, execs, snapshots, reviews := map[], map[], map[], map[];
      documents, chunks, links := map[], map[], {};
    }

    function View(): Db
      reads this
    {
      Db(runs, execs, snapshots, reviews, documents, chunks, links)
    }

    /** A rolled-back transaction leaves the tables as they were. */
    method Rollback(before: Db)
      modifies this
      ensures View() == before
    {
      runs, execs, snapshots, reviews := before.runs, before.execs, before.snapshots, before.reviews;
      documents, chunks, links := before.documents, before.chunks, before.links;
    }
  }

  // ---- results ------------------------------------------------------------

  datatype Error =
    | InvalidArgument
    | RunNotFound
    | InvalidRunTransition
    | PublicationRefused
    | ReviewNotFound
    | SnapshotNotFound
    | ReferenceMissing
    | ReviewConflict
    | StaleReview

  datatype Result<+T> = Ok(value: T) | Err(error: Error)
}
