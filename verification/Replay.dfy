/** The search index: writing a version's chunks, and rebuilding the whole index from the
    authoritative rows (src/adapters/opensearch/index_writer.py, src/modules/indexing/replay.py). */
module Replay {
  import opened Wrappers
  import opened Documents

  /** `sha256(f"{version_id}:{ordinal}")`, taken as injective. */
  datatype ChunkId = ChunkId(version: string, ordinal: nat)

  datatype IndexedChunk = IndexedChunk(document: DocumentKey, version: string, text: string, isCurrent: bool)

  type Index = map<ChunkId, IndexedChunk>

  datatype ReplayError =
    NotRestorable | ArtifactMismatch | PolicyViolation | BulkFailed(ids: set<ChunkId>) | RequestFailed

  // ----- one version

  function ChunkIds(version: string, n: nat): set<ChunkId> {
    set i | 0 <= i < n :: ChunkId(version, i)
  }

  /** The bulk request: chunks that do not fail are written, none of them current. */
  function Written(index: Index, document: DocumentKey, version: string, chunks: seq<string>,
                   failed: set<ChunkId>): Index {
    if chunks == [] then index
    else
      var i := |chunks| - 1;
      var rest := Written(index, document, version, chunks[..i], failed);
      if ChunkId(version, i) in failed then rest
      else rest[ChunkId(version, i) := IndexedChunk(document, version, chunks[i], false)]
  }

  lemma {:induction false} WrittenAt(index: Index, document: DocumentKey, version: string, chunks: seq<string>,
                                     id: ChunkId)
    ensures var written := Written(index, document, version, chunks, {});
      && (id in written <==> id in index || (id.version == version && id.ordinal < |chunks|))
      && (id in written ==>
            written[id] == if id.version == version && id.ordinal < |chunks|
                           then IndexedChunk(document, version, chunks[id.ordinal], false) else index[id])
  {
    if chunks != [] {
      WrittenAt(index, document, version, chunks[..|chunks| - 1], id);
    }
  }

  lemma WrittenStep(index: Index, document: DocumentKey, version: string, chunks: seq<string>, i: nat,
                    failed: set<ChunkId>)
    requires i < |chunks|
    ensures Written(index, document, version, chunks[..i + 1], failed) ==
      var before := Written(index, document, version, chunks[..i], failed);
      if ChunkId(version, i) in failed then before
      else before[ChunkId(version, i) := IndexedChunk(document, version, chunks[i], false)]
    ensures ChunkIds(version, i + 1) == ChunkIds(version, i) + {ChunkId(version, i)}
  {
    assert chunks[..i + 1][..i] == chunks[..i];
  }

  lemma {:induction false} NoneRefused(index: Index, document: DocumentKey, version: string, chunks: seq<string>,
                                       failed: set<ChunkId>)
    requires ChunkIds(version, |chunks|) * failed == {}
    ensures Written(index, document, version, chunks, failed) == Written(index, document, version, chunks, {})
  {
    if chunks != [] {
      var i := |chunks| - 1;
      WrittenStep(index, document, version, chunks, i, failed);
      assert ChunkId(version, i) in ChunkIds(version, |chunks|);
      assert ChunkIds(version, i) * failed == {};
      NoneRefused(index, document, version, chunks[..i], failed);
    }
  }

  /** The first update by query: of the other versions of the document, the chunks among `ids` are
      unflagged. */
  function OthersUnflagged(index: Index, document: DocumentKey, version: string, ids: set<ChunkId>): Index {
    map id | id in index ::
      if index[id].document == document && index[id].version != version && id in ids
      then index[id].(isCurrent := false) else index[id]
  }

  /** The second: of the version itself, the chunks among `ids` are flagged. */
  function OwnFlagged(index: Index, document: DocumentKey, version: string, ids: set<ChunkId>): Index {
    map id | id in index ::
      if index[id].document == document && index[id].version == version && id in ids
      then index[id].(isCurrent := true) else index[id]
  }

  /** Both updates: in this document, exactly this version is current. */
  function Flagged(index: Index, document: DocumentKey, version: string): Index {
    map id | id in index ::
      if index[id].document == document then index[id].(isCurrent := index[id].version == version) else index[id]
  }

  lemma FlaggedInTwo(index: Index, document: DocumentKey, version: string)
    ensures OwnFlagged(OthersUnflagged(index, document, version, index.Keys), document, version, index.Keys)
         == Flagged(index, document, version)
    ensures OthersUnflagged(index, document, version, index.Keys).Keys == index.Keys
  {
  }

  function Upserted(index: Index, document: DocumentKey, version: string, chunks: seq<string>): Index {
    Flagged(Written(index, document, version, chunks, {}), document, version)
  }

  function Without(index: Index, ids: set<ChunkId>): Index {
    map id | id in index && id !in ids :: index[id]
  }

  /** The request at which an upsert breaks off, if it does. The requests before it are done; it
      raises, having done its work for some chunks, none or all. */
  datatype Ending =
    | Complete
    | AtBulk
    | AtCleanup(removed: set<ChunkId>)
    | AtUnflagging(unflagged: set<ChunkId>)
    | AtFlagging(flagged: set<ChunkId>)

  /** How an upsert goes: whether policy allows it, the chunks that the bulk does not write, and
      where it ends. */
  datatype Course = Course(authorized: bool, failed: set<ChunkId>, ending: Ending)

  /** The upsert comes to its end. */
  predicate Completes(course: Course, ids: set<ChunkId>) {
    course.authorized && ids * course.failed == {} && (course.ending.Complete? || course.ending.AtCleanup?)
  }

  /** `upsert`, request by request. */
  function UpsertOutcome(index: Index, document: DocumentKey, version: string, chunks: seq<string>, course: Course)
    : (Index, Result<(), ReplayError>)
  {
    var ids := ChunkIds(version, |chunks|);
    var refused, successful := ids * course.failed, ids - course.failed;
    var written := Written(index, document, version, chunks, course.failed);
    if !course.authorized then (index, Err(PolicyViolation))
    else if course.ending.AtBulk? then (written, Err(RequestFailed))
    else if refused != {} then
      if course.ending.AtCleanup? && successful != {}
      then (Without(written, successful * course.ending.removed), Err(RequestFailed))
      else (Without(written, successful), Err(BulkFailed(refused)))
    else if course.ending.AtUnflagging? then
      (OthersUnflagged(written, document, version, course.ending.unflagged), Err(RequestFailed))
    else if course.ending.AtFlagging? then
      (OwnFlagged(OthersUnflagged(written, document, version, written.Keys), document, version, course.ending.flagged),
       Err(RequestFailed))
    else (Upserted(index, document, version, chunks), Ok(()))
  }

  // ----- what an upsert leaves

  lemma {:induction false} WrittenSome(index: Index, d: DocumentKey, version: string, chunks: seq<string>,
                                       failed: set<ChunkId>, id: ChunkId)
    ensures var written := Written(index, d, version, chunks, failed);
      var own := id in ChunkIds(version, |chunks|) && id !in failed;
      && (id in written <==> id in index || own)
      && (id in written && !own ==> written[id] == index[id])
      && (own ==> written[id] == IndexedChunk(d, version, chunks[id.ordinal], false))
  {
    if chunks != [] {
      WrittenSome(index, d, version, chunks[..|chunks| - 1], failed, id);
    }
  }

  ghost predicate SameEntry(index: Index, after: Index, id: ChunkId) {
    (id in after <==> id in index) && (id in index ==> after[id] == index[id])
  }

  /** A chunk of the attempted version that the bulk writes. */
  predicate IsWritten(version: string, chunks: seq<string>, course: Course, id: ChunkId) {
    id.version == version && id.ordinal < |chunks| && id !in course.failed
  }

  /** Some chunk of the attempted version is refused. */
  ghost predicate Refuses(version: string, chunks: seq<string>, course: Course) {
    exists id :: id in course.failed && id.version == version && id.ordinal < |chunks|
  }

  ghost predicate WritesSome(version: string, chunks: seq<string>, course: Course) {
    exists id :: IsWritten(version, chunks, course, id)
  }

  /** How an upsert ends. */
  lemma UpsertEnds(index: Index, document: DocumentKey, version: string, chunks: seq<string>, course: Course)
    ensures var r := UpsertOutcome(index, document, version, chunks, course).1;
      if !course.authorized then r == Err(PolicyViolation)
      else if course.ending.AtBulk? then r == Err(RequestFailed)
      else if Refuses(version, chunks, course) then
        if course.ending.AtCleanup? && WritesSome(version, chunks, course) then r == Err(RequestFailed)
        else r.Err? && r.error.BulkFailed? && forall id :: id in r.error.ids <==>
          id in course.failed && id.version == version && id.ordinal < |chunks|
      else if course.ending.AtUnflagging? || course.ending.AtFlagging? then r == Err(RequestFailed)
      else r == Ok(())
  {
    var ids := ChunkIds(version, |chunks|);
    assert forall id :: id in ids <==> id.version == version && id.ordinal < |chunks|;
    assert forall id :: id in ids - course.failed <==> IsWritten(version, chunks, course, id);
    assert forall id :: id in ids * course.failed <==> id in course.failed && id.version == version
                                                       && id.ordinal < |chunks|;
    hide ChunkIds, Written, Upserted, OthersUnflagged, OwnFlagged, Without;
  }

  /** An upsert with refused chunks leaves nothing of its own, and everything else as it was; when its
      clean-up raises, exactly the chunks it took out are gone. */
  lemma RefusedLeaves(index: Index, document: DocumentKey, version: string, chunks: seq<string>, course: Course,
                      id: ChunkId)
    requires course.authorized && !course.ending.AtBulk? && Refuses(version, chunks, course)
    ensures var after := UpsertOutcome(index, document, version, chunks, course).0;
      if !IsWritten(version, chunks, course, id) then SameEntry(index, after, id)
      else if course.ending.AtCleanup? && id !in course.ending.removed then
        id in after && after[id] == IndexedChunk(document, version, chunks[id.ordinal], false)
      else id !in after
  {
    var ids := ChunkIds(version, |chunks|);
    assert forall c :: c in ids <==> c.version == version && c.ordinal < |chunks|;
    var refused :| refused in course.failed && refused.version == version && refused.ordinal < |chunks|;
    assert refused in ids * course.failed;
    WrittenSome(index, document, version, chunks, course.failed, id);
    hide ChunkIds, Written, Upserted, OthersUnflagged, OwnFlagged;
  }

  /** Any other upsert that is allowed writes what is not refused; everything else keeps its text and, outside
      the document or before the flags are updated, its flag. */
  lemma UpsertLeaves(index: Index, document: DocumentKey, version: string, chunks: seq<string>, course: Course,
                     id: ChunkId)
    requires course.authorized && (course.ending.AtBulk? || !Refuses(version, chunks, course))
    ensures var after := UpsertOutcome(index, document, version, chunks, course).0;
      if IsWritten(version, chunks, course, id) then
        && id in after && after[id].(isCurrent := false) == IndexedChunk(document, version, chunks[id.ordinal], false)
        && (course.ending.AtBulk? ==> !after[id].isCurrent)
      else
        && (id in after <==> id in index)
        && (id in index ==> after[id].(isCurrent := index[id].isCurrent) == index[id])
        && (id in index && (course.ending.AtBulk? || index[id].document != document) ==> after[id] == index[id])
  {
    var ids := ChunkIds(version, |chunks|);
    assert forall c :: c in ids <==> c.version == version && c.ordinal < |chunks|;
    WrittenSome(index, document, version, chunks, course.failed, id);
    if !course.ending.AtBulk? {
      assert ids * course.failed == {};
      NoneRefused(index, document, version, chunks, course.failed);
      var written := Written(index, document, version, chunks, course.failed);
      hide ChunkIds, Written;
      FlagsOnly(written, document, version, written.Keys, id);
      match course.ending
      case AtUnflagging(some) => FlagsOnly(written, document, version, some, id);
      case AtFlagging(some) => FlagsOnly(written, document, version, some, id);
      case _ =>
      hide OthersUnflagged, OwnFlagged, Flagged;
    }
  }

  /** An entry but for its flag, which may change in the document only. */
  ghost predicate SameButFlag(index: Index, after: Index, document: DocumentKey, id: ChunkId) {
    && (id in after <==> id in index)
    && (id in index ==> after[id].(isCurrent := index[id].isCurrent) == index[id])
    && (id in index && index[id].document != document ==> after[id] == index[id])
  }

  lemma FlagsOnly(index: Index, document: DocumentKey, version: string, ids: set<ChunkId>, id: ChunkId)
    ensures SameButFlag(index, OthersUnflagged(index, document, version, ids), document, id)
    ensures SameButFlag(index, OwnFlagged(OthersUnflagged(index, document, version, index.Keys), document, version,
        ids),
                        document, id)
    ensures SameButFlag(index, Flagged(index, document, version), document, id)
  {
  }

  class OpenSearchIndex {
    var docs: Index

    constructor ()
      ensures docs == map[]
    {
      docs := map[];
    }

    /** `failed` is the set of chunks whose bulk item the server refuses. */
    method Bulk(document: DocumentKey, version: string, chunks: seq<string>, failed: set<ChunkId>)
      returns (refused: set<ChunkId>, successful: set<ChunkId>)
      modifies this
      ensures refused == ChunkIds(version, |chunks|) * failed && successful == ChunkIds(version, |chunks|) - failed
      ensures docs == Written(old(docs), document, version, chunks, failed)
    {
      refused, successful := {}, {};
      for i := 0 to |chunks|
        invariant refused == ChunkIds(version, i) * failed && successful == ChunkIds(version, i) - failed
        invariant docs == Written(old(docs), document, version, chunks[..i], failed)
      {
        var id := ChunkId(version, i);
        WrittenStep(old(docs), document, version, chunks, i, failed);
        if id in failed {
          refused := refused + {id};
        } else {
          docs := docs[id := IndexedChunk(document, version, chunks[i], false)];
          successful := successful + {id};
        }
      }
      assert chunks[..|chunks|] == chunks;
    }

    /** The delete by query of the cleanup, raising after `stop` if there is one. */
    method Cleanup(ids: set<ChunkId>, stop: Option<set<ChunkId>>) returns (raised: bool)
      modifies this
      ensures raised == stop.Some?
      ensures docs == Without(old(docs), if stop == None then ids else ids * stop.value)
    {
      docs := Without(docs, if stop == None then ids else ids * stop.value);
      raised := stop.Some?;
    }

    /** The update that unflags every other version of the document. */
    method UnflagOthers(document: DocumentKey, version: string, stop: Option<set<ChunkId>>) returns (raised: bool)
      modifies this
      ensures raised == stop.Some?
      ensures docs == OthersUnflagged(old(docs), document, version, if stop == None then old(docs).Keys else stop.value)
    {
      var ids := if stop == None then docs.Keys else stop.value;
      docs := map id | id in docs ::
        if docs[id].document == document && docs[id].version != version && id in ids
        then docs[id].(isCurrent := false) else docs[id];
      raised := stop.Some?;
    }

    /** The update that flags the version itself. */
    method FlagOwn(document: DocumentKey, version: string, stop: Option<set<ChunkId>>) returns (raised: bool)
      modifies this
      ensures raised == stop.Some?
      ensures docs == OwnFlagged(old(docs), document, version, if stop == None then old(docs).Keys else stop.value)
    {
      var ids := if stop == None then docs.Keys else stop.value;
      docs := map id | id in docs ::
        if docs[id].document == document && docs[id].version == version && id in ids
        then docs[id].(isCurrent := true) else docs[id];
      raised := stop.Some?;
    }

    method Upsert(document: DocumentKey, version: string, chunks: seq<string>, course: Course)
      returns (r: Result<(), ReplayError>)
      modifies this
      ensures (docs, r) == UpsertOutcome(old(docs), document, version, chunks, course)
    {
      if !course.authorized {
        return Err(PolicyViolation);
      }
      ghost var before := docs;
      var refused, successful := Bulk(document, version, chunks, course.failed);
      if course.ending.AtBulk? {
        return Err(RequestFailed);
      }
      assert Without(docs, {}) == docs;
      if refused != {} {
        if successful != {} {
          var raised := Cleanup(successful, if course.ending.AtCleanup? then Some(course.ending.removed) else None);
          if raised {
            return Err(RequestFailed);
          }
        }
        return Err(BulkFailed(refused));
      }
      NoneRefused(before, document, version, chunks, course.failed);
      ghost var written := docs;
      var raised := UnflagOthers(document, version,
        if course.ending.AtUnflagging? then Some(course.ending.unflagged) else None);
      if raised {
        return Err(RequestFailed);
      }
      raised := FlagOwn(document, version, if course.ending.AtFlagging? then Some(course.ending.flagged) else None);
      if raised {
        return Err(RequestFailed);
      }
      FlaggedInTwo(written, document, version);
      r := Ok(());
    }

    method RemoveDocument(document: DocumentKey, known: bool) returns (r: Result<(), ReplayError>)
      modifies this
      ensures !known ==> r == Err(PolicyViolation) && docs == old(docs)
      ensures known ==> r.Ok? && docs == map id | id in old(docs) && old(docs)[id].document != document :: old(docs)[id]
    {
      if !known {
        return Err(PolicyViolation);
      }
      docs := map id | id in docs && docs[id].document != document :: docs[id];
      r := Ok(());
    }
  }

  // ----- the rebuild

  /** One row of the replay query: a completed version of a live document. */
  datatype Row = Row(version: Version, isCurrent: bool)

  /** The chunk texts of a version as its checked artifacts give them, or an integrity error. */
  type Artifacts = Version -> Result<seq<string>, ReplayError>

  /** What the replay query returns: each completed version of a live document once, the
      versions of a document in order, its current version last. */
  ghost predicate IsQueryResult(t: Tables, completed: set<string>, rows: seq<Row>) {
    && (forall i :: 0 <= i < |rows| ==>
          && rows[i].version.id in t.versions && t.versions[rows[i].version.id] == rows[i].version
          && rows[i].version.id in completed && IsLive(t, rows[i].version.document)
          && (rows[i].isCurrent <==> t.documents[rows[i].version.document].current == Some(rows[i].version.id)))
    && (forall id :: id in t.versions && id in completed && IsLive(t, t.versions[id].document) ==>
          exists i :: 0 <= i < |rows| && rows[i].version.id == id)
    && (forall i, j :: 0 <= i < j < |rows| ==> rows[i].version.id != rows[j].version.id)
    && (forall i, j :: 0 <= i < j < |rows| && rows[i].version.document == rows[j].version.document ==>
          RowLe(rows[i], rows[j]))
  }

  predicate RowLe(a: Row, b: Row) {
    (!a.isCurrent && b.isCurrent) || (a.isCurrent == b.isCurrent && VersionLe(a.version, b.version))
  }

  predicate IsLive(t: Tables, d: DocumentKey) {
    d in t.documents && !t.documents[d].deleted && t.documents[d].current.Some?
  }

  function CurrentCount(rows: seq<Row>): nat {
    if rows == [] then 0
    else CurrentCount(rows[..|rows| - 1]) + if rows[|rows| - 1].isCurrent then 1 else 0
  }

  /** The index after the rows have been written in order. */
  function Rebuilt(rows: seq<Row>, artifacts: Artifacts): Index {
    if rows == [] then map[]
    else
      var row := rows[|rows| - 1];
      var before := Rebuilt(rows[..|rows| - 1], artifacts);
      var chunks := ChunksOf(row, artifacts);
      if chunks == [] then before else Upserted(before, row.version.document, row.version.id, chunks)
  }

  function ChunksOf(row: Row, artifacts: Artifacts): seq<string> {
    var loaded := artifacts(row.version);
    if loaded.Ok? then loaded.value else []
  }

  function TotalChunks(rows: seq<Row>, artifacts: Artifacts): nat {
    if rows == [] then 0
    else TotalChunks(rows[..|rows| - 1], artifacts) + |ChunksOf(rows[|rows| - 1], artifacts)|
  }

  method CountCurrent(rows: seq<Row>) returns (count: nat)
    ensures count == CurrentCount(rows)
  {
    count := 0;
    for i := 0 to |rows|
      invariant count == CurrentCount(rows[..i])
    {
      assert rows[..i + 1][..i] == rows[..i];
      count := count + if rows[i].isCurrent then 1 else 0;
    }
    assert rows[..|rows|] == rows;
  }

  function IdList(version: string, n: nat): seq<ChunkId> {
    seq(n, i requires 0 <= i < n => ChunkId(version, i))
  }

  /** The identifiers of all chunks written, in order. */
  function RestoredIds(rows: seq<Row>, artifacts: Artifacts): seq<ChunkId> {
    if rows == [] then []
    else
      var row := rows[|rows| - 1];
      RestoredIds(rows[..|rows| - 1], artifacts) + IdList(row.version.id, |ChunksOf(row, artifacts)|)
  }

  datatype ReplaySummary = ReplaySummary(documents: nat, versions: nat, chunks: nat, ids: seq<ChunkId>)

  /** One row: an artifact error, nothing to write, or the outcome of its upsert. */
  function RowOutcome(index: Index, row: Row, artifacts: Artifacts, courses: Version -> Course)
    : (Index, Result<(), ReplayError>)
  {
    var loaded := artifacts(row.version);
    if loaded.Err? then (index, Err(loaded.error))
    else if loaded.value == [] then (index, Ok(()))
    else UpsertOutcome(index, row.version.document, row.version.id, loaded.value, courses(row.version))
  }

  /** The rows in order, up to the first error. */
  function Replayed(rows: seq<Row>, artifacts: Artifacts, courses: Version -> Course)
    : (Index, Result<(), ReplayError>)
  {
    if rows == [] then (map[], Ok(()))
    else
      var before := Replayed(rows[..|rows| - 1], artifacts, courses);
      if before.1.Err? then before else RowOutcome(before.0, rows[|rows| - 1], artifacts, courses)
  }

  /** Nothing stands in the way of this row. */
  ghost predicate Restorable(row: Row, artifacts: Artifacts, courses: Version -> Course) {
    && artifacts(row.version).Ok?
    && (artifacts(row.version).value != [] ==>
          Completes(courses(row.version), ChunkIds(row.version.id, |artifacts(row.version).value|)))
  }

  /** The replay succeeds exactly if every row is restorable, and then the index is rebuilt. */
  lemma {:induction false} ReplayedIsRebuilt(rows: seq<Row>, artifacts: Artifacts, courses: Version -> Course)
    ensures var (index, r) := Replayed(rows, artifacts, courses);
      && (r.Ok? <==> forall i :: 0 <= i < |rows| ==> Restorable(rows[i], artifacts, courses))
      && (r.Ok? ==> index == Rebuilt(rows, artifacts))
    ensures |RestoredIds(rows, artifacts)| == TotalChunks(rows, artifacts)
  {
    hide Upserted, Written, Without, ChunkIds;
    if rows != [] {
      var n := |rows| - 1;
      ReplayedIsRebuilt(rows[..n], artifacts, courses);
      assert forall i :: 0 <= i < n ==> rows[..n][i] == rows[i];
    }
  }

  lemma {:induction false} ErrorStays(rows: seq<Row>, n: nat, artifacts: Artifacts, courses: Version -> Course)
    requires n <= |rows| && Replayed(rows[..n], artifacts, courses).1.Err?
    ensures Replayed(rows, artifacts, courses) == Replayed(rows[..n], artifacts, courses)
    decreases |rows|
  {
    hide RowOutcome;
    if n < |rows| {
      assert rows[..|rows| - 1][..n] == rows[..n];
      ErrorStays(rows[..|rows| - 1], n, artifacts, courses);
    } else {
      assert rows[..n] == rows;
    }
  }

  lemma ReplayedStep(rows: seq<Row>, i: nat, artifacts: Artifacts, courses: Version -> Course)
    requires i < |rows| && Replayed(rows[..i], artifacts, courses).1.Ok?
    ensures Replayed(rows[..i + 1], artifacts, courses) ==
      RowOutcome(Replayed(rows[..i], artifacts, courses).0, rows[i], artifacts, courses)
    ensures TotalChunks(rows[..i + 1], artifacts) == TotalChunks(rows[..i], artifacts) + |ChunksOf(rows[i], artifacts)|
    ensures RestoredIds(rows[..i + 1], artifacts) ==
      RestoredIds(rows[..i], artifacts) + IdList(rows[i].version.id, |ChunksOf(rows[i], artifacts)|)
    ensures ChunksOf(rows[i], artifacts) == [] ==>
        RestoredIds(rows[..i + 1], artifacts) == RestoredIds(rows[..i], artifacts)
  {
    hide RowOutcome;
    assert rows[..i + 1][..i] == rows[..i];
  }

  method ReplayAuthoritative(index: OpenSearchIndex, rows: seq<Row>, activeDocuments: nat, artifacts: Artifacts,
                             courses: Version -> Course)
    returns (r: Result<ReplaySummary, ReplayError>)
    requires index.docs == map[]
    modifies index
    ensures CurrentCount(rows) != activeDocuments ==> r == Err(NotRestorable) && index.docs == map[]
    ensures CurrentCount(rows) == activeDocuments ==>
      var (docs, outcome) := Replayed(rows, artifacts, courses);
      && index.docs == docs
      && r == if outcome.Err? then Err(outcome.error)
              else Ok(ReplaySummary(activeDocuments, |rows|, TotalChunks(rows, artifacts),
                RestoredIds(rows, artifacts)))
    ensures r.Ok? ==> index.docs == Rebuilt(rows, artifacts)
  {
    hide UpsertOutcome, Replayed, TotalChunks, RestoredIds, Rebuilt, CurrentCount;
    var currentCount := CountCurrent(rows);
    if currentCount != activeDocuments {
      return Err(NotRestorable);
    }
    var chunkCount: nat, chunkIds: seq<ChunkId> := 0, [];
    NothingReplayed(artifacts, courses);
    assert rows[..0] == [];
    for i := 0 to |rows|
      invariant Replayed(rows[..i], artifacts, courses).0 == index.docs
      invariant Replayed(rows[..i], artifacts, courses).1.Ok?
      invariant chunkCount == TotalChunks(rows[..i], artifacts) && chunkIds == RestoredIds(rows[..i], artifacts)
    {
      ReplayedStep(rows, i, artifacts, courses);
      var row := rows[i];
      var loaded := artifacts(row.version);
      if loaded.Err? {
        ErrorStays(rows, i + 1, artifacts, courses);
        return Err(loaded.error);
      }
      assert ChunksOf(row, artifacts) == loaded.value;
      if loaded.value == [] {
        continue;
      }
      var written := index.Upsert(row.version.document, row.version.id, loaded.value, courses(row.version));
      if written.Err? {
        ErrorStays(rows, i + 1, artifacts, courses);
        return Err(written.error);
      }
      chunkCount := chunkCount + |loaded.value|;
      chunkIds := chunkIds + IdList(row.version.id, |loaded.value|);
    }
    assert rows[..|rows|] == rows;
    ReplayedIsRebuilt(rows, artifacts, courses);
    r := Ok(ReplaySummary(activeDocuments, |rows|, chunkCount, chunkIds));
  }

  lemma NothingReplayed(artifacts: Artifacts, courses: Version -> Course)
    ensures Replayed([], artifacts, courses) == (map[], Ok(()))
    ensures TotalChunks([], artifacts) == 0 && RestoredIds([], artifacts) == []
  {
  }

  // ----- the rebuilt index agrees with the tables

  /** No later row of the same document has chunks. */
  ghost predicate LastWithChunks(rows: seq<Row>, artifacts: Artifacts, i: nat)
    requires i < |rows|
  {
    forall j :: i < j < |rows| && rows[j].version.document == rows[i].version.document ==>
      ChunksOf(rows[j], artifacts) == []
  }

  ghost predicate Distinct(rows: seq<Row>) {
    forall i, j :: 0 <= i < j < |rows| ==> rows[i].version.id != rows[j].version.id
  }

  /** Every chunk of every row is in the index, flagged exactly when its row is the last of
      its document with chunks. */
  lemma {:induction false} RebuiltHas(rows: seq<Row>, artifacts: Artifacts, i: nat, o: nat)
    requires Distinct(rows) && i < |rows| && o < |ChunksOf(rows[i], artifacts)|
    ensures var id := ChunkId(rows[i].version.id, o);
      && id in Rebuilt(rows, artifacts)
      && Rebuilt(rows, artifacts)[id]
        == IndexedChunk(rows[i].version.document, rows[i].version.id, ChunksOf(rows[i], artifacts)[o],
                                                      LastWithChunks(rows, artifacts, i))
  {
    var n := |rows| - 1;
    var last, before := rows[n], rows[..n];
    var id := ChunkId(rows[i].version.id, o);
    WrittenAt(Rebuilt(before, artifacts), last.version.document, last.version.id, ChunksOf(last, artifacts), id);
    if i < n {
      RebuiltHas(before, artifacts, i, o);
      var lastIsEmpty := last.version.document == rows[i].version.document ==> ChunksOf(last, artifacts) == [];
      assert LastWithChunks(rows, artifacts, i) == (LastWithChunks(before, artifacts, i) && lastIsEmpty);
    }
  }

  /** And nothing else is in the index. */
  lemma {:induction false} RebuiltHasOnly(rows: seq<Row>, artifacts: Artifacts, id: ChunkId) returns (i: nat)
    requires Distinct(rows) && id in Rebuilt(rows, artifacts)
    ensures i < |rows| && rows[i].version.id == id.version && id.ordinal < |ChunksOf(rows[i], artifacts)|
  {
    var n := |rows| - 1;
    var last, before := rows[n], rows[..n];
    WrittenAt(Rebuilt(before, artifacts), last.version.document, last.version.id, ChunksOf(last, artifacts), id);
    if id.version == last.version.id && id.ordinal < |ChunksOf(last, artifacts)| {
      i := n;
    } else {
      i := RebuiltHasOnly(before, artifacts, id);
    }
  }

  ghost function LiveDocuments(t: Tables): set<DocumentKey> {
    set d | d in t.documents && IsLive(t, d)
  }

  ghost function CurrentDocuments(rows: seq<Row>): set<DocumentKey> {
    set i | 0 <= i < |rows| && rows[i].isCurrent :: rows[i].version.document
  }

  /** No document has two current rows. */
  ghost predicate OneCurrentEach(rows: seq<Row>) {
    forall i, j :: 0 <= i < j < |rows| && rows[i].isCurrent && rows[j].isCurrent ==>
      rows[i].version.document != rows[j].version.document
  }

  lemma {:induction false} CurrentCountIsDocuments(rows: seq<Row>)
    requires OneCurrentEach(rows)
    ensures CurrentCount(rows) == |CurrentDocuments(rows)|
  {
    if rows != [] {
      var n := |rows| - 1;
      CurrentCountIsDocuments(rows[..n]);
      CurrentDocumentsStep(rows);
      hide CurrentDocuments, OneCurrentEach;
    }
  }

  lemma CurrentDocumentsStep(rows: seq<Row>)
    requires OneCurrentEach(rows) && rows != []
    ensures var n := |rows| - 1;
      var before := CurrentDocuments(rows[..n]);
      && CurrentDocuments(rows) == (if rows[n].isCurrent then before + {rows[n].version.document} else before)
      && (rows[n].isCurrent ==> rows[n].version.document !in before)
  {
  }

  lemma SubsetOfSameSize<T>(a: set<T>, b: set<T>)
    requires a <= b && |a| == |b|
    ensures a == b
  {
    assert |b| == |a| + |b - a| by { assert b == a + (b - a); }
  }

  /** The count check makes sure that the current version of every live document is restored. */
  lemma CurrentIsRestored(t: Tables, completed: set<string>, rows: seq<Row>, d: DocumentKey) returns (i: nat)
    requires IsQueryResult(t, completed, rows) && IsLive(t, d)
    requires CurrentCount(rows) == |LiveDocuments(t)|
    ensures i < |rows| && rows[i].isCurrent && rows[i].version.document == d
  {
    CurrentCountIsDocuments(rows);
    SubsetOfSameSize(CurrentDocuments(rows), LiveDocuments(t));
    assert d in CurrentDocuments(rows);
    i :| 0 <= i < |rows| && rows[i].isCurrent && rows[i].version.document == d;
  }

  /** In document `d` a chunk is flagged exactly when it belongs to the current version. */
  ghost predicate Agrees(t: Tables, index: Index, d: DocumentKey)
    requires d in t.documents
  {
    forall id :: id in index && index[id].document == d ==>
      (index[id].isCurrent <==> t.documents[d].current == Some(id.version))
  }

  /** The row of the current version comes after every other row of its document. */
  lemma CurrentRowIsLast(t: Tables, completed: set<string>, rows: seq<Row>, c: nat)
    requires IsQueryResult(t, completed, rows) && c < |rows| && rows[c].isCurrent
    ensures forall j :: 0 <= j < |rows| && j != c && rows[j].version.document == rows[c].version.document ==>
      j < c && !rows[j].isCurrent
  {
  }

  /** Some completed version of `d` has chunks. */
  ghost predicate HasChunks(rows: seq<Row>, artifacts: Artifacts, d: DocumentKey) {
    exists j :: 0 <= j < |rows| && rows[j].version.document == d && ChunksOf(rows[j], artifacts) != []
  }

  lemma AgreesIfCurrentHasChunks(t: Tables, completed: set<string>, rows: seq<Row>, artifacts: Artifacts, c: nat)
    requires IsQueryResult(t, completed, rows) && c < |rows| && rows[c].isCurrent
    requires ChunksOf(rows[c], artifacts) != [] || !HasChunks(rows, artifacts, rows[c].version.document)
    ensures Agrees(t, Rebuilt(rows, artifacts), rows[c].version.document)
  {
    var index, d := Rebuilt(rows, artifacts), rows[c].version.document;
    CurrentRowIsLast(t, completed, rows, c);
    forall id | id in index && index[id].document == d
      ensures index[id].isCurrent <==> t.documents[d].current == Some(id.version)
    {
      var i := RebuiltHasOnly(rows, artifacts, id);
      RebuiltHas(rows, artifacts, i, id.ordinal);
    }
  }

  lemma DisagreesOtherwise(t: Tables, completed: set<string>, rows: seq<Row>, artifacts: Artifacts, c: nat)
    requires IsQueryResult(t, completed, rows) && c < |rows| && rows[c].isCurrent
    requires ChunksOf(rows[c], artifacts) == [] && HasChunks(rows, artifacts, rows[c].version.document)
    ensures !Agrees(t, Rebuilt(rows, artifacts), rows[c].version.document)
  {
    var d := rows[c].version.document;
    var j :| 0 <= j < |rows| && rows[j].version.document == d && ChunksOf(rows[j], artifacts) != [];
    var last := LastRowWithChunks(rows, artifacts, d, j);
    RebuiltHas(rows, artifacts, last, 0);
    CurrentRowIsLast(t, completed, rows, c);
  }

  /** After a successful replay a live document agrees with the tables if and only if its
      current version has chunks, or none of its completed versions has any. */
  lemma ReplayAgrees(t: Tables, completed: set<string>, rows: seq<Row>, artifacts: Artifacts, d: DocumentKey)
    requires IsQueryResult(t, completed, rows) && IsLive(t, d)
    requires CurrentCount(rows) == |LiveDocuments(t)|
    ensures Agrees(t, Rebuilt(rows, artifacts), d) <==>
        CurrentHasChunks(t, artifacts, d) || !HasChunks(rows, artifacts, d)
  {
    var c := CurrentIsRestored(t, completed, rows, d);
    if ChunksOf(rows[c], artifacts) == [] && HasChunks(rows, artifacts, d) {
      DisagreesOtherwise(t, completed, rows, artifacts, c);
    } else {
      AgreesIfCurrentHasChunks(t, completed, rows, artifacts, c);
    }
  }

  /** The current version of `d` has chunks. */
  ghost predicate CurrentHasChunks(t: Tables, artifacts: Artifacts, d: DocumentKey)
    requires IsLive(t, d)
  {
    var id := t.documents[d].current.value;
    id in t.versions && artifacts(t.versions[id]).Ok? && artifacts(t.versions[id]).value != []
  }

  lemma LastRowWithChunks(rows: seq<Row>, artifacts: Artifacts, d: DocumentKey, j: nat) returns (last: nat)
    requires j < |rows| && rows[j].version.document == d && ChunksOf(rows[j], artifacts) != []
    ensures last < |rows| && rows[last].version.document == d && ChunksOf(rows[last], artifacts) != []
    ensures LastWithChunks(rows, artifacts, last)
    decreases |rows| - j
  {
    if k :| j < k < |rows| && rows[k].version.document == d && ChunksOf(rows[k], artifacts) != [] {
      last := LastRowWithChunks(rows, artifacts, d, k);
    } else {
      last := j;
    }
  }

  /** Every chunk of every completed version of a live document is restored; and if the current
      version has chunks, a chunk is flagged exactly if its version is current. */
  lemma ReplayIsComplete(t: Tables, completed: set<string>, rows: seq<Row>, artifacts: Artifacts, v: Version, o: nat)
    requires IsQueryResult(t, completed, rows) && CurrentCount(rows) == |LiveDocuments(t)|
    requires v.id in t.versions && t.versions[v.id] == v && v.id in completed && IsLive(t, v.document)
    requires artifacts(v).Ok? && o < |artifacts(v).value|
    ensures var index, id := Rebuilt(rows, artifacts), ChunkId(v.id, o);
      && id in index && index[id].text == artifacts(v).value[o] && index[id].document == v.document
      && (t.documents[v.document].current == Some(v.id) ==> index[id].isCurrent)
      && (CurrentHasChunks(t, artifacts, v.document) ==>
            (index[id].isCurrent <==> t.documents[v.document].current == Some(v.id)))
  {
    var i :| 0 <= i < |rows| && rows[i].version.id == v.id;
    RebuiltHas(rows, artifacts, i, o);
    if t.documents[v.document].current == Some(v.id) {
      CurrentRowIsLast(t, completed, rows, i);
      assert LastWithChunks(rows, artifacts, i);
    }
    ReplayAgrees(t, completed, rows, artifacts, v.document);
  }

  lemma ReplayAddsNothing(t: Tables, completed: set<string>, rows: seq<Row>, artifacts: Artifacts, id: ChunkId)
    requires IsQueryResult(t, completed, rows) && id in Rebuilt(rows, artifacts)
    ensures id.version in t.versions && id.version in completed && IsLive(t, t.versions[id.version].document)
    ensures artifacts(t.versions[id.version]).Ok? && id.ordinal < |artifacts(t.versions[id.version]).value|
    ensures Rebuilt(rows, artifacts)[id].document == t.versions[id.version].document
  {
    var i := RebuiltHasOnly(rows, artifacts, id);
    RebuiltHas(rows, artifacts, i, id.ordinal);
  }

  /** The condition is needed: emptying a document that had text leaves the old text flagged. */
  lemma EmptyCurrentVersionLeavesOldFlag()
    ensures var d := DocumentKey("t", "d");
      var v1, v2 := Version("v1", d, 1, "1"), Version("v2", d, 2, "2");
      var t := Tables(map["v1" := v1, "v2" := v2], map[d := Document(Some("v2"), false)]);
      var artifacts: Artifacts := v => if v == v1 then Ok(["text"]) else Ok([]);
      IsQueryResult(t, {"v1", "v2"}, [Row(v1, false), Row(v2, true)])
      && !Agrees(t, Rebuilt([Row(v1, false), Row(v2, true)], artifacts), d)
  {
  }
}
