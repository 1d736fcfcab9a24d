/** The search index while ingestion goes on: a version is flagged current when its chunks are
    prepared, before the guarded promotion decides whether it is
    (src/modules/ingestion/pipeline.py, src/grounded_ops/worker.py,
    src/adapters/opensearch/index_writer.py). */
module LiveIndex {
  import opened Wrappers
  import opened Documents
  import opened Replay

  /** The chunk texts of a version, the same in every run that prepares it. */
  type Texts = string -> seq<string>

  /** The tables and the index; for each document the version whose flags stand, if any; and the
      chunks that were written or unflagged since their flag was set. */
  datatype World = World(tables: Tables, index: Index, standing: map<DocumentKey, string>, bare: set<ChunkId>)

  /** A stage prepares a version, and its upsert goes some way; or a transaction promotes or deletes.
      Steps may come from any worker, and a transaction that rolls back leaves its prepared chunks
      behind. One preparation is one step: the run's transaction holds the document's row from
      before its upsert until it ends, and promotions and deletions of the document wait for the
      row, while steps of other documents touch neither its chunks nor its row. */
  datatype LiveStep = Prepare(version: string, course: Course) | Commit(action: Action)

  function Act(texts: Texts, w: World, step: LiveStep): World {
    match step
    case Commit(action) => w.(tables := Documents.Act(w.tables, action))
    case Prepare(v, course) =>
      if texts(v) == [] || v !in w.tables.versions then w
      else
        var d := w.tables.versions[v].document;
        var ids := ChunkIds(v, |texts(v)|);
        World(w.tables, UpsertOutcome(w.index, d, v, texts(v), course).0,
              StandingAfter(w, d, v, ids, course), BareAfter(w, d, v, ids, course))
  }

  /** The flags of a version stand when the others were all unflagged and some of its own set; they
      fall when those of another one stand. */
  function StandingAfter(w: World, d: DocumentKey, v: string, ids: set<ChunkId>, course: Course)
    : map<DocumentKey, string>
  {
    if Completes(course, ids) || (Flagging(course, ids) && course.ending.AtFlagging?) then w.standing[d := v]
    else w.standing
  }

  /** The upsert gets as far as the updates by query. */
  predicate Flagging(course: Course, ids: set<ChunkId>) {
    course.authorized && !course.ending.AtBulk? && ids * course.failed == {}
  }

  /** What the bulk writes has no flag; unflagging takes flags of other versions, flagging gives its
      own back. */
  function BareAfter(w: World, d: DocumentKey, v: string, ids: set<ChunkId>, course: Course): set<ChunkId> {
    var written := w.bare + (ids - course.failed);
    if !course.authorized then w.bare
    else if !Flagging(course, ids) then written
    else if course.ending.AtUnflagging? then
      written + set id | id in course.ending.unflagged && id.version != v
                         && id.version in w.tables.versions && w.tables.versions[id.version].document == d
    else if course.ending.AtFlagging? then written - ids * course.ending.flagged
    else written - ids
  }

  function RunAll(texts: Texts, w: World, steps: seq<LiveStep>): World {
    if steps == [] then w else Act(texts, RunAll(texts, w, steps[..|steps| - 1]), steps[|steps| - 1])
  }

  function Standing(w: World, d: DocumentKey): Option<string> {
    if d in w.standing then Some(w.standing[d]) else None
  }

  function Current(w: World, d: DocumentKey): Option<string> {
    if d in w.tables.documents then w.tables.documents[d].current else None
  }

  // ----- which chunks are flagged

  ghost predicate ChunkInv(texts: Texts, w: World, id: ChunkId)
    requires id in w.index
  {
    && w.index[id].version == id.version && id.ordinal < |texts(id.version)|
    && id.version in w.tables.versions && w.tables.versions[id.version].document == w.index[id].document
    && (w.index[id].isCurrent <==> Standing(w, w.index[id].document) == Some(id.version) && id !in w.bare)
  }

  /** Flagged are the chunks of the standing version that are not bare; it is one of its document's. */
  ghost predicate Inv(texts: Texts, w: World) {
    && (forall id :: id in w.index ==> ChunkInv(texts, w, id))
    && forall d :: d in w.standing ==>
         w.standing[d] in w.tables.versions && w.tables.versions[w.standing[d]].document == d
  }

  /** What the two updates by query make of one chunk. */
  lemma UpdatesAt(index: Index, d: DocumentKey, v: string, some: set<ChunkId>, c: ChunkId)
    ensures var others := OthersUnflagged(index, d, v, some);
      var own := OwnFlagged(OthersUnflagged(index, d, v, index.Keys), d, v, some);
      && (c in others <==> c in index) && (c in own <==> c in index)
      && (c in index ==>
            && others[c] == (if index[c].document == d && index[c].version != v && c in some
                             then index[c].(isCurrent := false) else index[c])
            && own[c] == (if index[c].document != d then index[c]
                          else if index[c].version != v then index[c].(isCurrent := false)
                          else if c in some then index[c].(isCurrent := true) else index[c]))
  {
  }

  /** The flag of one chunk after an upsert: `before` it, whether it is of the document, whether of
      the version. */
  function FlagAfter(course: Course, ids: set<ChunkId>, c: ChunkId, ofDocument: bool, ofVersion: bool, before: bool)
    : bool
  {
    var bulk := if c in ids && c !in course.failed then false else before;
    if !course.authorized then before
    else if !Flagging(course, ids) then bulk
    else if course.ending.AtUnflagging? then bulk && !(ofDocument && !ofVersion && c in course.ending.unflagged)
    else if course.ending.AtFlagging? then
      if !ofDocument then bulk else if !ofVersion then false else bulk || c in course.ending.flagged
    else if ofDocument then ofVersion else bulk
  }

  /** One chunk after an upsert. */
  ghost predicate UpsertedChunk(index: Index, d: DocumentKey, v: string, ids: set<ChunkId>, course: Course,
                                after: Index, c: ChunkId)
    requires c in after
  {
    var own := course.authorized && c in ids && c !in course.failed;
    && (own || c in index)
    && after[c].document == (if own then d else index[c].document)
    && after[c].version == (if own then v else index[c].version)
    && after[c].isCurrent == FlagAfter(course, ids, c, after[c].document == d, after[c].version == v,
                                       c in index && index[c].isCurrent)
  }

  lemma UpsertAt(index: Index, d: DocumentKey, v: string, chunks: seq<string>, course: Course, c: ChunkId)
    ensures var after := UpsertOutcome(index, d, v, chunks, course).0;
      c in after ==> UpsertedChunk(index, d, v, ChunkIds(v, |chunks|), course, after, c)
  {
    var ids := ChunkIds(v, |chunks|);
    WrittenSome(index, d, v, chunks, course.failed, c);
    if Flagging(course, ids) {
      FlaggedAt(index, d, v, chunks, course, c);
    } else {
      hide Written, ChunkIds;
    }
  }

  lemma FlaggedAt(index: Index, d: DocumentKey, v: string, chunks: seq<string>, course: Course, c: ChunkId)
    requires Flagging(course, ChunkIds(v, |chunks|))
    ensures var after := UpsertOutcome(index, d, v, chunks, course).0;
      c in after ==> UpsertedChunk(index, d, v, ChunkIds(v, |chunks|), course, after, c)
  {
    var ids := ChunkIds(v, |chunks|);
    var written := Written(index, d, v, chunks, course.failed);
    WrittenSome(index, d, v, chunks, course.failed, c);
    NoneRefused(index, d, v, chunks, course.failed);
    FlaggedInTwo(written, d, v);
    match course.ending
    case AtUnflagging(some) => UpdatesAt(written, d, v, some, c);
    case AtFlagging(some) => UpdatesAt(written, d, v, some, c);
    case _ => UpdatesAt(written, d, v, written.Keys, c);
    hide Written, ChunkIds, OthersUnflagged, OwnFlagged, Flagged;
  }

  lemma PrepareKeepsAt(texts: Texts, w: World, v: string, course: Course, c: ChunkId)
    requires Inv(texts, w) && texts(v) != [] && v in w.tables.versions
    requires c in Act(texts, w, Prepare(v, course)).index
    ensures ChunkInv(texts, Act(texts, w, Prepare(v, course)), c)
  {
    var d, ids := w.tables.versions[v].document, ChunkIds(v, |texts(v)|);
    assert c in ids <==> c.version == v && c.ordinal < |texts(v)|;
    assert c in w.index ==> ChunkInv(texts, w, c);
    UpsertAt(w.index, d, v, texts(v), course, c);
    assert c in ids && c in course.failed ==> c in ids * course.failed;
    hide UpsertOutcome, ChunkIds, Inv;
  }

  lemma PrepareKeeps(texts: Texts, w: World, v: string, course: Course)
    requires Inv(texts, w)
    ensures Inv(texts, Act(texts, w, Prepare(v, course)))
  {
    if texts(v) != [] && v in w.tables.versions {
      var after := Act(texts, w, Prepare(v, course));
      forall c | c in after.index
        ensures ChunkInv(texts, after, c)
      {
        PrepareKeepsAt(texts, w, v, course, c);
      }
      hide UpsertOutcome, BareAfter, ChunkInv;
    }
  }

  /** Whatever fails and wherever, the chunks flagged in a document are those of at most one version,
      the standing one. */
  lemma {:induction false} RunKeeps(texts: Texts, w: World, steps: seq<LiveStep>)
    requires Inv(texts, w)
    ensures Inv(texts, RunAll(texts, w, steps))
  {
    if steps != [] {
      var before, last := RunAll(texts, w, steps[..|steps| - 1]), steps[|steps| - 1];
      RunKeeps(texts, w, steps[..|steps| - 1]);
      match last
      case Prepare(v, course) => PrepareKeeps(texts, before, v, course);
      case Commit(action) =>
        forall c | c in before.index
          ensures ChunkInv(texts, Act(texts, before, last), c)
        {
          assert ChunkInv(texts, before, c);
        }
    }
  }

  // ----- when the index agrees with the tables

  /** Every indexed chunk of the version is bare. */
  ghost predicate AllBare(w: World, version: Option<string>) {
    forall id :: id in w.index && version == Some(id.version) ==> id in w.bare
  }

  /** No indexed chunk of the version is bare. */
  ghost predicate NoneBare(w: World, version: Option<string>) {
    forall id :: id in w.index && version == Some(id.version) ==> id !in w.bare
  }

  ghost predicate HasChunks(w: World, version: Option<string>) {
    exists id :: id in w.index && version == Some(id.version)
  }

  function Empty(t: Tables): World {
    World(t, map[], map[], {})
  }

  /** Whatever was prepared, as far as it went, promoted, deleted or rolled back, in whatever order:
      the live index agrees with the tables on a document if and only if the flags that stand are
      those of the current version and none of its chunks is bare, or the current version has no
      chunks in the index and the standing one only bare ones. */
  lemma LiveAgrees(texts: Texts, t: Tables, steps: seq<LiveStep>, d: DocumentKey)
    requires Consistent(t) && d in t.documents
    ensures var w := RunAll(texts, Empty(t), steps);
      && d in w.tables.documents
      && (Agrees(w.tables, w.index, d) <==>
            if Standing(w, d) == Current(w, d) then NoneBare(w, Current(w, d))
            else !HasChunks(w, Current(w, d)) && AllBare(w, Standing(w, d)))
  {
    RunKeeps(texts, Empty(t), steps);
    TablesStayConsistent(texts, t, steps);
    hide RunAll, Consistent, Inv, Agrees, HasChunks, AllBare, NoneBare;
    AgreesMeans(texts, RunAll(texts, Empty(t), steps), d);
  }

  lemma AgreesMeans(texts: Texts, w: World, d: DocumentKey)
    requires Inv(texts, w) && Consistent(w.tables) && d in w.tables.documents
    ensures Agrees(w.tables, w.index, d) <==>
      if Standing(w, d) == Current(w, d) then NoneBare(w, Current(w, d))
      else !HasChunks(w, Current(w, d)) && AllBare(w, Standing(w, d))
  {
    var s, c := Standing(w, d), Current(w, d);
    CurrentIsOwn(w.tables, d);
    hide Consistent;
    if Agrees(w.tables, w.index, d) {
      forall id | id in w.index && (s == Some(id.version) || c == Some(id.version))
        ensures w.index[id].document == d
        ensures w.index[id].isCurrent <==> c == Some(id.version)
        ensures w.index[id].isCurrent <==> s == Some(id.version) && id !in w.bare
      {
        assert ChunkInv(texts, w, id);
      }
    } else {
      var id :| id in w.index && w.index[id].document == d && !(w.index[id].isCurrent <==> c == Some(id.version));
      assert ChunkInv(texts, w, id);
    }
  }

  lemma {:induction false} TablesStayConsistent(texts: Texts, t: Tables, steps: seq<LiveStep>)
    requires Consistent(t)
    ensures Consistent(RunAll(texts, Empty(t), steps).tables)
    ensures RunAll(texts, Empty(t), steps).tables.versions == t.versions
    ensures RunAll(texts, Empty(t), steps).tables.documents.Keys == t.documents.Keys
  {
    if steps != [] {
      TablesStayConsistent(texts, t, steps[..|steps| - 1]);
      var last := steps[|steps| - 1];
      if last.Commit? {
        ActKeepsConsistent(RunAll(texts, Empty(t), steps[..|steps| - 1]).tables, last.action);
      }
    }
  }

  lemma CurrentIsOwn(t: Tables, d: DocumentKey)
    requires Consistent(t)
    ensures d in t.documents && t.documents[d].current.Some? ==>
      t.documents[d].current.value in t.versions && t.versions[t.documents[d].current.value].document == d
  {
  }

  // ----- complete preparations

  const WHOLE: Course := Course(true, {}, Complete)

  /** What a preparation that comes to its end leaves, whatever happened before. */
  lemma CompleteDoes(texts: Texts, w: World, v: string, course: Course)
    requires v in w.tables.versions && texts(v) != [] && Completes(course, ChunkIds(v, |texts(v)|)) && Inv(texts, w)
    ensures var after := Act(texts, w, Prepare(v, course));
      && after.tables == w.tables
      && Standing(after, w.tables.versions[v].document) == Some(v)
      && NoneBare(after, Some(v)) && HasChunks(after, Some(v)) && !AllBare(after, Some(v))
  {
    var d, after := w.tables.versions[v].document, Act(texts, w, Prepare(v, course));
    PrepareKeeps(texts, w, v, course);
    assert forall id :: id in after.index && id.version == v ==> ChunkInv(texts, after, id);
    WrittenSome(w.index, d, v, texts(v), {}, ChunkId(v, 0));
    assert ChunkId(v, 0) in after.index;
  }

  /** A preparation that comes to its end settles its document, whatever broke off before: the index
      agrees if and only if the prepared version is the current one. */
  lemma CompleteSettles(texts: Texts, t: Tables, steps: seq<LiveStep>, v: string, course: Course)
    requires Consistent(t) && v in t.versions && texts(v) != [] && Completes(course, ChunkIds(v, |texts(v)|))
    ensures var w, d := RunAll(texts, Empty(t), steps + [Prepare(v, course)]), t.versions[v].document;
      && d in w.tables.documents
      && (Agrees(w.tables, w.index, d) <==> Current(w, d) == Some(v))
  {
    var before := RunAll(texts, Empty(t), steps);
    assert (steps + [Prepare(v, course)])[..|steps|] == steps;
    RunKeeps(texts, Empty(t), steps);
    TablesStayConsistent(texts, t, steps);
    CompleteDoes(texts, before, v, course);
    LiveAgrees(texts, t, steps + [Prepare(v, course)], t.versions[v].document);
  }

  // ----- deliveries one after the other

  /** Every version is prepared and then promoted. */
  function Ingestions(versions: seq<string>): seq<LiveStep> {
    if versions == [] then []
    else
      var v := versions[|versions| - 1];
      Ingestions(versions[..|versions| - 1]) + [Prepare(v, WHOLE), Commit(Promote(v))]
  }

  function Promotions(versions: seq<string>): seq<Action> {
    seq(|versions|, i requires 0 <= i < |versions| => Promote(versions[i]))
  }

  lemma TwoSteps(texts: Texts, w: World, steps: seq<LiveStep>, a: LiveStep, b: LiveStep)
    ensures RunAll(texts, w, steps + [a, b]) == Act(texts, Act(texts, RunAll(texts, w, steps), a), b)
  {
    assert (steps + [a, b])[..|steps| + 1] == steps + [a];
    assert (steps + [a])[..|steps|] == steps;
  }

  lemma {:induction false} IngestionsDo(texts: Texts, t: Tables, versions: seq<string>, d: DocumentKey)
    requires Consistent(t) && d in t.documents
    requires forall v :: v in versions ==> v in t.versions && t.versions[v].document == d && texts(v) != []
    ensures var w := RunAll(texts, Empty(t), Ingestions(versions));
      && w.tables == Documents.RunAll(t, Promotions(versions))
      && (versions != [] ==>
            var last := Some(versions[|versions| - 1]);
            Standing(w, d) == last && NoneBare(w, last) && HasChunks(w, last) && !AllBare(w, last))
  {
    if versions != [] {
      var n := |versions| - 1;
      var v, before := versions[n], versions[..n];
      assert v in versions && forall x :: x in before ==> x in versions;
      IngestionsDo(texts, t, before, d);
      TwoSteps(texts, Empty(t), Ingestions(before), Prepare(v, WHOLE), Commit(Promote(v)));
      TablesStayConsistent(texts, t, Ingestions(before));
      PromotionsStep(t, versions);
      RunKeeps(texts, Empty(t), Ingestions(before));
      hide RunAll, Documents.RunAll, Consistent, Documents.Act, Act, HasChunks, NoneBare, AllBare, Standing, Promotions,
        Inv;
      IngestOne(texts, RunAll(texts, Empty(t), Ingestions(before)), v);
    }
  }

  lemma PromotionsStep(t: Tables, versions: seq<string>)
    requires versions != []
    ensures var n := |versions| - 1;
      Documents.RunAll(t, Promotions(versions)) ==
        Documents.Act(Documents.RunAll(t, Promotions(versions[..n])), Promote(versions[n]))
  {
    var n := |versions| - 1;
    assert Promotions(versions)[..n] == Promotions(versions[..n]);
  }

  lemma IngestOne(texts: Texts, w: World, v: string)
    requires v in w.tables.versions && texts(v) != [] && Inv(texts, w)
    ensures var after := Act(texts, Act(texts, w, Prepare(v, WHOLE)), Commit(Promote(v)));
      && after.tables == Documents.Act(w.tables, Promote(v))
      && Standing(after, w.tables.versions[v].document) == Some(v)
      && NoneBare(after, Some(v)) && HasChunks(after, Some(v)) && !AllBare(after, Some(v))
  {
    CompleteDoes(texts, w, v, WHOLE);
    hide UpsertOutcome;
  }

  /** Versions of one document ingested one after the other, none of them empty: the index agrees if
      and only if the version ingested last is also the latest of them. */
  lemma IngestedAgree(texts: Texts, t: Tables, versions: seq<string>, d: DocumentKey)
    requires Consistent(t) && d in t.documents && t.documents[d] == Document(None, false) && versions != []
    requires forall v :: v in versions ==> v in t.versions && t.versions[v].document == d && texts(v) != []
    ensures var w := RunAll(texts, Empty(t), Ingestions(versions));
      && d in w.tables.documents
      && (Agrees(w.tables, w.index, d) <==>
            forall v :: v in versions ==> VersionLe(t.versions[v], t.versions[versions[|versions| - 1]]))
  {
    var w := RunAll(texts, Empty(t), Ingestions(versions));
    hide RunAll, Ingestions, Agrees, HasChunks, AllBare, NoneBare;
    LiveAgrees(texts, t, Ingestions(versions), d);
    IngestionsDo(texts, t, versions, d);
    PromotionConverges(t, d, Promotions(versions));
    PromotedAre(t, versions, d);
    LatestIsUnique(t, Current(w, d), versions, d);
  }

  lemma PromotedAre(t: Tables, versions: seq<string>, d: DocumentKey)
    requires d in t.documents && t.documents[d] == Document(None, false)
    requires forall v :: v in versions ==> v in t.versions && t.versions[v].document == d
    ensures forall v :: v in Promoted(t, d, Promotions(versions)) <==> v in versions
    ensures Delete(d) !in Promotions(versions)
  {
    forall v | v in versions
      ensures Promote(v) in Promotions(versions)
    {
      var i :| 0 <= i < |versions| && versions[i] == v;
      assert Promotions(versions)[i] == Promote(v);
    }
  }

  lemma LatestIsUnique(t: Tables, c: Option<string>, versions: seq<string>, d: DocumentKey)
    requires Consistent(t) && versions != []
    requires forall v :: v in versions ==> v in t.versions && t.versions[v].document == d
    requires c.Some? && c.value in versions && forall v :: v in versions ==>
        VersionLe(t.versions[v], t.versions[c.value])
    ensures c.value == versions[|versions| - 1] <==>
      forall v :: v in versions ==> VersionLe(t.versions[v], t.versions[versions[|versions| - 1]])
  {
    var last := versions[|versions| - 1];
    VersionLeIsTotalOrder(t.versions[c.value], t.versions[last], t.versions[last]);
  }

  const DOCUMENT: DocumentKey := DocumentKey("t", "d")
  const OLD: Version := Version("v1", DOCUMENT, 1, "1")
  const NEW: Version := Version("v2", DOCUMENT, 2, "2")
  const TABLES: Tables := Tables(map["v1" := OLD, "v2" := NEW], map[DOCUMENT := Document(None, false)])

  const TEXT: Texts := _ => ["text"]

  /** An old version that arrives after a newer one takes the flag, and the tables keep the newer. */
  lemma LateOldVersionTakesFlag()
    ensures Consistent(TABLES)
    ensures var w := RunAll(TEXT, Empty(TABLES), Ingestions(["v2", "v1"]));
      && DOCUMENT in w.tables.documents && !Agrees(w.tables, w.index, DOCUMENT)
  {
    IngestedAgree(TEXT, TABLES, ["v2", "v1"], DOCUMENT);
    assert "v2" in ["v2", "v1"] && !VersionLe(NEW, OLD);
  }

  /** The upsert of the second version, after unflagging and before anything is flagged. */
  const BROKEN: LiveStep := Prepare("v2", Course(true, {}, AtFlagging({})))

  /** The first version is ingested and the upsert of the second breaks off there: the first is
      current, has its chunks in the index, and nothing is flagged. */
  lemma BrokenOffHidesCurrent()
    ensures var w := RunAll(TEXT, Empty(TABLES), Ingestions(["v1"]) + [BROKEN]);
      && DOCUMENT in w.tables.documents && Current(w, DOCUMENT) == Some("v1") && HasChunks(w, Some("v1"))
      && (forall id :: id in w.index ==> !w.index[id].isCurrent)
      && !Agrees(w.tables, w.index, DOCUMENT)
  {
    var start := Ingestions(["v1"]);
    var before := RunAll(TEXT, Empty(TABLES), start);
    assert (start + [BROKEN])[..|start|] == start;
    RunKeeps(TEXT, Empty(TABLES), start);
    TablesStayConsistent(TEXT, TABLES, start);
    IngestionsDo(TEXT, TABLES, ["v1"], DOCUMENT);
    OnePromoted();
    LiveAgrees(TEXT, TABLES, start + [BROKEN], DOCUMENT);
    hide RunAll, Ingestions, Agrees;
    BrokenOffUnflags(before);
  }

  lemma BrokenOffUnflags(w: World)
    requires Inv(TEXT, w) && w.tables.versions == TABLES.versions && HasChunks(w, Some("v1"))
    ensures var after := Act(TEXT, w, BROKEN);
      && after.tables == w.tables && Standing(after, DOCUMENT) == Some("v2")
      && HasChunks(after, Some("v1")) && forall id :: id in after.index ==> !after.index[id].isCurrent
  {
    var ids := ChunkIds("v2", |TEXT("v2")|);
    assert ids * {} == {};
    var id :| id in w.index && id.version == "v1";
    StaysIndexed(w.index, DOCUMENT, "v2", TEXT("v2"), BROKEN.course, id);
    PrepareKeeps(TEXT, w, "v2", BROKEN.course);
    hide UpsertOutcome, ChunkIds;
    NothingFlagged(w);
  }

  lemma NothingFlagged(w: World)
    requires w.tables.versions == TABLES.versions && Inv(TEXT, Act(TEXT, w, BROKEN))
    ensures forall id :: id in Act(TEXT, w, BROKEN).index ==> !Act(TEXT, w, BROKEN).index[id].isCurrent
  {
    var after, ids := Act(TEXT, w, BROKEN), ChunkIds("v2", |TEXT("v2")|);
    assert ids * {} == {} && ids - {} == ids;
    forall id | id in after.index
      ensures !after.index[id].isCurrent
    {
      assert ChunkInv(TEXT, after, id);
      assert id.version == "v2" ==> id in ids;
    }
  }

  lemma StaysIndexed(index: Index, d: DocumentKey, v: string, chunks: seq<string>, course: Course, id: ChunkId)
    requires Flagging(course, ChunkIds(v, |chunks|)) && id in index
    ensures id in UpsertOutcome(index, d, v, chunks, course).0
  {
    WrittenSome(index, d, v, chunks, course.failed, id);
    WrittenSome(index, d, v, chunks, {}, id);
    hide Written, ChunkIds;
  }

  lemma OnePromoted()
    ensures var t := Documents.RunAll(TABLES, Promotions(["v1"]));
      DOCUMENT in t.documents && t.documents[DOCUMENT] == Document(Some("v1"), false)
  {
    assert Promotions(["v1"]) == [Promote("v1")] && [Promote("v1")][..0] == [];
  }
}
