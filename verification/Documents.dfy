/** Which version of a document is current: order-guarded promotion and deletion
    (src/adapters/postgres/ingestion_repository.py). */
module Documents {
  import opened Wrappers
  import opened Ordering

  datatype DocumentKey = DocumentKey(tenant: string, id: string)

  datatype Version = Version(id: string, document: DocumentKey, stamp: int, revision: string)

  datatype Document = Document(current: Option<string>, deleted: bool)

  /** `(source_timestamp, source_version)` compared as a row value. */
  predicate VersionLe(a: Version, b: Version) {
    a.stamp < b.stamp || (a.stamp == b.stamp && StringLe(a.revision, b.revision))
  }

  lemma VersionLeIsTotalOrder(a: Version, b: Version, c: Version)
    ensures VersionLe(a, a)
    ensures VersionLe(a, b) || VersionLe(b, a)
    ensures VersionLe(a, b) && VersionLe(b, c) ==> VersionLe(a, c)
    ensures VersionLe(a, b) && VersionLe(b, a) ==> a.stamp == b.stamp && a.revision == b.revision
  {
    StringLeReflexive(a.revision);
    StringLeTotal(a.revision, b.revision);
    if StringLe(a.revision, b.revision) && StringLe(b.revision, c.revision) {
      StringLeTransitive(a.revision, b.revision, c.revision);
    }
  }

  datatype Tables = Tables(versions: map<string, Version>, documents: map<DocumentKey, Document>)

  datatype Action = Promote(version: string) | Delete(document: DocumentKey)

  /** The guard of the promoting UPDATE. */
  predicate MayReplace(t: Tables, d: Document, v: Version) {
    && !d.deleted
    && (d.current == None
        || (d.current.value in t.versions && VersionLe(t.versions[d.current.value], v)))
  }

  function Act(t: Tables, action: Action): Tables {
    match action
    case Promote(id) =>
      if id !in t.versions then t
      else
        var v := t.versions[id];
        if v.document in t.documents && MayReplace(t, t.documents[v.document], v)
        then t.(documents := t.documents[v.document := t.documents[v.document].(current := Some(id))])
        else t
    case Delete(d) =>
      if d in t.documents then t.(documents := t.documents[d := Document(None, true)]) else t
  }

  function RunAll(t: Tables, actions: seq<Action>): Tables {
    if actions == [] then t
    else Act(RunAll(t, actions[..|actions| - 1]), actions[|actions| - 1])
  }

  datatype RepositoryError = UnknownDocumentVersion

  /** The document tables, updated in place. */
  class DocumentTables {
    var t: Tables

    constructor (t: Tables)
      ensures this.t == t
    {
      this.t := t;
    }

    method PromoteVersion(id: string) returns (r: Result<(), RepositoryError>)
      modifies this
      ensures r.Err? <==> id !in old(t).versions
      ensures t == Act(old(t), Promote(id))
    {
      if id !in t.versions {
        return Err(UnknownDocumentVersion);
      }
      var v := t.versions[id];
      if v.document in t.documents {
        var d := t.documents[v.document];
        if !d.deleted && (d.current == None
          || (d.current.value in t.versions && VersionLe(t.versions[d.current.value], v))) {
          t := t.(documents := t.documents[v.document := d.(current := Some(id))]);
        }
      }
      r := Ok(());
    }

    method DeleteDocument(d: DocumentKey)
      modifies this
      ensures t == Act(old(t), Delete(d))
    {
      if d in t.documents {
        t := t.(documents := t.documents[d := Document(None, true)]);
      }
    }
  }

  // ----- convergence

  /** Keys name their versions, versions belong to documents, a source version occurs once in
      a document, and a current version is a version of its document. */
  ghost predicate Consistent(t: Tables) {
    && (forall id :: id in t.versions ==> t.versions[id].id == id && t.versions[id].document in t.documents)
    && (forall a, b :: a in t.versions && b in t.versions && a != b ==>
          t.versions[a].document != t.versions[b].document || t.versions[a].revision != t.versions[b].revision)
    && (forall d :: d in t.documents && t.documents[d].current.Some? ==>
          var c := t.documents[d].current.value; c in t.versions && t.versions[c].document == d)
  }

  /** The versions of `d` that some action promotes, and the one it starts with. */
  ghost function Promoted(t: Tables, d: DocumentKey, actions: seq<Action>): set<string> {
    set id | id in t.versions && t.versions[id].document == d
             && (Promote(id) in actions || (d in t.documents && t.documents[d].current == Some(id)))
  }

  /** `c` is the latest of the versions `ids`, and nothing if there are none. */
  ghost predicate IsLatest(t: Tables, c: Option<string>, ids: set<string>)
    requires forall id :: id in ids ==> id in t.versions
  {
    match c
    case None => ids == {}
    case Some(id) => id in ids && forall other :: other in ids ==> VersionLe(t.versions[other], t.versions[id])
  }

  lemma ActKeepsConsistent(t: Tables, action: Action)
    requires Consistent(t)
    ensures Consistent(Act(t, action)) && Act(t, action).versions == t.versions
    ensures Act(t, action).documents.Keys == t.documents.Keys
  {
  }

  lemma LatestAfterPromotion(t: Tables, c: Option<string>, ids: set<string>, v: string)
    requires v in t.versions && forall id :: id in ids ==> id in t.versions
    requires IsLatest(t, c, ids)
    ensures IsLatest(t, if c == None || VersionLe(t.versions[c.value], t.versions[v]) then Some(v) else c, ids + {v})
  {
    var w := t.versions[v];
    VersionLeIsTotalOrder(w, w, w);
    if c.Some? {
      VersionLeIsTotalOrder(t.versions[c.value], w, w);
      forall other | other in ids
        ensures VersionLe(t.versions[c.value], w) ==> VersionLe(t.versions[other], w)
      {
        VersionLeIsTotalOrder(t.versions[other], t.versions[c.value], w);
      }
    }
  }

  /** The document after promotions of `ids`, with or without a deletion among them. */
  ghost predicate Settled(t: Tables, d: DocumentKey, ids: set<string>, deleted: bool, after: Tables) {
    && after.versions == t.versions && d in after.documents
    && (forall id :: id in ids ==> id in t.versions)
    && (if deleted then after.documents[d] == Document(None, true)
        else !after.documents[d].deleted && IsLatest(t, after.documents[d].current, ids))
  }

  lemma SettledStep(t: Tables, d: DocumentKey, ids: set<string>, deleted: bool, mid: Tables, action: Action)
    requires Settled(t, d, ids, deleted, mid) && Consistent(mid)
    ensures var own := action.Promote? && action.version in t.versions && t.versions[action.version].document == d;
            Settled(t, d, if own then ids + {action.version} else ids, deleted || action == Delete(d), Act(mid, action))
  {
    if action.Promote? && action.version in t.versions && !deleted {
      LatestAfterPromotion(t, mid.documents[d].current, ids, action.version);
    }
  }

  lemma PromotedStep(t: Tables, d: DocumentKey, before: seq<Action>, last: Action)
    ensures var own := last.Promote? && last.version in t.versions && t.versions[last.version].document == d;
            Promoted(t, d, before + [last]) == if own then Promoted(t, d, before) + {last.version}
              else Promoted(t, d, before)
    ensures Delete(d) in before + [last] <==> Delete(d) in before || last == Delete(d)
  {
  }

  /** Promotions in any order and with any repetition make the latest promoted version current;
      once deleted, a document has no current version, whatever is promoted after. */
  lemma {:induction false} PromotionConverges(t: Tables, d: DocumentKey, actions: seq<Action>)
    requires Consistent(t) && d in t.documents && !t.documents[d].deleted
    ensures Consistent(RunAll(t, actions))
    ensures Settled(t, d, Promoted(t, d, actions), Delete(d) in actions, RunAll(t, actions))
  {
    if actions == [] {
      if t.documents[d].current.Some? {
        var c := t.versions[t.documents[d].current.value];
        VersionLeIsTotalOrder(c, c, c);
      }
    } else {
      hide Consistent, Settled, VersionLe;
      var before, last := actions[..|actions| - 1], actions[|actions| - 1];
      PromotionConverges(t, d, before);
      ActKeepsConsistent(RunAll(t, before), last);
      SettledStep(t, d, Promoted(t, d, before), Delete(d) in before, RunAll(t, before), last);
      PromotedStep(t, d, before, last);
      assert actions == before + [last];
    }
  }

  /** The latest version is unique, so the outcome depends only on what was promoted. */
  lemma OrderDoesNotMatter(t: Tables, d: DocumentKey, actions: seq<Action>, others: seq<Action>)
    requires Consistent(t) && d in t.documents && !t.documents[d].deleted
    requires Promoted(t, d, actions) == Promoted(t, d, others)
    requires Delete(d) in actions <==> Delete(d) in others
    ensures d in RunAll(t, actions).documents && d in RunAll(t, others).documents
    ensures RunAll(t, actions).documents[d] == RunAll(t, others).documents[d]
  {
    PromotionConverges(t, d, actions);
    PromotionConverges(t, d, others);
    var a, b := RunAll(t, actions).documents[d].current, RunAll(t, others).documents[d].current;
    if a.Some? && b.Some? {
      var v, w := t.versions[a.value], t.versions[b.value];
      VersionLeIsTotalOrder(v, w, w);
    }
  }
}
