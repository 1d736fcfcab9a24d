/** Reciprocal-rank fusion of two retrievers (src/modules/retrieval/hybrid.py). Scores are
    exact reals. */
module Fusion {
  import opened Wrappers
  import opened Ordering
  import opened Policy
  import opened Evidences

  type Identity = (string, string)

  function IdOf(e: Evidence): Identity {
    (e.chunkId, e.version)
  }

  /** What a ranking goes by. */
  datatype Place = Place(score: real, id: Identity)

  function PlaceOf(e: Evidence): Place {
    Place(e.score, IdOf(e))
  }

  predicate IdBefore(a: Identity, b: Identity) {
    StringLt(a.0, b.0) || (a.0 == b.0 && StringLt(a.1, b.1))
  }

  /** Greater score first, then the identity. */
  predicate Before(a: Place, b: Place) {
    a.score > b.score || (a.score == b.score && IdBefore(a.id, b.id))
  }

  lemma BeforeIsStrict(a: Place, b: Place, c: Place)
    ensures Before(a, b) && Before(b, c) ==> Before(a, c)
    ensures a == b || Before(a, b) || Before(b, a)
    ensures !(Before(a, b) && Before(b, a))
  {
    hide StringLt;
    StringLtIsStrict(a.id.0, b.id.0, c.id.0);
    StringLtIsStrict(a.id.1, b.id.1, c.id.1);
    StringLtIsStrict(b.id.0, c.id.0, a.id.0);
  }

  function Places(items: seq<Evidence>): seq<Place> {
    seq(|items|, i requires 0 <= i < |items| => PlaceOf(items[i]))
  }

  ghost predicate Ranked(places: seq<Place>) {
    forall i, j :: 0 <= i < j < |places| ==> Before(places[i], places[j])
  }

  // ----- what the legs contribute

  /** The first item with this identity. */
  function Found(items: seq<Evidence>, id: Identity): Option<Evidence> {
    if items == [] then None
    else
      var before := Found(items[..|items| - 1], id);
      var last := items[|items| - 1];
      if before.Some? then before else if IdOf(last) == id then Some(last) else None
  }

  function Share(k: nat, rank: nat): real
    requires k > 0
  {
    1.0 / (k + rank) as real
  }

  /** One over `k` plus the rank, for every occurrence. */
  function Points(leg: seq<Evidence>, id: Identity, k: nat): real
    requires k > 0
  {
    if leg == [] then 0.0
    else Points(leg[..|leg| - 1], id, k) + if IdOf(leg[|leg| - 1]) == id then Share(k, |leg|) else 0.0
  }

  predicate Allowed(p: Principal, store: PolicyStore, ref: DocumentRef) {
    store.Policies? && MayRead(p, store.of, ref)
  }

  function FoundInEither(lexical: seq<Evidence>, dense: seq<Evidence>, id: Identity): Option<Evidence> {
    if Found(lexical, id).Some? then Found(lexical, id) else Found(dense, id)
  }

  function Score(lexical: seq<Evidence>, dense: seq<Evidence>, id: Identity, k: nat): real
    requires k > 0
  {
    Points(lexical, id, k) + Points(dense, id, k)
  }

  /** A candidate: the first evidence with its identity, readable, with the sum of its points. */
  predicate IsEntry(e: Evidence, lexical: seq<Evidence>, dense: seq<Evidence>, p: Principal, store: PolicyStore, k: nat)
    requires k > 0
  {
    var found := FoundInEither(lexical, dense, IdOf(e));
    && found.Some? && Allowed(p, store, found.value.Ref())
    && e == found.value.(score := Score(lexical, dense, IdOf(e), k),
      reason := Authorize(p, store.of[found.value.Ref()].policy).reason)
  }

  /** The candidates, each once, in their strict order. */
  ghost predicate IsRanking(ranking: seq<Evidence>, lexical: seq<Evidence>, dense: seq<Evidence>, p: Principal,
                            store: PolicyStore, k: nat)
    requires k > 0
  {
    Ranked(Places(ranking)) && forall e :: e in ranking <==> IsEntry(e, lexical, dense, p, store, k)
  }

  lemma {:induction false} FoundHasId(items: seq<Evidence>, id: Identity)
    ensures Found(items, id).Some? ==> IdOf(Found(items, id).value) == id && Found(items, id).value in items
    ensures Found(items, id).Some? <==> exists e :: e in items && IdOf(e) == id
  {
    if items != [] {
      FoundHasId(items[..|items| - 1], id);
      assert items == items[..|items| - 1] + [items[|items| - 1]];
    }
  }

  // ----- fusing

  /** The keys of both dictionaries, in order of insertion. */
  ghost predicate Tallied(keys: seq<Identity>, scores: map<Identity, real>, found: map<Identity, Evidence>) {
    && (forall i, j :: 0 <= i < j < |keys| ==> keys[i] != keys[j])
    && (forall id :: id in keys <==> id in scores)
    && (forall id :: id in keys <==> id in found)
    && forall id :: id in found ==> IdOf(found[id]) == id
  }

  /** What the dictionaries hold for `id` after the items of a leg were added. */
  ghost predicate AddedAt(scores: map<Identity, real>, found: map<Identity, Evidence>, leg: seq<Evidence>, k: nat,
                          scores': map<Identity, real>, found': map<Identity, Evidence>, id: Identity)
    requires k > 0
  {
    && (id in scores' <==> id in scores || Found(leg, id).Some?)
    && (id in found' <==> id in found || Found(leg, id).Some?)
    && (id in scores' ==> scores'[id] == (if id in scores then scores[id] else 0.0) + Points(leg, id, k))
    && (id in found' ==> found'[id] == if id in found then found[id] else Found(leg, id).value)
  }

  ghost predicate Added(scores: map<Identity, real>, found: map<Identity, Evidence>, leg: seq<Evidence>, k: nat,
                        scores': map<Identity, real>, found': map<Identity, Evidence>)
    requires k > 0
  {
    forall id :: AddedAt(scores, found, leg, k, scores', found', id)
  }

  method AddLeg(leg: seq<Evidence>, k: nat, keys0: seq<Identity>, scores0: map<Identity, real>,
                found0: map<Identity, Evidence>)
    returns (keys: seq<Identity>, scores: map<Identity, real>, found: map<Identity, Evidence>)
    requires k > 0 && Tallied(keys0, scores0, found0)
    ensures Tallied(keys, scores, found) && Added(scores0, found0, leg, k, scores, found)
  {
    hide Share, AddedAt, Added, Tallied;
    keys, scores, found := keys0, scores0, found0;
    NothingAdded(k, keys0, scores0, found0);
    assert leg[..0] == [];
    for i := 0 to |leg|
      invariant Tallied(keys, scores, found) && Added(scores0, found0, leg[..i], k, scores, found)
    {
      AddOne(leg, i, k, keys, scores0, found0, scores, found);
      TalliedNext(keys, scores, found, leg[i], Share(k, i + 1));
      var evidence := leg[i];
      var id := IdOf(evidence);
      var rank := i + 1;
      if id !in scores {
        keys := keys + [id];
      }
      scores := scores[id := (if id in scores then scores[id] else 0.0) + Share(k, rank)];
      if id !in found {
        found := found[id := evidence];
      }
    }
    assert leg[..|leg|] == leg;
  }

  lemma NothingAdded(k: nat, keys: seq<Identity>, scores: map<Identity, real>, found: map<Identity, Evidence>)
    requires k > 0 && Tallied(keys, scores, found)
    ensures Added(scores, found, [], k, scores, found)
    ensures forall id :: id in scores <==> id in found
  {
  }

  lemma PointsNext(leg: seq<Evidence>, i: nat, id: Identity, k: nat)
    requires k > 0 && i < |leg|
    ensures Points(leg[..i + 1], id, k) == Points(leg[..i], id, k) + if IdOf(leg[i]) == id then Share(k, i + 1) else 0.0
    ensures Found(leg[..i + 1], id) ==
      if Found(leg[..i], id).Some? then Found(leg[..i], id) else if IdOf(leg[i]) == id then Some(leg[i]) else None
  {
    assert leg[..i + 1][..i] == leg[..i];
  }

  lemma NoPoints(leg: seq<Evidence>, id: Identity, k: nat)
    requires k > 0 && Found(leg, id) == None
    ensures Points(leg, id, k) == 0.0
  {
  }

  function ScoresNext(scores: map<Identity, real>, one: Identity, share: real): map<Identity, real> {
    scores[one := (if one in scores then scores[one] else 0.0) + share]
  }

  function FoundNext(found: map<Identity, Evidence>, item: Evidence): map<Identity, Evidence> {
    if IdOf(item) in found then found else found[IdOf(item) := item]
  }

  lemma AddOneAt(leg: seq<Evidence>, i: nat, k: nat, scores0: map<Identity, real>, found0: map<Identity, Evidence>,
                 scores: map<Identity, real>, found: map<Identity, Evidence>, id: Identity)
    requires k > 0 && i < |leg|
    requires AddedAt(scores0, found0, leg[..i], k, scores, found, id)
    requires id in scores <==> id in found
    requires id in scores0 <==> id in found0
    ensures AddedAt(scores0, found0, leg[..i + 1], k, ScoresNext(scores, IdOf(leg[i]), Share(k, i + 1)),
        FoundNext(found, leg[i]), id)
  {
    hide Points, Found, Share;
    PointsNext(leg, i, id, k);
    if Found(leg[..i], id) == None {
      NoPoints(leg[..i], id, k);
    }
  }

  lemma TalliedNext(keys: seq<Identity>, scores: map<Identity, real>, found: map<Identity, Evidence>, item: Evidence,
                    share: real)
    requires Tallied(keys, scores, found)
    ensures Tallied(if IdOf(item) in scores then keys else keys + [IdOf(item)], ScoresNext(scores, IdOf(item), share),
        FoundNext(found, item))
  {
  }

  /** The step of the loop on one item. */
  lemma AddOne(leg: seq<Evidence>, i: nat, k: nat, keys: seq<Identity>, scores0: map<Identity, real>,
               found0: map<Identity, Evidence>,
               scores: map<Identity, real>, found: map<Identity, Evidence>)
    requires k > 0 && i < |leg| && (forall id :: id in scores0 <==> id in found0)
    requires Tallied(keys, scores, found) && Added(scores0, found0, leg[..i], k, scores, found)
    ensures Added(scores0, found0, leg[..i + 1], k, ScoresNext(scores, IdOf(leg[i]), Share(k, i + 1)),
        FoundNext(found, leg[i]))
  {
    hide Share, AddedAt, ScoresNext, FoundNext;
    var after, scores', found' := leg[..i + 1], ScoresNext(scores, IdOf(leg[i]), Share(k, i + 1)),
      FoundNext(found, leg[i]);
    forall id
      ensures AddedAt(scores0, found0, after, k, scores', found', id)
    {
      assert AddedAt(scores0, found0, leg[..i], k, scores, found, id);
      AddOneAt(leg, i, k, scores0, found0, scores, found, id);
    }
  }

  /** `authorized.sort(...)` */
  function InsertRanked(x: Evidence, items: seq<Evidence>): seq<Evidence> {
    if items == [] || Before(PlaceOf(x), PlaceOf(items[0])) then [x] + items
    else [items[0]] + InsertRanked(x, items[1..])
  }

  function Sort(items: seq<Evidence>): seq<Evidence> {
    if items == [] then [] else InsertRanked(items[|items| - 1], Sort(items[..|items| - 1]))
  }

  lemma {:induction false} InsertKeeps(x: Evidence, items: seq<Evidence>)
    ensures forall e :: e in InsertRanked(x, items) <==> e == x || e in items
  {
    hide Before;
    if items != [] && !Before(PlaceOf(x), PlaceOf(items[0])) {
      InsertKeeps(x, items[1..]);
      assert items == [items[0]] + items[1..];
    }
  }

  lemma InFront(x: Evidence, items: seq<Evidence>)
    requires Ranked(Places(items)) && forall e :: e in items ==> Before(PlaceOf(x), PlaceOf(e))
    ensures Ranked(Places([x] + items))
  {
    hide Before;
    var places := Places([x] + items);
    forall i, j | 0 <= i < j < |places|
      ensures Before(places[i], places[j])
    {
      if i == 0 {
        assert items[j - 1] in items && places[j] == PlaceOf(items[j - 1]);
      } else {
        assert places[i] == Places(items)[i - 1] && places[j] == Places(items)[j - 1];
      }
    }
  }

  lemma FirstIsBefore(items: seq<Evidence>)
    requires items != [] && Ranked(Places(items))
    ensures Ranked(Places(items[1..])) && forall e :: e in items[1..] ==> Before(PlaceOf(items[0]), PlaceOf(e))
  {
    hide Before;
    var places := Places(items);
    forall e | e in items[1..]
      ensures Before(PlaceOf(items[0]), PlaceOf(e))
    {
      var j :| 0 <= j < |items[1..]| && items[1..][j] == e;
      assert Before(places[0], places[j + 1]);
    }
    forall i, j | 0 <= i < j < |items[1..]|
      ensures Before(Places(items[1..])[i], Places(items[1..])[j])
    {
      assert Before(places[i + 1], places[j + 1]);
    }
  }

  lemma OneRanked(x: Evidence)
    ensures Ranked(Places(InsertRanked(x, [])))
  {
  }

  lemma {:induction false} InsertRanks(x: Evidence, items: seq<Evidence>)
    requires Ranked(Places(items)) && forall e :: e in items ==> IdOf(e) != IdOf(x)
    ensures Ranked(Places(InsertRanked(x, items)))
  {
    hide Before, Ranked;
    if items == [] {
      OneRanked(x);
    } else {
      FirstIsBefore(items);
      assert items == [items[0]] + items[1..];
      if Before(PlaceOf(x), PlaceOf(items[0])) {
        forall e | e in items
          ensures Before(PlaceOf(x), PlaceOf(e))
        {
          BeforeIsStrict(PlaceOf(x), PlaceOf(items[0]), PlaceOf(e));
        }
        InFront(x, items);
      } else {
        InsertRanks(x, items[1..]);
        InsertKeeps(x, items[1..]);
        BeforeIsStrict(PlaceOf(items[0]), PlaceOf(x), PlaceOf(x));
        InFront(items[0], InsertRanked(x, items[1..]));
      }
    }
  }

  ghost predicate DistinctIds(items: seq<Evidence>) {
    forall i, j :: 0 <= i < j < |items| ==> IdOf(items[i]) != IdOf(items[j])
  }

  lemma {:induction false} SortRanks(items: seq<Evidence>)
    requires DistinctIds(items)
    ensures Ranked(Places(Sort(items))) && forall e :: e in Sort(items) <==> e in items
  {
    if items != [] {
      var n := |items| - 1;
      SortRanks(items[..n]);
      assert items == items[..n] + [items[n]];
      hide Before, Sort, DistinctIds;
      assert forall e :: e in items[..n] ==> IdOf(e) != IdOf(items[n]) by {
        LastIsNew(items);
      }
      InsertRanks(items[n], Sort(items[..n]));
      InsertKeeps(items[n], Sort(items[..n]));
      assert Sort(items) == InsertRanked(items[n], Sort(items[..n])) by {
        SortStep(items);
      }
    }
  }

  lemma LastIsNew(items: seq<Evidence>)
    requires items != [] && DistinctIds(items)
    ensures forall e :: e in items[..|items| - 1] ==> IdOf(e) != IdOf(items[|items| - 1])
  {
  }

  lemma SortStep(items: seq<Evidence>)
    requires items != []
    ensures Sort(items) == InsertRanked(items[|items| - 1], Sort(items[..|items| - 1]))
  {
  }

  /** A leg that is missing ranks nothing. */
  function OrEmpty(leg: Option<seq<Evidence>>): (items: seq<Evidence>)
    ensures leg == Some(items) || (leg == None && items == [])
  {
    if leg.Some? then leg.value else []
  }

  /** The evidence in order of insertion, one for each identity. */
  method References(keys: seq<Identity>, found: map<Identity, Evidence>) returns (references: seq<DocumentRef>)
    requires forall id :: id in keys ==> id in found
    ensures |references| == |keys| && forall i :: 0 <= i < |keys| ==> references[i] == found[keys[i]].Ref()
  {
    references := seq(|keys|, i requires 0 <= i < |keys| => found[keys[i]].Ref());
  }

  /** What is authorized, still in order of insertion. */
  method Authorized(keys: seq<Identity>, scores: map<Identity, real>, found: map<Identity, Evidence>,
                    decisions: map<DocumentRef, Decision>)
    returns (authorized: seq<Evidence>)
    requires Tallied(keys, scores, found)
    ensures DistinctIds(authorized) && Joined(authorized, scores, found, decisions)
  {
    authorized := [];
    for i := 0 to |keys|
      invariant DistinctIds(authorized)
      invariant forall e :: e in authorized <==>
        && IdOf(e) in keys[..i] && found[IdOf(e)].Ref() in decisions
        && e == found[IdOf(e)].(score := scores[IdOf(e)], reason := decisions[found[IdOf(e)].Ref()].reason)
    {
      var id := keys[i];
      var evidence := found[id];
      assert id !in keys[..i];
      assert keys[..i + 1] == keys[..i] + [id];
      if evidence.Ref() in decisions {
        authorized := authorized + [evidence.(score := scores[id], reason := decisions[evidence.Ref()].reason)];
      }
    }
    assert keys[..|keys|] == keys;
  }

  /** `HybridRetriever.retrieve`: no result if both legs or the metadata store are unavailable. */
  method Retrieve(lexical: Option<seq<Evidence>>, dense: Option<seq<Evidence>>, p: Principal, store: PolicyStore,
                  k: nat, limit: nat)
    returns (r: Option<seq<Evidence>>, ghost ranking: seq<Evidence>)
    requires k > 0
    ensures r == None <==>
      (lexical == None && dense == None) || MetadataMissing(OrEmpty(lexical), OrEmpty(dense), p, store)
    ensures r.Some? ==> IsRanking(ranking, OrEmpty(lexical), OrEmpty(dense), p, store, k)
    ensures r.Some? ==> r.value == ranking[..if limit < |ranking| then limit else |ranking|]
  {
    ranking := [];
    if lexical == None && dense == None {
      return None, ranking;
    }
    var keys, scores, found := [], map[], map[];
    if lexical.Some? {
      keys, scores, found := AddLeg(lexical.value, k, keys, scores, found);
    }
    ghost var scores1, found1 := scores, found;
    if dense.Some? {
      keys, scores, found := AddLeg(dense.value, k, keys, scores, found);
    }
    BothAdded(OrEmpty(lexical), OrEmpty(dense), k, scores1, found1, scores, found);
    var references := References(keys, found);
    MissingIsNone(keys, found, references, OrEmpty(lexical), OrEmpty(dense), p, store);
    var decisions := AuthorizeReads(p, store, references);
    if decisions == None {
      return None, ranking;
    }
    var authorized := Authorized(keys, scores, found, decisions.value);
    SortRanks(authorized);
    var sorted := Sort(authorized);
    ranking := sorted;
    EntriesAre(authorized, keys, scores, found, references, decisions.value, OrEmpty(lexical), OrEmpty(dense), p,
      store, k);
    r := Some(sorted[..if limit < |sorted| then limit else |sorted|]);
  }

  /** Exactly the dictionaries' entries with an allowed reference. */
  ghost predicate Joined(authorized: seq<Evidence>, scores: map<Identity, real>, found: map<Identity, Evidence>,
                         decisions: map<DocumentRef, Decision>)
    requires forall id :: id in found ==> id in scores
  {
    forall e :: e in authorized <==> JoinedOne(e, scores, found, decisions)
  }

  predicate JoinedOne(e: Evidence, scores: map<Identity, real>, found: map<Identity, Evidence>,
                      decisions: map<DocumentRef, Decision>)
    requires IdOf(e) in found ==> IdOf(e) in scores
  {
    var id := IdOf(e);
    && id in found && found[id].Ref() in decisions
    && e == found[id].(score := scores[id], reason := decisions[found[id].Ref()].reason)
  }

  lemma EntriesAre(authorized: seq<Evidence>, keys: seq<Identity>, scores: map<Identity, real>,
                   found: map<Identity, Evidence>,
                   references: seq<DocumentRef>, decisions: map<DocumentRef, Decision>,
                   lexical: seq<Evidence>, dense: seq<Evidence>, p: Principal, store: PolicyStore, k: nat)
    requires k > 0 && Tallied(keys, scores, found) && Joined(authorized, scores, found, decisions)
    requires |references| == |keys| && forall i :: 0 <= i < |keys| ==> references[i] == found[keys[i]].Ref()
    requires AuthorizedReads(p, store, references) == Some(decisions)
    requires forall id :: id in found ==>
        FoundInEither(lexical, dense, id) == Some(found[id]) && scores[id] == Score(lexical, dense, id, k)
    requires forall id :: FoundInEither(lexical, dense, id).Some? ==> id in found
    ensures forall e :: e in authorized <==> IsEntry(e, lexical, dense, p, store, k)
  {
  }

  /** The metadata are missing exactly when something had to be looked up in an unavailable store. */
  predicate MetadataMissing(lexical: seq<Evidence>, dense: seq<Evidence>, p: Principal, store: PolicyStore) {
    && store.Unavailable? && p.known
    && exists e :: e in lexical + dense && IsShown(e, lexical, dense) && e.tenant == p.tenant
  }

  /** The evidence that stands for its identity. */
  predicate IsShown(e: Evidence, lexical: seq<Evidence>, dense: seq<Evidence>) {
    FoundInEither(lexical, dense, IdOf(e)) == Some(e)
  }

  lemma MissingIsNone(keys: seq<Identity>, found: map<Identity, Evidence>, references: seq<DocumentRef>,
                      lexical: seq<Evidence>, dense: seq<Evidence>, p: Principal, store: PolicyStore)
    requires |references| == |keys|
    requires forall i :: 0 <= i < |keys| ==> keys[i] in found && references[i] == found[keys[i]].Ref()
    requires forall id :: id in found ==> id in keys && FoundInEither(lexical, dense, id) == Some(found[id])
    requires forall id :: FoundInEither(lexical, dense, id).Some? ==> id in found
    ensures AuthorizedReads(p, store, references) == None <==> MetadataMissing(lexical, dense, p, store)
  {
    hide Found;
    forall e | IsShown(e, lexical, dense) && e.tenant == p.tenant
      ensures exists ref :: ref in references && ref.tenant == p.tenant
    {
      var i :| 0 <= i < |keys| && keys[i] == IdOf(e);
      assert references[i] in references;
    }
    forall ref | ref in references && ref.tenant == p.tenant
      ensures exists e :: e in lexical + dense && IsShown(e, lexical, dense) && e.tenant == p.tenant
    {
      var i :| 0 <= i < |references| && references[i] == ref;
      FoundHasId(lexical, keys[i]);
      FoundHasId(dense, keys[i]);
      assert IsShown(found[keys[i]], lexical, dense) && found[keys[i]] in lexical + dense;
    }
  }

  lemma BothAdded(lexical: seq<Evidence>, dense: seq<Evidence>, k: nat, scores1: map<Identity, real>,
                  found1: map<Identity, Evidence>,
                  scores: map<Identity, real>, found: map<Identity, Evidence>)
    requires k > 0 && Added(map[], map[], lexical, k, scores1, found1)
        && Added(scores1, found1, dense, k, scores, found)
    ensures forall id :: id in found ==> id in scores
    ensures forall id :: id in found ==>
        FoundInEither(lexical, dense, id) == Some(found[id]) && scores[id] == Score(lexical, dense, id, k)
    ensures forall id :: FoundInEither(lexical, dense, id).Some? ==> id in found
  {
    hide Found, Points;
    forall id
      ensures id in found <==> FoundInEither(lexical, dense, id).Some?
      ensures id in found ==> id in scores && scores[id] == Score(lexical, dense, id, k)
      ensures id in found ==> FoundInEither(lexical, dense, id) == Some(found[id])
    {
      assert AddedAt(map[], map[], lexical, k, scores1, found1, id);
      assert AddedAt(scores1, found1, dense, k, scores, found, id);
      if Found(lexical, id) == None {
        NoPoints(lexical, id, k);
      }
    }
  }

  // ----- what a ranking promises

  /** Each identity is ranked once; a candidate the limit leaves out ranks below all that are
      returned, and is left out only because the limit is reached. */
  lemma CutKeepsTheBest(ranking: seq<Evidence>, limit: nat, lexical: seq<Evidence>, dense: seq<Evidence>,
                        p: Principal, store: PolicyStore, k: nat)
    requires k > 0 && IsRanking(ranking, lexical, dense, p, store, k)
    ensures DistinctIds(ranking)
    ensures var returned := ranking[..if limit < |ranking| then limit else |ranking|];
      && (forall e, r :: IsEntry(e, lexical, dense, p, store, k) && e !in returned && r in returned ==>
        Before(PlaceOf(r), PlaceOf(e)))
      && ((exists e :: IsEntry(e, lexical, dense, p, store, k) && e !in returned) ==> |returned| == limit)
  {
    hide IsEntry;
    var places := Places(ranking);
    forall i, j | 0 <= i < j < |ranking|
      ensures IdOf(ranking[i]) != IdOf(ranking[j])
    {
      if IdOf(ranking[i]) == IdOf(ranking[j]) {
        assert Before(places[i], places[j]);
        assert ranking[i] in ranking && ranking[j] in ranking;
        SameIdSamePlace(ranking[i], ranking[j], lexical, dense, p, store, k);
        BeforeIsStrict(places[i], places[j], places[i]);
      }
    }
    var cut := if limit < |ranking| then limit else |ranking|;
    forall e, r | IsEntry(e, lexical, dense, p, store, k) && e !in ranking[..cut] && r in ranking[..cut]
      ensures Before(PlaceOf(r), PlaceOf(e))
    {
      assert ranking == ranking[..cut] + ranking[cut..];
      var i :| 0 <= i < cut && ranking[i] == r;
      var j :| 0 <= j < |ranking[cut..]| && ranking[cut..][j] == e;
      assert Before(places[i], places[cut + j]);
    }
  }

  lemma SameIdSamePlace(a: Evidence, b: Evidence, lexical: seq<Evidence>, dense: seq<Evidence>, p: Principal,
                        store: PolicyStore, k: nat)
    requires k > 0 && IsEntry(a, lexical, dense, p, store, k) && IsEntry(b, lexical, dense, p, store, k)
        && IdOf(a) == IdOf(b)
    ensures PlaceOf(a) == PlaceOf(b)
  {
  }

  /** A strict order leaves no choice. */
  lemma {:induction false} RankedIsUnique(a: seq<Place>, b: seq<Place>)
    requires Ranked(a) && Ranked(b) && forall x :: x in a <==> x in b
    ensures a == b
  {
    hide Before;
    assert a == [] || a[0] in a;
    assert b == [] || b[0] in b;
    if a != [] {
      assert a[0] in a && a[0] in b && b[0] in b;
      var j :| 0 <= j < |b| && b[j] == a[0];
      var i :| 0 <= i < |a| && a[i] == b[0];
      BeforeIsStrict(a[0], b[0], a[0]);
      assert a == [a[0]] + a[1..] && b == [b[0]] + b[1..];
      TailsMatch(a, b);
      RankedIsUnique(a[1..], b[1..]);
    }
  }

  lemma TailsMatch(a: seq<Place>, b: seq<Place>)
    requires Ranked(a) && Ranked(b) && (forall x :: x in a <==> x in b) && a != [] && b != [] && a[0] == b[0]
    ensures Ranked(a[1..]) && Ranked(b[1..]) && forall x :: x in a[1..] <==> x in b[1..]
  {
    FirstIsNew(a);
    FirstIsNew(b);
    hide Ranked;
    var x := a[0];
    assert a == [x] + a[1..] && b == [x] + b[1..];
    forall y
      ensures y in a[1..] <==> y in b[1..]
    {
      assert y in a <==> y in [x] + a[1..];
      assert y in b <==> y in [x] + b[1..];
    }
  }

  lemma FirstIsNew(a: seq<Place>)
    requires Ranked(a) && a != []
    ensures Ranked(a[1..]) && a[0] !in a[1..]
  {
  }

  // ----- the legs in the other order

  /** Whether an identity of the legs, in this order, is a candidate. */
  predicate Listed(id: Identity, lexical: seq<Evidence>, dense: seq<Evidence>, p: Principal, store: PolicyStore) {
    var found := FoundInEither(lexical, dense, id);
    found.Some? && Allowed(p, store, found.value.Ref())
  }

  lemma PlacesAre(ranking: seq<Evidence>, lexical: seq<Evidence>, dense: seq<Evidence>, p: Principal,
                  store: PolicyStore, k: nat)
    requires k > 0 && IsRanking(ranking, lexical, dense, p, store, k)
    ensures forall place :: place in Places(ranking) <==>
      Listed(place.id, lexical, dense, p, store) && place.score == Score(lexical, dense, place.id, k)
  {
    hide Score, Allowed, Authorize, Ranked;
    forall place
      ensures place in Places(ranking) <==>
          Listed(place.id, lexical, dense, p, store) && place.score == Score(lexical, dense, place.id, k)
    {
      if place in Places(ranking) {
        var i :| 0 <= i < |ranking| && Places(ranking)[i] == place;
        assert ranking[i] in ranking;
      }
      if Listed(place.id, lexical, dense, p, store) && place.score == Score(lexical, dense, place.id, k) {
        FoundHasId(lexical, place.id);
        FoundHasId(dense, place.id);
        EntryIsPlaced(ranking, place, lexical, dense, p, store, k);
      }
    }
  }

  lemma EntryIsPlaced(ranking: seq<Evidence>, place: Place, lexical: seq<Evidence>, dense: seq<Evidence>,
                      p: Principal, store: PolicyStore, k: nat)
    requires k > 0 && IsRanking(ranking, lexical, dense, p, store, k)
    requires Listed(place.id, lexical, dense, p, store) && place.score == Score(lexical, dense, place.id, k)
    requires IdOf(FoundInEither(lexical, dense, place.id).value) == place.id
    ensures place in Places(ranking)
  {
    hide Score, Ranked, FoundInEither;
    var found := FoundInEither(lexical, dense, place.id).value;
    var e := found.(score := place.score, reason := Authorize(p, store.of[found.Ref()].policy).reason);
    assert IsEntry(e, lexical, dense, p, store, k);
    var i :| 0 <= i < |ranking| && ranking[i] == e;
    assert Places(ranking)[i] == place;
  }

  /** The first evidence of every identity that both legs found is readable alike. */
  ghost predicate AgreeOnShared(lexical: seq<Evidence>, dense: seq<Evidence>, p: Principal, store: PolicyStore) {
    forall id :: Found(lexical, id).Some? && Found(dense, id).Some? ==>
      (Allowed(p, store, Found(lexical, id).value.Ref()) <==> Allowed(p, store, Found(dense, id).value.Ref()))
  }

  /** Swapping the legs changes neither identities, scores nor order, if and only if both legs
      give evidence that is readable alike for the identities they share. */
  lemma SwapChangesNothing(ranking: seq<Evidence>, swapped: seq<Evidence>, lexical: seq<Evidence>, dense: seq<Evidence>,
                           p: Principal, store: PolicyStore, k: nat)
    requires k > 0
    requires IsRanking(ranking, lexical, dense, p, store, k) && IsRanking(swapped, dense, lexical, p, store, k)
    ensures Places(ranking) == Places(swapped) <==> AgreeOnShared(lexical, dense, p, store)
  {
    PlacesAre(ranking, lexical, dense, p, store, k);
    PlacesAre(swapped, dense, lexical, p, store, k);
    hide Points, Allowed, Found, Ranked;
    if AgreeOnShared(lexical, dense, p, store) {
      forall place
        ensures place in Places(ranking) <==> place in Places(swapped)
      {
        assert Listed(place.id, lexical, dense, p, store) <==> Listed(place.id, dense, lexical, p, store);
      }
      RankedIsUnique(Places(ranking), Places(swapped));
    }
    if Places(ranking) == Places(swapped) {
      forall id | Found(lexical, id).Some? && Found(dense, id).Some?
        ensures Allowed(p, store, Found(lexical, id).value.Ref()) <==> Allowed(p, store, Found(dense, id).value.Ref())
      {
        var place := Place(Score(lexical, dense, id, k), id);
        assert place in Places(ranking) <==> place in Places(swapped);
        assert Score(dense, lexical, id, k) == place.score;
      }
    }
  }

  /** Legs that take the same identity for the same document version agree, whatever may be read: as
      all legs over one index do, where a version belongs to one document. */
  lemma SameReferencesAgree(lexical: seq<Evidence>, dense: seq<Evidence>, p: Principal, store: PolicyStore)
    requires forall a, b :: a in lexical && b in dense && IdOf(a) == IdOf(b) ==> a.Ref() == b.Ref()
    ensures AgreeOnShared(lexical, dense, p, store)
  {
    hide Allowed, Found;
    forall id | Found(lexical, id).Some? && Found(dense, id).Some?
      ensures Allowed(p, store, Found(lexical, id).value.Ref()) <==> Allowed(p, store, Found(dense, id).value.Ref())
    {
      FoundHasId(lexical, id);
      FoundHasId(dense, id);
    }
  }

  const ANYBODY: Principal := Principal("ann", "t", [], [], true)

  /** Evidence of one identity, said to be of two documents, of which only `here` may be read. */
  const HERE: Evidence := Evidence("c", "t", "s", "here", "v", (0, 1), "x", 1.0, Public)
  const ELSEWHERE: Evidence := HERE.(document := "elsewhere")

  const ONE_READABLE: PolicyStore :=
    Policies(map[HERE.Ref() := DocumentPolicy("t", "here", Some("v"), ["public"], false)])

  /** Swapping the legs can make a result vanish. */
  lemma SwapCanMatter()
    ensures IsRanking([HERE.(score := Share(60, 1) + Share(60, 1))], [HERE], [ELSEWHERE], ANYBODY, ONE_READABLE, 60)
    ensures IsRanking([], [ELSEWHERE], [HERE], ANYBODY, ONE_READABLE, 60)
  {
    assert "public" in ONE_READABLE.of[HERE.Ref()].policy && "public" in AccessEntries(ANYBODY);
    assert Allowed(ANYBODY, ONE_READABLE, HERE.Ref()) && !Allowed(ANYBODY, ONE_READABLE, ELSEWHERE.Ref());
    OnlyItem(HERE);
    OnlyItem(ELSEWHERE);
    hide Share, Points, Found, MayRead;
  }

  lemma OnlyItem(e: Evidence)
    ensures forall id :: Found([e], id) == if id == IdOf(e) then Some(e) else None
    ensures Points([e], IdOf(e), 60) == Share(60, 1)
  {
  }

  // ----- one leg alone

  /** The identities of a leg that may be shown, in its order. */
  function Shown(leg: seq<Evidence>, p: Principal, store: PolicyStore, k: nat, n: nat): seq<Place>
    requires k > 0 && n <= |leg|
  {
    if n == 0 then []
    else
      var e := leg[n - 1];
      Shown(leg, p, store, k, n - 1) + if Allowed(p, store, e.Ref()) then [Place(Share(k, n), IdOf(e))] else []
  }

  lemma SharesFall(k: nat, a: nat, b: nat)
    requires k > 0 && a < b
    ensures Share(k, a) > Share(k, b)
  {
    FallsBetween((k + a) as real, (k + b) as real);
  }

  lemma FallsBetween(x: real, y: real)
    requires 0.0 < x < y
    ensures 1.0 / x > 1.0 / y
  {
  }

  /** Shown places are those of the leg's items, by rank. */
  ghost predicate AtRank(place: Place, leg: seq<Evidence>, p: Principal, store: PolicyStore, k: nat, i: nat)
    requires k > 0 && i < |leg|
  {
    place == Place(Share(k, i + 1), IdOf(leg[i])) && Allowed(p, store, leg[i].Ref())
  }

  lemma {:induction false} ShownIsRanked(leg: seq<Evidence>, p: Principal, store: PolicyStore, k: nat, n: nat)
    requires k > 0 && n <= |leg|
    ensures Ranked(Shown(leg, p, store, k, n))
    ensures forall place :: place in Shown(leg, p, store, k, n) <==>
              exists i :: 0 <= i < n && AtRank(place, leg, p, store, k, i)
    ensures n > 0 ==> forall place :: place in Shown(leg, p, store, k, n) ==> place.score >= Share(k, n)
  {
    hide Share, Allowed, IdBefore;
    if n > 0 {
      var m: nat := n - 1;
      ShownIsRanked(leg, p, store, k, m);
      if m > 0 {
        SharesFall(k, m, n);
      }
      assert forall place :: place in Shown(leg, p, store, k, m) ==> place.score > Share(k, n);
      assert Allowed(p, store, leg[m].Ref()) ==> AtRank(Place(Share(k, n), IdOf(leg[m])), leg, p, store, k, m);
    }
  }

  lemma {:induction false} PointsOnce(leg: seq<Evidence>, k: nat, i: nat)
    requires k > 0 && i < |leg| && DistinctIds(leg)
    ensures Points(leg, IdOf(leg[i]), k) == Share(k, i + 1)
    ensures Found(leg, IdOf(leg[i])) == Some(leg[i])
  {
    hide Share;
    var n := |leg| - 1;
    var id := IdOf(leg[i]);
    if i < n {
      PointsOnce(leg[..n], k, i);
    } else {
      FoundHasId(leg[..n], id);
      LastIsNew(leg);
      NoPoints(leg[..n], id, k);
    }
  }

  lemma EitherLegAlone(ranking: seq<Evidence>, leg: seq<Evidence>, p: Principal, store: PolicyStore, k: nat)
    requires k > 0
    ensures IsRanking(ranking, [], leg, p, store, k) <==> IsRanking(ranking, leg, [], p, store, k)
  {
  }

  /** When either leg is missing, fusion shows the other leg's readable items in that leg's order. */
  lemma OneLegKeepsItsOrder(ranking: seq<Evidence>, leg: seq<Evidence>, p: Principal, store: PolicyStore, k: nat)
    requires k > 0 && DistinctIds(leg)
    requires IsRanking(ranking, leg, [], p, store, k) || IsRanking(ranking, [], leg, p, store, k)
    ensures Places(ranking) == Shown(leg, p, store, k, |leg|)
  {
    EitherLegAlone(ranking, leg, p, store, k);
    PlacesAre(ranking, leg, [], p, store, k);
    ShownIsRanked(leg, p, store, k, |leg|);
    hide Allowed, Share, Ranked, Before;
    var shown := Shown(leg, p, store, k, |leg|);
    forall place
      ensures place in Places(ranking) <==> place in shown
    {
      if Listed(place.id, leg, [], p, store) {
        FoundHasId(leg, place.id);
        var i :| 0 <= i < |leg| && IdOf(leg[i]) == place.id;
        PointsOnce(leg, k, i);
        if place in Places(ranking) {
          assert AtRank(place, leg, p, store, k, i);
        }
      }
      if place in shown {
        var i :| 0 <= i < |leg| && AtRank(place, leg, p, store, k, i);
        PointsOnce(leg, k, i);
      }
    }
    RankedIsUnique(Places(ranking), shown);
  }
}
