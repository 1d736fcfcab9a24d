/** Evidence packed into a bounded, diverse context (src/modules/answering/context_packer.py). */
module Packer {
  import opened Text
  import opened Wrappers
  import opened Ordering
  import opened Evidences

  datatype PackedContext = PackedContext(evidence: seq<Evidence>, tokenCount: nat, maxTokens: nat,
                                         conflicts: seq<(string, seq<string>)>, truncated: bool)

  // ----- deduplication

  /** Item `i` is the first with its identity. */
  ghost predicate IsFirst(evidence: seq<Evidence>, i: nat)
    requires i < |evidence|
  {
    forall j :: 0 <= j < i ==> evidence[j].Identity() != evidence[i].Identity()
  }

  /** The items that are the first with their identity, in order. */
  ghost function Firsts(evidence: seq<Evidence>): seq<Evidence> {
    if evidence == [] then []
    else
      var n := |evidence| - 1;
      Firsts(evidence[..n]) + if IsFirst(evidence, n) then [evidence[n]] else []
  }

  method Deduplicate(evidence: seq<Evidence>) returns (unique: seq<Evidence>)
    ensures unique == Firsts(evidence)
  {
    var seen: set<(string, string, Span)> := {};
    unique := [];
    for i := 0 to |evidence|
      invariant unique == Firsts(evidence[..i])
      invariant forall id :: id in seen <==> exists j :: 0 <= j < i && evidence[j].Identity() == id
    {
      assert evidence[..i + 1][..i] == evidence[..i];
      var identity := evidence[i].Identity();
      if identity !in seen {
        seen := seen + {identity};
        unique := unique + [evidence[i]];
        assert IsFirst(evidence[..i + 1], i);
      }
    }
    assert evidence[..|evidence|] == evidence;
  }

  /** No identity is kept twice, and nothing is invented. */
  lemma {:induction false} FirstsAreUnique(evidence: seq<Evidence>)
    ensures forall u :: u in Firsts(evidence) ==> u in evidence
    ensures forall i, j :: 0 <= i < j < |Firsts(evidence)| ==>
        Firsts(evidence)[i].Identity() != Firsts(evidence)[j].Identity()
  {
    if evidence != [] {
      var n := |evidence| - 1;
      var before := Firsts(evidence[..n]);
      FirstsAreUnique(evidence[..n]);
      if IsFirst(evidence, n) {
        forall i | 0 <= i < |before|
          ensures before[i].Identity() != evidence[n].Identity()
        {
          assert before[i] in evidence[..n];
        }
      }
    }
  }

  /** Every identity is kept. */
  lemma {:induction false} FirstsCover(evidence: seq<Evidence>, i: nat) returns (u: Evidence)
    requires i < |evidence|
    ensures u in Firsts(evidence) && u.Identity() == evidence[i].Identity()
  {
    var n := |evidence| - 1;
    if i < n {
      u := FirstsCover(evidence[..n], i);
    } else if IsFirst(evidence, n) {
      u := evidence[n];
      assert Firsts(evidence)[|Firsts(evidence)| - 1] == u;
    } else {
      var j :| 0 <= j < n && evidence[j].Identity() == evidence[n].Identity();
      u := FirstsCover(evidence[..n], j);
    }
  }

  // ----- items by source

  function Of(items: seq<Evidence>, source: string): seq<Evidence> {
    if items == [] then []
    else Of(items[..|items| - 1], source) + if items[|items| - 1].source == source then [items[|items| - 1]] else []
  }

  lemma OfAppend(items: seq<Evidence>, x: Evidence, source: string)
    ensures Of(items + [x], source) == if x.source == source then Of(items, source) + [x] else Of(items, source)
  {
  }

  lemma {:induction false} OfCounts(items: seq<Evidence>, x: Evidence)
    ensures multiset(Of(items, x.source))[x] == multiset(items)[x]
    ensures x in items <==> x in Of(items, x.source)
    ensures |Of(items, x.source)| <= |items|
  {
    if items != [] {
      OfCounts(items[..|items| - 1], x);
      assert items == items[..|items| - 1] + [items[|items| - 1]];
    }
  }

  /** Sequences that agree source by source are permutations of each other. */
  lemma SameOfIsPermutation(a: seq<Evidence>, b: seq<Evidence>)
    requires forall s :: Of(a, s) == Of(b, s)
    ensures multiset(a) == multiset(b) && |a| == |b|
  {
    forall x
      ensures multiset(a)[x] == multiset(b)[x]
    {
      OfCounts(a, x);
      OfCounts(b, x);
    }
    assert multiset(a) == multiset(b);
    assert |multiset(a)| == |a| && |multiset(b)| == |b|;
  }

  // ----- the diverse order

  /** How many items of the same source come before item `i`. */
  function Depth(items: seq<Evidence>, i: nat): nat
    requires i < |items|
  {
    |Of(items[..i], items[i].source)|
  }

  /** Where the source of item `i` first occurs. */
  function FirstIndex(items: seq<Evidence>, source: string): nat {
    if items == [] then 0 else if items[0].source == source then 0 else 1 + FirstIndex(items[1..], source)
  }

  /** Shallower items first; at the same depth, by where their sources first occur. */
  ghost predicate RoundRobin(evidence: seq<Evidence>, ordered: seq<Evidence>) {
    forall i, j :: 0 <= i < j < |ordered| ==>
      || Depth(ordered, i) < Depth(ordered, j)
      || (Depth(ordered, i) == Depth(ordered, j)
          && FirstIndex(evidence, ordered[i].source) < FirstIndex(evidence, ordered[j].source))
  }

  /** The sources in order of first occurrence: every source, each once. */
  ghost predicate SourcesInOrder(evidence: seq<Evidence>, keys: seq<string>) {
    && (forall s :: s in keys <==> exists e :: e in evidence && e.source == s)
    && (forall i, j :: 0 <= i < j < |keys| ==>
      keys[i] != keys[j] && FirstIndex(evidence, keys[i]) < FirstIndex(evidence, keys[j]))
  }

  lemma {:induction false} FirstIndexAppend(items: seq<Evidence>, x: Evidence, source: string)
    ensures (exists e :: e in items && e.source == source) ==>
      FirstIndex(items, source) < |items| && FirstIndex(items + [x], source) == FirstIndex(items, source)
    ensures !(exists e :: e in items && e.source == source) ==>
      FirstIndex(items, source) == |items| && (x.source == source ==> FirstIndex(items + [x], source) == |items|)
  {
    if items != [] {
      FirstIndexAppend(items[1..], x, source);
      assert (items + [x])[1..] == items[1..] + [x];
      assert items[0] in items;
      assert forall e :: e in items[1..] ==> e in items;
      assert forall e :: e in items ==> e == items[0] || e in items[1..];
    }
  }

  /** Each source's items, in order. */
  ghost predicate Grouped(items: seq<Evidence>, keys: seq<string>, groups: map<string, seq<Evidence>>) {
    && SourcesInOrder(items, keys)
    && (forall s :: s in groups <==> s in keys)
    && (forall s :: s in keys ==> groups[s] == Of(items, s))
  }

  lemma SourceIsNew(items: seq<Evidence>, source: string, keys: seq<string>)
    requires SourcesInOrder(items, keys) && source !in keys
    ensures Of(items, source) == []
  {
    NothingOf(items, source);
  }

  lemma GroupNext(items: seq<Evidence>, x: Evidence, keys: seq<string>, groups: map<string, seq<Evidence>>)
    requires Grouped(items, keys, groups)
    ensures x.source in groups <==> x.source in keys
    ensures Grouped(items + [x], if x.source in keys then keys else keys + [x.source],
                    groups[x.source := (if x.source in groups then groups[x.source] else []) + [x]])
  {
    hide Of, SourcesInOrder;
    NextSource(items, x, keys);
    if x.source !in keys {
      SourceIsNew(items, x.source, keys);
    }
    var after := if x.source in keys then keys else keys + [x.source];
    forall s | s in after
      ensures Of(items + [x], s) == if x.source == s then Of(items, s) + [x] else Of(items, s)
      ensures s in keys || s == x.source
    {
      OfAppend(items, x, s);
    }
  }

  lemma NothingGrouped()
    ensures Grouped([], [], map[])
  {
  }

  /** Group the items by source, remembering the order in which sources first occur. */
  method GroupBySource(evidence: seq<Evidence>) returns (keys: seq<string>, groups: map<string, seq<Evidence>>)
    ensures Grouped(evidence, keys, groups)
  {
    hide Grouped, Of;
    keys, groups := [], map[];
    NothingGrouped();
    for i := 0 to |evidence|
      invariant Grouped(evidence[..i], keys, groups)
    {
      var item := evidence[i];
      assert evidence[..i + 1] == evidence[..i] + [item];
      GroupNext(evidence[..i], item, keys, groups);
      assert [] + [item] == [item];
      if item.source !in groups {
        keys := keys + [item.source];
        groups := groups[item.source := [item]];
      } else {
        groups := groups[item.source := groups[item.source] + [item]];
      }
    }
    assert evidence[..|evidence|] == evidence;
  }

  lemma NextSource(items: seq<Evidence>, x: Evidence, keys: seq<string>)
    requires SourcesInOrder(items, keys)
    ensures SourcesInOrder(items + [x], if x.source in keys then keys else keys + [x.source])
  {
    var after := if x.source in keys then keys else keys + [x.source];
    assert forall e :: e in items + [x] <==> e in items || e == x;
    forall k | 0 <= k < |after|
      ensures FirstIndex(items + [x], after[k]) == if k < |keys| then FirstIndex(items, keys[k]) else |items|
      ensures k < |keys| ==> FirstIndex(items, keys[k]) < |items|
    {
      FirstIndexAppend(items, x, after[k]);
      if k < |keys| {
        assert keys[k] in keys;
      }
    }
  }

  lemma {:induction false} NothingOf(items: seq<Evidence>, source: string)
    requires forall e :: e in items ==> e.source != source
    ensures Of(items, source) == []
  {
    if items != [] {
      NothingOf(items[..|items| - 1], source);
    }
  }

  /** Each source has given its first `depth` items, and the first `k` sources one more. */
  ghost predicate Columns(evidence: seq<Evidence>, keys: seq<string>, ordered: seq<Evidence>, depth: nat, k: nat) {
    && (forall e :: e in ordered ==> e.source in keys)
    && forall j :: 0 <= j < |keys| ==>
      Of(ordered, keys[j]) == Top(Of(evidence, keys[j]), if j < k then depth + 1 else depth)
  }

  /** Where the k-th source first occurs, or the end. */
  function Bound(evidence: seq<Evidence>, keys: seq<string>, k: nat): nat {
    if k < |keys| then FirstIndex(evidence, keys[k]) else |evidence|
  }

  /** Everything taken comes before the item of source `k` at `depth`. */
  ghost predicate AllBefore(evidence: seq<Evidence>, ordered: seq<Evidence>, depth: nat, bound: nat) {
    forall i :: 0 <= i < |ordered| ==>
      Depth(ordered, i) < depth || (Depth(ordered, i) == depth && FirstIndex(evidence, ordered[i].source) < bound)
  }

  ghost predicate Taken(evidence: seq<Evidence>, keys: seq<string>, ordered: seq<Evidence>, depth: nat, k: nat) {
    && Columns(evidence, keys, ordered, depth, k)
    && RoundRobin(evidence, ordered)
    && AllBefore(evidence, ordered, depth, Bound(evidence, keys, k))
  }

  function Top(items: seq<Evidence>, n: nat): seq<Evidence> {
    if n < |items| then items[..n] else items
  }

  lemma DepthAppend(items: seq<Evidence>, x: Evidence)
    ensures forall i :: 0 <= i < |items| ==> Depth(items + [x], i) == Depth(items, i)
    ensures Depth(items + [x], |items|) == |Of(items, x.source)|
  {
    forall i | 0 <= i < |items|
      ensures Depth(items + [x], i) == Depth(items, i)
    {
      assert (items + [x])[..i] == items[..i];
    }
    assert (items + [x])[..|items|] == items;
  }

  lemma ColumnsNext(evidence: seq<Evidence>, keys: seq<string>, ordered: seq<Evidence>, depth: nat, k: nat)
    requires SourcesInOrder(evidence, keys) && k < |keys| && Columns(evidence, keys, ordered, depth, k)
    requires depth < |Of(evidence, keys[k])|
    ensures Columns(evidence, keys, ordered + [Of(evidence, keys[k])[depth]], depth, k + 1)
  {
    hide Of;
    var x := Of(evidence, keys[k])[depth];
    OfSource(evidence, keys[k], depth);
    assert forall e :: e in ordered + [x] ==> e in ordered || e == x;
    forall j | 0 <= j < |keys|
      ensures Of(ordered + [x], keys[j]) == Top(Of(evidence, keys[j]), if j < k + 1 then depth + 1 else depth)
    {
      OfAppend(ordered, x, keys[j]);
    }
  }

  lemma RoundRobinNext(evidence: seq<Evidence>, ordered: seq<Evidence>, x: Evidence, depth: nat, bound: nat)
    requires RoundRobin(evidence, ordered)
    requires |Of(ordered, x.source)| == depth && AllBefore(evidence, ordered, depth, FirstIndex(evidence, x.source))
    requires FirstIndex(evidence, x.source) < bound
    ensures RoundRobin(evidence, ordered + [x]) && AllBefore(evidence, ordered + [x], depth, bound)
  {
    DepthAppend(ordered, x);
    hide Depth, Of, FirstIndex;
  }

  lemma BoundGrows(evidence: seq<Evidence>, keys: seq<string>, k: nat)
    requires SourcesInOrder(evidence, keys) && k < |keys|
    ensures Bound(evidence, keys, k) < Bound(evidence, keys, k + 1)
  {
    assert keys[k] in keys;
    var e :| e in evidence && e.source == keys[k];
    FirstIndexAppend(evidence, e, keys[k]);
  }

  lemma TakenTop(evidence: seq<Evidence>, keys: seq<string>, ordered: seq<Evidence>, depth: nat, k: nat)
    requires k < |keys| && Columns(evidence, keys, ordered, depth, k) && SourcesInOrder(evidence, keys)
    ensures depth < |Of(evidence, keys[k])| ==> |Of(ordered, keys[k])| == depth
    ensures depth >= |Of(evidence, keys[k])| ==> Columns(evidence, keys, ordered, depth, k + 1)
  {
  }

  lemma BeforeLater(evidence: seq<Evidence>, ordered: seq<Evidence>, depth: nat, bound: nat, later: nat)
    requires AllBefore(evidence, ordered, depth, bound) && bound <= later
    ensures AllBefore(evidence, ordered, depth, later)
  {
  }

  /** Taking the next source's item at this depth, if it has one. */
  lemma TakeNext(evidence: seq<Evidence>, keys: seq<string>, ordered: seq<Evidence>, depth: nat, k: nat)
    requires SourcesInOrder(evidence, keys) && k < |keys| && Taken(evidence, keys, ordered, depth, k)
    ensures var group := Of(evidence, keys[k]);
      Taken(evidence, keys, if depth < |group| then ordered + [group[depth]] else ordered, depth, k + 1)
  {
    hide Of, Columns, RoundRobin, AllBefore, SourcesInOrder, FirstIndex;
    BoundGrows(evidence, keys, k);
    TakenTop(evidence, keys, ordered, depth, k);
    if depth < |Of(evidence, keys[k])| {
      OfSource(evidence, keys[k], depth);
      assert Of(evidence, keys[k])[depth].source == keys[k];
      ColumnsNext(evidence, keys, ordered, depth, k);
      RoundRobinNext(evidence, ordered, Of(evidence, keys[k])[depth], depth, Bound(evidence, keys, k + 1));
    } else {
      BeforeLater(evidence, ordered, depth, Bound(evidence, keys, k), Bound(evidence, keys, k + 1));
    }
  }

  lemma {:induction false} OfSource(items: seq<Evidence>, source: string, i: nat)
    requires i < |Of(items, source)|
    ensures Of(items, source)[i].source == source && Of(items, source)[i] in items
  {
    if i < |Of(items[..|items| - 1], source)| {
      OfSource(items[..|items| - 1], source, i);
    }
  }

  /** When no group is deeper than `depth`, the order is a permutation of the evidence. */
  lemma AllTaken(evidence: seq<Evidence>, keys: seq<string>, ordered: seq<Evidence>, depth: nat)
    requires SourcesInOrder(evidence, keys) && Columns(evidence, keys, ordered, depth, 0)
    requires |ordered| < |evidence| || exists s :: Of(ordered, s) != Of(evidence, s)
    ensures exists j :: 0 <= j < |keys| && |Of(evidence, keys[j])| > depth
  {
    if forall j :: 0 <= j < |keys| ==> |Of(evidence, keys[j])| <= depth {
      forall s
        ensures Of(ordered, s) == Of(evidence, s)
      {
        if s in keys {
          var j :| 0 <= j < |keys| && keys[j] == s;
        } else {
          NothingOf(ordered, s);
          NothingOf(evidence, s);
        }
      }
      SameOfIsPermutation(ordered, evidence);
    }
  }

  /** Items taken are at most all items; so once as many are taken, all are. */
  lemma TakenAtMostAll(evidence: seq<Evidence>, keys: seq<string>, ordered: seq<Evidence>, depth: nat)
    requires SourcesInOrder(evidence, keys) && Columns(evidence, keys, ordered, depth, 0)
    ensures multiset(ordered) <= multiset(evidence)
    ensures |ordered| >= |evidence| ==> forall s :: Of(ordered, s) == Of(evidence, s)
  {
    forall x
      ensures multiset(ordered)[x] <= multiset(evidence)[x]
    {
      OfCounts(ordered, x);
      OfCounts(evidence, x);
      if x in ordered {
        var j :| 0 <= j < |keys| && keys[j] == x.source;
        TopCounts(Of(evidence, keys[j]), depth, x);
      }
    }
    if |ordered| >= |evidence| {
      forall s
        ensures Of(ordered, s) == Of(evidence, s)
      {
        SubMultisetSameSize(ordered, evidence);
        OfLength(ordered, evidence, s);
        if s in keys {
          var j :| 0 <= j < |keys| && keys[j] == s;
        } else {
          NothingOf(ordered, s);
          NothingOf(evidence, s);
        }
      }
    }
  }

  lemma TopCounts(items: seq<Evidence>, n: nat, x: Evidence)
    ensures multiset(Top(items, n))[x] <= multiset(items)[x]
  {
    if n < |items| {
      assert items == items[..n] + items[n..];
    }
  }

  lemma SubMultisetSameSize(a: seq<Evidence>, b: seq<Evidence>)
    requires multiset(a) <= multiset(b) && |a| >= |b|
    ensures multiset(a) == multiset(b)
  {
    var rest := multiset(b) - multiset(a);
    assert multiset(b) == multiset(a) + rest;
    assert |multiset(a)| == |a| && |multiset(b)| == |b|;
    assert |rest| == 0;
  }

  /** Permutations have as many items of each source. */
  lemma {:induction false} OfLength(a: seq<Evidence>, b: seq<Evidence>, source: string)
    requires multiset(a) == multiset(b)
    ensures |Of(a, source)| == |Of(b, source)|
  {
    forall x
      ensures multiset(Of(a, source))[x] == multiset(Of(b, source))[x]
    {
      if x.source == source {
        OfCounts(a, x);
        OfCounts(b, x);
      } else {
        OthersNotOf(a, source, x);
        OthersNotOf(b, source, x);
      }
    }
    assert multiset(Of(a, source)) == multiset(Of(b, source));
    assert |multiset(Of(a, source))| == |Of(a, source)| && |multiset(Of(b, source))| == |Of(b, source)|;
  }

  lemma {:induction false} OthersNotOf(items: seq<Evidence>, source: string, x: Evidence)
    requires x.source != source
    ensures x !in Of(items, source)
  {
    if items != [] {
      OthersNotOf(items[..|items| - 1], source, x);
    }
  }

  lemma TakenNothing(evidence: seq<Evidence>, keys: seq<string>)
    ensures Taken(evidence, keys, [], 0, 0)
  {
  }

  lemma TakenColumns(evidence: seq<Evidence>, keys: seq<string>, ordered: seq<Evidence>, depth: nat)
    requires Taken(evidence, keys, ordered, depth, 0)
    ensures Columns(evidence, keys, ordered, depth, 0) && RoundRobin(evidence, ordered)
  {
  }

  /** When every source had its turn at a depth, the next depth begins. */
  lemma TakenDeeper(evidence: seq<Evidence>, keys: seq<string>, ordered: seq<Evidence>, depth: nat)
    requires Taken(evidence, keys, ordered, depth, |keys|)
    ensures Taken(evidence, keys, ordered, depth + 1, 0)
  {
  }

  /** Round robin over the sources. Terminates: while items are missing, some group is deeper. */
  method DiverseOrder(evidence: seq<Evidence>) returns (ordered: seq<Evidence>)
    ensures multiset(ordered) == multiset(evidence)
    ensures forall s :: Of(ordered, s) == Of(evidence, s)
    ensures RoundRobin(evidence, ordered)
  {
    hide Taken, Columns, RoundRobin, SourcesInOrder, Of;
    var keys, groups := GroupBySource(evidence);
    ordered := [];
    var depth := 0;
    TakenNothing(evidence, keys);
    while |ordered| < |evidence|
      invariant depth <= |evidence|
      invariant Taken(evidence, keys, ordered, depth, 0)
      decreases |evidence| - depth
    {
      TakenColumns(evidence, keys, ordered, depth);
      AllTaken(evidence, keys, ordered, depth);
      ghost var deep :| 0 <= deep < |keys| && |Of(evidence, keys[deep])| > depth;
      GroupsAreShort(evidence, keys[deep]);
      for k := 0 to |keys|
        invariant Taken(evidence, keys, ordered, depth, k)
      {
        TakeNext(evidence, keys, ordered, depth, k);
        var items := groups[keys[k]];
        if depth < |items| {
          ordered := ordered + [items[depth]];
        }
      }
      TakenDeeper(evidence, keys, ordered, depth);
      depth := depth + 1;
    }
    TakenColumns(evidence, keys, ordered, depth);
    TakenAtMostAll(evidence, keys, ordered, depth);
    SameOfIsPermutation(ordered, evidence);
  }

  lemma {:induction false} GroupsAreShort(items: seq<Evidence>, source: string)
    ensures |Of(items, source)| <= |items|
  {
    if items != [] {
      GroupsAreShort(items[..|items| - 1], source);
    }
  }

  // ----- packing

  /** `len(text.split())` */
  function TokensOf(e: Evidence): nat {
    Count(e.text, 0, |e.text|)
  }

  function TotalTokens(items: seq<Evidence>): nat {
    if items == [] then 0 else TotalTokens(items[..|items| - 1]) + TokensOf(items[|items| - 1])
  }

  /** The items of `candidates` that fitted in what the items chosen before them had left. */
  function Fitting(candidates: seq<Evidence>, max: nat): (chosen: seq<Evidence>)
    ensures TotalTokens(chosen) <= max
  {
    if candidates == [] then []
    else
      var n := |candidates| - 1;
      var before := Fitting(candidates[..n], max);
      if TotalTokens(before) + TokensOf(candidates[n]) <= max then
        assert (before + [candidates[n]])[..|before|] == before;
        before + [candidates[n]]
      else before
  }

  /** Chosen items are candidates in their order, and no candidate left out would fit in
      what is finally left. */
  lemma {:induction false} FittingIsMaximal(candidates: seq<Evidence>, max: nat)
    ensures forall e :: e in Fitting(candidates, max) ==> e in candidates
    ensures forall e :: e in candidates && e !in Fitting(candidates, max) ==>
      TotalTokens(Fitting(candidates, max)) + TokensOf(e) > max
    ensures |Fitting(candidates, max)| <= |candidates|
    ensures |Fitting(candidates, max)| == |candidates| <==> Fitting(candidates, max) == candidates
  {
    if candidates != [] {
      var n := |candidates| - 1;
      var before := Fitting(candidates[..n], max);
      FittingIsMaximal(candidates[..n], max);
      assert candidates == candidates[..n] + [candidates[n]];
      assert (before + [candidates[n]])[..|before|] == before;
    }
  }

  /** The documents of the items, sorted. */
  function DocumentsOf(items: seq<Evidence>): seq<string> {
    if items == [] then []
    else InsertNew(items[|items| - 1].document, DocumentsOf(items[..|items| - 1]))
  }

  /** The versions of a document among the items, sorted. */
  function VersionsOf(items: seq<Evidence>, document: string): seq<string> {
    if items == [] then []
    else
      var before := VersionsOf(items[..|items| - 1], document);
      var last := items[|items| - 1];
      if last.document == document then InsertNew(last.version, before) else before
  }

  function ConflictsOf(items: seq<Evidence>, documents: seq<string>): seq<(string, seq<string>)> {
    if documents == [] then []
    else
      var d := documents[|documents| - 1];
      var versions := VersionsOf(items, d);
      ConflictsOf(items, documents[..|documents| - 1]) + if |versions| > 1 then [(d, versions)] else []
  }

  /** `_conflicts` */
  function Conflicts(items: seq<Evidence>): seq<(string, seq<string>)> {
    ConflictsOf(items, DocumentsOf(items))
  }

  lemma {:induction false} DocumentsAre(items: seq<Evidence>)
    ensures StrictlySorted(DocumentsOf(items))
    ensures forall d :: d in DocumentsOf(items) <==> exists e :: e in items && e.document == d
  {
    hide StringLt, InsertNew;
    if items != [] {
      var n := |items| - 1;
      DocumentsAre(items[..n]);
      InsertNewSorts(items[n].document, DocumentsOf(items[..n]));
      InsertNewKeeps(items[n].document, DocumentsOf(items[..n]));
      assert items == items[..n] + [items[n]];
    }
  }

  lemma {:induction false} VersionsAre(items: seq<Evidence>, document: string)
    ensures StrictlySorted(VersionsOf(items, document))
    ensures forall v :: v in VersionsOf(items, document) <==>
              exists e :: e in items && e.document == document && e.version == v
  {
    hide StringLt, InsertNew;
    if items != [] {
      var n := |items| - 1;
      VersionsAre(items[..n], document);
      InsertNewSorts(items[n].version, VersionsOf(items[..n], document));
      InsertNewKeeps(items[n].version, VersionsOf(items[..n], document));
      assert items == items[..n] + [items[n]];
    }
  }

  lemma {:induction false} ConflictsOfAre(items: seq<Evidence>, documents: seq<string>)
    requires StrictlySorted(documents)
    ensures forall c :: c in ConflictsOf(items, documents) <==>
              c.0 in documents && c.1 == VersionsOf(items, c.0) && |c.1| > 1
    ensures forall i, j :: 0 <= i < j < |ConflictsOf(items, documents)| ==>
              StringLt(ConflictsOf(items, documents)[i].0, ConflictsOf(items, documents)[j].0)
  {
    hide StringLt, VersionsOf;
    if documents != [] {
      var n := |documents| - 1;
      var before := ConflictsOf(items, documents[..n]);
      ConflictsOfAre(items, documents[..n]);
      assert documents == documents[..n] + [documents[n]];
      forall i | 0 <= i < |before|
        ensures StringLt(before[i].0, documents[n])
      {
        assert before[i] in before;
        var k :| 0 <= k < n && documents[k] == before[i].0;
      }
    }
  }

  /** The listed conflicts are exactly the documents of which several versions were packed, sorted,
      each with exactly its packed versions, sorted. */
  lemma ConflictsAreListed(items: seq<Evidence>)
    ensures forall i, j :: 0 <= i < j < |Conflicts(items)| ==> StringLt(Conflicts(items)[i].0, Conflicts(items)[j].0)
    ensures forall c :: c in Conflicts(items) ==>
      && StrictlySorted(c.1)
      && forall v :: v in c.1 <==> exists e :: e in items && e.document == c.0 && e.version == v
    ensures forall d :: (exists c :: c in Conflicts(items) && c.0 == d) <==> InConflict(items, d)
  {
    hide StringLt, StrictlySorted, VersionsOf, DocumentsOf, ConflictsOf;
    DocumentsAre(items);
    ConflictsOfAre(items, DocumentsOf(items));
    forall d
      ensures StrictlySorted(VersionsOf(items, d))
      ensures forall v :: v in VersionsOf(items, d) <==> exists e :: e in items && e.document == d && e.version == v
    {
      VersionsAre(items, d);
    }
    forall d
      ensures InConflict(items, d) <==> d in DocumentsOf(items) && |VersionsOf(items, d)| > 1
      ensures InConflict(items, d) ==> (d, VersionsOf(items, d)) in Conflicts(items)
    {
      SeveralVersions(items, d);
    }
  }

  ghost predicate InConflict(items: seq<Evidence>, document: string) {
    exists a, b :: a in items && b in items && a.document == b.document == document && a.version != b.version
  }

  lemma SeveralVersions(items: seq<Evidence>, d: string)
    ensures InConflict(items, d) <==> |VersionsOf(items, d)| > 1
    ensures InConflict(items, d) ==> exists e :: e in items && e.document == d
  {
    var versions := VersionsOf(items, d);
    VersionsAre(items, d);
    hide VersionsOf, StringLe;
    if |versions| > 1 {
      assert versions[0] in versions && versions[1] in versions && StringLt(versions[0], versions[1]);
    }
    if InConflict(items, d) {
      var a, b :| a in items && b in items && a.document == b.document == d && a.version != b.version;
      assert a.version in versions && b.version in versions;
    }
  }

  /** The whole of packing: deduplicated, reordered, filled up to the bound. */
  ghost predicate IsPacking(evidence: seq<Evidence>, max: nat, ordered: seq<Evidence>, packed: PackedContext) {
    && multiset(ordered) == multiset(Firsts(evidence))
    && (forall s :: Of(ordered, s) == Of(Firsts(evidence), s))
    && RoundRobin(Firsts(evidence), ordered)
    && packed.evidence == Fitting(ordered, max)
    && packed.tokenCount == TotalTokens(packed.evidence) <= max == packed.maxTokens
    && packed.conflicts == Conflicts(packed.evidence)
    && (packed.truncated <==> packed.evidence != ordered)
  }

  method Pack(evidence: seq<Evidence>, max: nat) returns (packed: PackedContext, ghost ordered: seq<Evidence>)
    ensures IsPacking(evidence, max, ordered, packed)
    ensures packed.tokenCount == TotalTokens(packed.evidence) <= max
    ensures forall e :: e in Firsts(evidence) && e !in packed.evidence ==> packed.tokenCount + TokensOf(e) > max
  {
    hide Conflicts, RoundRobin, Of, Firsts;
    var unique := Deduplicate(evidence);
    var candidates := DiverseOrder(unique);
    ordered := candidates;
    SameOfIsPermutation(candidates, unique);
    var selected: seq<Evidence> := [];
    var tokenCount: nat := 0;
    for i := 0 to |candidates|
      invariant selected == Fitting(candidates[..i], max) && tokenCount == TotalTokens(selected)
    {
      assert candidates[..i + 1][..i] == candidates[..i];
      var itemTokens := TokensOf(candidates[i]);
      if itemTokens > max - tokenCount {
        continue;
      }
      assert (selected + [candidates[i]])[..|selected|] == selected;
      selected := selected + [candidates[i]];
      tokenCount := tokenCount + itemTokens;
    }
    assert candidates[..|candidates|] == candidates;
    FittingIsMaximal(candidates, max);
    forall e
      ensures e in candidates <==> e in unique
    {
      assert e in multiset(candidates) <==> e in multiset(unique);
    }
    packed := PackedContext(selected, tokenCount, max, Conflicts(selected), |selected| < |unique|);
  }

  /** Only retrieved evidence is packed. */
  lemma PackedIsRetrieved(evidence: seq<Evidence>, max: nat, ordered: seq<Evidence>, packed: PackedContext)
    requires IsPacking(evidence, max, ordered, packed)
    ensures forall e :: e in packed.evidence ==> e in evidence
  {
    FittingIsMaximal(ordered, max);
    FirstsAreUnique(evidence);
    forall e | e in packed.evidence
      ensures e in evidence
    {
      assert e in multiset(ordered) && e in multiset(Firsts(evidence));
    }
  }

  lemma FirstsOfOne(e: Evidence)
    ensures Firsts([e]) == [e] && RoundRobin([e], [e])
  {
  }
}
