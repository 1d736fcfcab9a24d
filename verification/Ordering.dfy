/** Strings compared by code points, as `<` and `sorted` compare them. */
module Ordering {

  predicate StringLe(a: string, b: string) {
    if a == "" then true
    else if b == "" then false
    else if a[0] != b[0] then a[0] < b[0]
    else StringLe(a[1..], b[1..])
  }

  lemma {:induction false} StringLeTotal(a: string, b: string)
    ensures StringLe(a, b) || StringLe(b, a)
    ensures StringLe(a, b) && StringLe(b, a) ==> a == b
  {
    if a != "" && b != "" && a[0] == b[0] {
      StringLeTotal(a[1..], b[1..]);
      assert a == [a[0]] + a[1..] && b == [b[0]] + b[1..];
    }
  }

  lemma {:induction false} StringLeReflexive(a: string)
    ensures StringLe(a, a)
  {
    if a != "" {
      StringLeReflexive(a[1..]);
    }
  }

  lemma {:induction false} StringLeTransitive(a: string, b: string, c: string)
    requires StringLe(a, b) && StringLe(b, c)
    ensures StringLe(a, c)
  {
    if a != "" && a[0] == b[0] == c[0] {
      StringLeTransitive(a[1..], b[1..], c[1..]);
    }
  }

  predicate StringLt(a: string, b: string) {
    a != b && StringLe(a, b)
  }

  lemma StringLtIsStrict(a: string, b: string, c: string)
    ensures StringLt(a, b) && StringLt(b, c) ==> StringLt(a, c)
    ensures a == b || StringLt(a, b) || StringLt(b, a)
    ensures !(StringLt(a, b) && StringLt(b, a))
  {
    StringLeTotal(a, b);
    if StringLe(a, b) && StringLe(b, c) {
      StringLeTransitive(a, b, c);
      StringLeTotal(b, c);
    }
  }

  // ----- the members of a collection, sorted

  ghost predicate StrictlySorted(items: seq<string>) {
    forall i, j :: 0 <= i < j < |items| ==> StringLt(items[i], items[j])
  }

  /** `x` put in its place, unless it is there. */
  function InsertNew(x: string, items: seq<string>): seq<string> {
    if items == [] then [x]
    else if x == items[0] then items
    else if StringLe(x, items[0]) then [x] + items
    else [items[0]] + InsertNew(x, items[1..])
  }

  lemma {:induction false} InsertNewKeeps(x: string, items: seq<string>)
    ensures forall y :: y in InsertNew(x, items) <==> y == x || y in items
  {
    hide StringLe;
    if items != [] {
      assert items == [items[0]] + items[1..];
      InsertNewKeeps(x, items[1..]);
    }
  }

  lemma LeastInFront(x: string, items: seq<string>)
    requires StrictlySorted(items) && forall y :: y in items ==> StringLt(x, y)
    ensures StrictlySorted([x] + items)
  {
  }

  lemma FirstIsLess(items: seq<string>)
    requires StrictlySorted(items) && items != []
    ensures StrictlySorted(items[1..]) && forall y :: y in items[1..] ==> StringLt(items[0], y)
  {
  }

  lemma {:induction false} InsertNewSorts(x: string, items: seq<string>)
    requires StrictlySorted(items)
    ensures StrictlySorted(InsertNew(x, items))
  {
    hide StringLe, StringLt, StrictlySorted;
    if items == [] {
      OneIsSorted(x);
    } else {
      FirstIsLess(items);
      assert items == [items[0]] + items[1..];
      StringLtIsStrict(x, items[0], x);
      LtMeansLe(x, items[0]);
      if StringLt(x, items[0]) {
        forall y | y in items
          ensures StringLt(x, y)
        {
          StringLtIsStrict(x, items[0], y);
        }
        LeastInFront(x, items);
      } else if x != items[0] {
        InsertNewSorts(x, items[1..]);
        InsertNewKeeps(x, items[1..]);
        LeastInFront(items[0], InsertNew(x, items[1..]));
      }
    }
  }

  lemma OneIsSorted(x: string)
    ensures StrictlySorted([x])
  {
  }

  lemma LtMeansLe(a: string, b: string)
    ensures StringLt(a, b) <==> a != b && StringLe(a, b)
  {
  }
}
