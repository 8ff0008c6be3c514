/** Insertion-ordered deduplication, and sorting by code point. */
module Lists {
  /** Each value once, where it first occurs: a Python dict's keys in insertion order. */
  function Dedup(xs: seq<string>): seq<string> {
    if xs == [] then []
    else
      var before, last := Dedup(xs[..|xs| - 1]), xs[|xs| - 1];
      if last in before then before else before + [last]
  }

  function FirstAt(xs: seq<string>, x: string): (k: nat)
    ensures k <= |xs|
    ensures k < |xs| ==> xs[k] == x
    ensures forall i :: 0 <= i < k ==> xs[i] != x
  {
    if xs == [] || xs[0] == x then 0 else 1 + FirstAt(xs[1..], x)
  }

  lemma FirstAtUnique(xs: seq<string>, x: string, k: nat)
    requires k < |xs| && xs[k] == x && forall i :: 0 <= i < k ==> xs[i] != x
    ensures FirstAt(xs, x) == k
  {
    if FirstAt(xs, x) < k {
      assert false;
    }
  }

  predicate Unique(xs: seq<string>) {
    forall i, j :: 0 <= i < j < |xs| ==> xs[i] != xs[j]
  }

  /** Nothing is lost, invented or repeated. */
  lemma {:induction false} DedupKeepsTheValues(xs: seq<string>)
    ensures Unique(Dedup(xs)) && forall x :: x in Dedup(xs) <==> x in xs
  {
    if xs != [] {
      DedupKeepsTheValues(xs[..|xs| - 1]);
      assert xs == xs[..|xs| - 1] + [xs[|xs| - 1]];
    }
  }

  lemma FirstAtOfInit(xs: seq<string>, x: string)
    requires xs != [] && x in xs[..|xs| - 1]
    ensures FirstAt(xs, x) == FirstAt(xs[..|xs| - 1], x) < |xs| - 1
  {
    var init := xs[..|xs| - 1];
    assert FirstAt(init, x) < |init| by {
      var i :| 0 <= i < |init| && init[i] == x;
    }
    FirstAtUnique(xs, x, FirstAt(init, x));
  }

  lemma FirstAtLast(xs: seq<string>)
    requires xs != [] && xs[|xs| - 1] !in xs[..|xs| - 1]
    ensures FirstAt(xs, xs[|xs| - 1]) == |xs| - 1
  {
    assert forall i :: 0 <= i < |xs| - 1 ==> xs[i] in xs[..|xs| - 1];
    FirstAtUnique(xs, xs[|xs| - 1], |xs| - 1);
  }

  /** Values keep the order of their first occurrences. */
  lemma {:induction false} DedupKeepsTheOrder(xs: seq<string>, i: nat, j: nat)
    requires i < j < |Dedup(xs)|
    ensures FirstAt(xs, Dedup(xs)[i]) < FirstAt(xs, Dedup(xs)[j]) < |xs|
  {
    hide FirstAt, Unique;
    var init := xs[..|xs| - 1];
    DedupKeepsTheValues(init);
    assert Dedup(xs)[i] == Dedup(init)[i] && Dedup(init)[i] in init;
    FirstAtOfInit(xs, Dedup(xs)[i]);
    if j < |Dedup(init)| {
      DedupKeepsTheOrder(init, i, j);
      assert Dedup(init)[j] in init;
      FirstAtOfInit(xs, Dedup(xs)[j]);
    } else {
      FirstAtLast(xs);
    }
  }

  function Backwards(xs: seq<string>): (r: seq<string>)
    ensures |r| == |xs| && forall i :: 0 <= i < |xs| ==> r[i] == xs[|xs| - 1 - i]
  {
    seq(|xs|, i requires 0 <= i < |xs| => xs[|xs| - 1 - i])
  }

  lemma BackwardsAppends(xs: seq<string>, x: string)
    ensures Backwards(xs + [x]) == [x] + Backwards(xs)
  {
  }

  // --- order ----------------------------------------------------------------------

  predicate Less(a: string, b: string) {
    if b == "" then false
    else if a == "" then true
    else a[0] < b[0] || (a[0] == b[0] && Less(a[1..], b[1..]))
  }

  lemma {:induction false} LessTransitive(a: string, b: string, c: string)
    requires Less(a, b) && Less(b, c)
    ensures Less(a, c)
  {
    if a != "" && a[0] == b[0] == c[0] {
      LessTransitive(a[1..], b[1..], c[1..]);
    }
  }

  lemma {:induction false} LessTotal(a: string, b: string)
    ensures !Less(a, a)
    ensures Less(a, b) || Less(b, a) || a == b
    ensures !(Less(a, b) && Less(b, a))
  {
    if a != "" {
      LessTotal(a[1..], if b == "" then "" else b[1..]);
      assert b != "" ==> a == [a[0]] + a[1..] && b == [b[0]] + b[1..];
    }
  }

  predicate Increasing(xs: seq<string>) {
    forall i, j :: 0 <= i < j < |xs| ==> Less(xs[i], xs[j])
  }

  function Insert(xs: seq<string>, x: string): seq<string> {
    if xs == [] || Less(x, xs[0]) then [x] + xs else [xs[0]] + Insert(xs[1..], x)
  }

  lemma {:induction false} InsertKeepsIncreasing(xs: seq<string>, x: string)
    requires Increasing(xs) && x !in xs
    ensures Increasing(Insert(xs, x)) && forall y :: y in Insert(xs, x) <==> y in xs || y == x
  {
    if xs == [] || Less(x, xs[0]) {
      forall j | 0 <= j < |xs| ensures Less(x, xs[j]) {
        if j > 0 { LessTransitive(x, xs[0], xs[j]); }
      }
    } else {
      LessTotal(x, xs[0]);
      var rest := Insert(xs[1..], x);
      assert xs == [xs[0]] + xs[1..];
      InsertKeepsIncreasing(xs[1..], x);
      forall j | 0 <= j < |rest| ensures Less(xs[0], rest[j]) {
        assert rest[j] in rest;
      }
    }
  }

  /** sorted(values) */
  method Sorted(values: set<string>) returns (r: seq<string>)
    ensures Increasing(r) && forall x :: x in r <==> x in values
  {
    r := [];
    var todo := values;
    while todo != {}
      invariant Increasing(r) && todo <= values && forall x :: x in r <==> x in values && x !in todo
    {
      var x :| x in todo;
      InsertKeepsIncreasing(r, x);
      r := Insert(r, x);
      todo := todo - {x};
    }
  }

  /** Only one increasing list has given values. */
  lemma {:induction false} IncreasingIsUnique(a: seq<string>, b: seq<string>)
    requires Increasing(a) && Increasing(b) && forall x :: x in a <==> x in b
    ensures a == b
  {
    if a == [] {
      if b != [] {
        HeadIsIn(b);
        assert false;
      }
    } else {
      assert a[0] in b;
      assert b != [] && b[0] in a;
      SameHead(a, b);
      forall x ensures x in a[1..] <==> x in b[1..] {
        TailValues(a, x);
        TailValues(b, x);
      }
      IncreasingIsUnique(a[1..], b[1..]);
      assert a == [a[0]] + a[1..] && b == [b[0]] + b[1..];
    }
  }

  lemma HeadIsIn(xs: seq<string>)
    requires xs != []
    ensures xs[0] in xs
  {
  }

  lemma HeadIsLeast(xs: seq<string>, x: string)
    requires Increasing(xs) && x in xs
    ensures x == xs[0] || Less(xs[0], x)
  {
    var i :| 0 <= i < |xs| && xs[i] == x;
  }

  lemma SameHead(a: seq<string>, b: seq<string>)
    requires Increasing(a) && Increasing(b) && a != [] && b != [] && a[0] in b && b[0] in a
    ensures a[0] == b[0]
  {
    HeadIsLeast(a, b[0]);
    HeadIsLeast(b, a[0]);
    LessTotal(a[0], b[0]);
  }

  lemma TailValues(a: seq<string>, x: string)
    requires Increasing(a) && a != []
    ensures x in a[1..] <==> x in a && x != a[0]
  {
    assert a == [a[0]] + a[1..];
    LessTotal(a[0], a[0]);
    if x in a[1..] {
      var i :| 0 <= i < |a[1..]| && a[1..][i] == x;
      assert Less(a[0], a[i + 1]);
    }
  }
}
