/** Sorting strings and dropping duplicates: the order-free content of a list. */
module Ordered {
  import opened Walks

  predicate Less(a: string, b: string)
    decreases |a|
  {
    b != "" && (a == "" || a[0] < b[0] || (a[0] == b[0] && Less(a[1..], b[1..])))
  }

  lemma {:induction false} LessTransitive(a: string, b: string, c: string)
    requires Less(a, b) && Less(b, c)
    ensures Less(a, c)
    decreases |a|
  {
    if a != "" && a[0] == b[0] && b[0] == c[0] { LessTransitive(a[1..], b[1..], c[1..]); }
  }

  lemma {:induction false} LessTotal(a: string, b: string)
    ensures !Less(a, a)
    ensures a == b || Less(a, b) || Less(b, a)
    decreases |a|
  {
    if a != "" {
      if b != "" && a[0] == b[0] {
        LessTotal(a[1..], b[1..]);
        assert a[1..] == b[1..] ==> a == [a[0]] + a[1..] == b;
      } else {
        LessTotal(a[1..], a[1..]);
      }
    }
  }

  ghost predicate Ascending(s: seq<string>) {
    forall i, j :: 0 <= i < j < |s| ==> Less(s[i], s[j])
  }

  function Insert(x: string, s: seq<string>): seq<string>
    decreases |s|
  {
    if s == [] then [x]
    else if x == s[0] then s
    else if Less(x, s[0]) then [x] + s
    else [s[0]] + Insert(x, s[1..])
  }

  function SortDedup(s: seq<string>): seq<string>
    decreases |s|
  {
    if s == [] then [] else Insert(s[0], SortDedup(s[1..]))
  }

  lemma PrependFacts(x: string, s: seq<string>)
    requires Ascending(s) && forall y :: y in Elements(s) ==> Less(x, y)
    ensures Ascending([x] + s) && Elements([x] + s) == {x} + Elements(s)
  {
    ElementsAppend([x], s);
    forall j | 0 <= j < |s| ensures Less(x, s[j]) {
      assert s[j] in Elements(s);
    }
  }

  /** The head of an ascending list is below the rest, and the rest is ascending. */
  lemma SplitFacts(s: seq<string>)
    requires Ascending(s) && s != []
    ensures Ascending(s[1..]) && Elements(s) == {s[0]} + Elements(s[1..])
    ensures forall y :: y in Elements(s[1..]) ==> Less(s[0], y)
  {
    ElementsAppend([s[0]], s[1..]);
    assert s == [s[0]] + s[1..];
    forall y | y in Elements(s[1..]) ensures Less(s[0], y) {
      var k :| 0 <= k < |s[1..]| && s[1..][k] == y;
      assert Less(s[0], s[k + 1]);
    }
  }

  lemma {:induction false} InsertFacts(x: string, s: seq<string>)
    requires Ascending(s)
    ensures Ascending(Insert(x, s)) && Elements(Insert(x, s)) == Elements(s) + {x}
    decreases |s|
  {
    if s == [] {
      assert Elements([x]) == {x};
    } else {
      SplitFacts(s);
      LessTotal(x, s[0]);
      if Less(x, s[0]) {
        forall y | y in Elements(s) ensures Less(x, y) {
          if y != s[0] { LessTransitive(x, s[0], y); }
        }
        PrependFacts(x, s);
      } else if x != s[0] {
        InsertFacts(x, s[1..]);
        PrependFacts(s[0], Insert(x, s[1..]));
      }
    }
  }

  lemma {:induction false} SortDedupFacts(s: seq<string>)
    ensures Ascending(SortDedup(s)) && Elements(SortDedup(s)) == Elements(s)
    decreases |s|
  {
    if s != [] {
      SortDedupFacts(s[1..]);
      InsertFacts(s[0], SortDedup(s[1..]));
      ElementsAppend([s[0]], s[1..]);
      assert s == [s[0]] + s[1..];
    }
  }

  lemma NoElements(s: seq<string>)
    ensures Elements(s) == {} ==> s == []
  {
    if s != [] { assert s[0] in Elements(s); }
  }

  /** An ascending list is determined by its elements. */
  lemma {:induction false} AscendingUnique(a: seq<string>, b: seq<string>)
    requires Ascending(a) && Ascending(b) && Elements(a) == Elements(b)
    ensures a == b
    decreases |a|
  {
    if a == [] {
      NoElements(b);
    } else {
      assert a[0] in Elements(b);
      assert b != [];
      assert b[0] in Elements(a);
      HeadsAgree(a, b);
      TailElements(a);
      TailElements(b);
      AscendingUnique(a[1..], b[1..]);
      assert a == [a[0]] + a[1..] && b == [b[0]] + b[1..];
    }
  }

  lemma HeadsAgree(a: seq<string>, b: seq<string>)
    requires Ascending(a) && Ascending(b) && a != [] && b != []
    requires a[0] in b && b[0] in a
    ensures a[0] == b[0]
  {
    var i :| 0 <= i < |a| && a[i] == b[0];
    var j :| 0 <= j < |b| && b[j] == a[0];
    if i > 0 && j > 0 {
      LessTransitive(a[0], a[i], b[j]);
      LessTotal(a[0], a[0]);
    }
  }

  lemma TailElements(s: seq<string>)
    requires Ascending(s) && s != []
    ensures Ascending(s[1..]) && Elements(s[1..]) == Elements(s) - {s[0]}
  {
    SplitFacts(s);
    LessTotal(s[0], s[0]);
  }

  /** Lists with the same elements sort to the same list. */
  lemma SameElementsSortAlike(a: seq<string>, b: seq<string>)
    requires Elements(a) == Elements(b)
    ensures SortDedup(a) == SortDedup(b)
  {
    SortDedupFacts(a);
    SortDedupFacts(b);
    AscendingUnique(SortDedup(a), SortDedup(b));
  }
}
