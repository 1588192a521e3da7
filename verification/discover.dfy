/** The method-list step of the `discover` command: the names the
    documentation scrape matched are de-duplicated (first occurrence kept,
    names without a dot dropped), sorted, and grouped by category, the part
    of the name before its first dot. */
module Discover {
  import opened Wrappers
  import opened Strings

  predicate Distinct(s: seq<string>) {
    forall i, j :: 0 <= i < j < |s| ==> s[i] != s[j]
  }

  /** Python's ascending `list.sort()` on strings. */
  predicate Sorted(s: seq<string>) {
    forall i, j :: 0 <= i < j < |s| ==> LessEq(s[i], s[j])
  }

  /** The position of the first occurrence of `x` in `s`. */
  function FirstIndex(s: seq<string>, x: string): (r: nat)
    requires x in s
    ensures r < |s| && s[r] == x && x !in s[..r]
  {
    if s[0] == x then 0
    else
      assert s == [s[0]] + s[1..];
      var r := 1 + FirstIndex(s[1..], x);
      assert s[..r] == [s[0]] + s[1..][..r - 1];
      r
  }

  lemma FirstIndexBefore(s: seq<string>, x: string, k: nat)
    requires k <= |s| && x in s[..k]
    ensures FirstIndex(s, x) < k
  {
    var r := FirstIndex(s, x);
    var j :| 0 <= j < k && s[..k][j] == x;
    assert s[j] == x;
    assert forall i :: 0 <= i < r ==> s[..r][i] == s[i];
  }

  lemma FirstIndexAt(s: seq<string>, k: nat)
    requires k < |s| && s[k] !in s[..k]
    ensures FirstIndex(s, s[k]) == k
  {
    var r := FirstIndex(s, s[k]);
    assert forall i :: 0 <= i < k ==> s[..k][i] == s[i];
    assert forall i :: 0 <= i < r ==> s[..r][i] == s[i];
  }

  /** The loop at the top of the method list: keep the first occurrence of
      every name that contains a dot, in the order the names were matched. */
  method Dedupe(matches: seq<string>) returns (methods: seq<string>)
    ensures forall m :: m in methods <==> m in matches && '.' in m
    ensures Distinct(methods)
    ensures forall i, j :: 0 <= i < j < |methods| ==>
              FirstIndex(matches, methods[i]) < FirstIndex(matches, methods[j])
  {
    methods := [];
    var k := 0;
    while k < |matches|
      invariant 0 <= k <= |matches|
      invariant forall m :: m in methods <==> m in matches[..k] && '.' in m
      invariant Distinct(methods)
      invariant forall i :: 0 <= i < |methods| ==> methods[i] in matches && FirstIndex(matches, methods[i]) < k
      invariant forall i, j :: 0 <= i < j < |methods| ==>
                  FirstIndex(matches, methods[i]) < FirstIndex(matches, methods[j])
    {
      var name := matches[k];
      assert matches[..k + 1] == matches[..k] + [name];
      if name !in methods && '.' in name {
        assert name !in matches[..k];
        FirstIndexAt(matches, k);
        methods := methods + [name];
      }
      k := k + 1;
    }
    assert matches[..k] == matches;
  }

  /** One step of insertion sort. */
  function Insert(x: string, s: seq<string>): (r: seq<string>)
    ensures multiset(r) == multiset(s) + multiset{x}
  {
    if |s| == 0 then [x]
    else if LessEq(x, s[0]) then [x] + s
    else
      assert s == [s[0]] + s[1..];
      [s[0]] + Insert(x, s[1..])
  }

  /** The sorted list: an insertion sort, standing for the built-in sort. */
  function Sort(s: seq<string>): (r: seq<string>)
    ensures multiset(r) == multiset(s)
  {
    if |s| == 0 then []
    else
      assert s == [s[0]] + s[1..];
      assert multiset(s) == multiset{s[0]} + multiset(s[1..]);
      Insert(s[0], Sort(s[1..]))
  }

  lemma {:induction false} InsertSorted(x: string, s: seq<string>)
    requires Sorted(s)
    ensures Sorted(Insert(x, s))
  {
    if |s| > 0 && !LessEq(x, s[0]) {
      LessEqTotal(x, s[0]);
      InsertSorted(x, s[1..]);
      var rest := Insert(x, s[1..]);
      forall j | 0 <= j < |rest|
        ensures LessEq(s[0], rest[j])
      {
        assert rest[j] in multiset(rest);
        if rest[j] != x {
          assert rest[j] in multiset(s[1..]);
          var k :| 0 <= k < |s[1..]| && s[1..][k] == rest[j];
          assert s[k + 1] == rest[j];
        }
      }
    } else if |s| > 0 {
      forall i, j | 0 <= i < j < |s| + 1
        ensures LessEq(([x] + s)[i], ([x] + s)[j])
      {
        if i == 0 {
          if j > 1 {
            LessEqTransitive(x, s[0], s[j - 1]);
          }
        }
      }
    }
  }

  lemma {:induction false} InsertDistinct(x: string, s: seq<string>)
    requires Distinct(s) && x !in s
    ensures Distinct(Insert(x, s))
  {
    if |s| > 0 && !LessEq(x, s[0]) {
      InsertDistinct(x, s[1..]);
      var rest := Insert(x, s[1..]);
      forall j | 0 <= j < |rest|
        ensures rest[j] != s[0]
      {
        assert rest[j] in multiset(rest);
        if rest[j] != x {
          assert rest[j] in multiset(s[1..]);
        }
      }
    }
  }

  /** The sort orders the list and keeps its elements. */
  lemma {:induction false} SortSorted(s: seq<string>)
    ensures Sorted(Sort(s))
    ensures Distinct(s) ==> Distinct(Sort(s))
  {
    if |s| > 0 {
      SortSorted(s[1..]);
      InsertSorted(s[0], Sort(s[1..]));
      if Distinct(s) {
        assert Distinct(s[1..]);
        assert s[0] !in multiset(Sort(s[1..]));
        InsertDistinct(s[0], Sort(s[1..]));
      }
    }
  }

  /** `method.split('.')[0]`. */
  function Category(m: string): string {
    BeforeFirst(m, '.')
  }

  /** The methods of one category, in list order. */
  function Select(methods: seq<string>, c: string): (r: seq<string>)
    ensures forall x :: x in r <==> x in methods && Category(x) == c
  {
    if |methods| == 0 then []
    else
      var n := |methods| - 1;
      assert methods == methods[..n] + [methods[n]];
      Select(methods[..n], c) + (if Category(methods[n]) == c then [methods[n]] else [])
  }

  /** The grouping loop: each method appended to its category's list,
      creating the list on first sight. */
  function Group(methods: seq<string>): (categories: map<string, seq<string>>)
    ensures categories.Keys == set i | 0 <= i < |methods| :: Category(methods[i])
  {
    if |methods| == 0 then map[]
    else
      var n := |methods| - 1;
      var earlier := Group(methods[..n]);
      assert forall i :: 0 <= i < n ==> methods[..n][i] == methods[i];
      var c := Category(methods[n]);
      earlier[c := Lookup(earlier, c, []) + [methods[n]]]
  }

  /** Each category's list is exactly the methods of that category, in the
      order of the method list. */
  lemma {:induction false} GroupIsSelect(methods: seq<string>, c: string)
    ensures c in Group(methods) ==> Group(methods)[c] == Select(methods, c)
    ensures c !in Group(methods) ==> Select(methods, c) == []
  {
    if |methods| > 0 {
      var n := |methods| - 1;
      assert forall i :: 0 <= i < n ==> methods[..n][i] == methods[i];
      GroupIsSelect(methods[..n], c);
    }
  }

  /** Selecting from a sorted list gives a sorted list; from a list without
      duplicates, a list without duplicates. */
  lemma {:induction false} SelectKeepsOrder(methods: seq<string>, c: string)
    requires Sorted(methods)
    ensures Sorted(Select(methods, c))
    ensures Distinct(methods) ==> Distinct(Select(methods, c))
  {
    if |methods| > 0 {
      var n := |methods| - 1;
      var earlier := methods[..n];
      assert Sorted(earlier);
      SelectKeepsOrder(earlier, c);
      var sel := Select(earlier, c);
      forall i | 0 <= i < |sel|
        ensures LessEq(sel[i], methods[n]) && (Distinct(methods) ==> sel[i] != methods[n])
      {
        assert sel[i] in earlier;
        var k :| 0 <= k < n && earlier[k] == sel[i];
        assert methods[k] == sel[i];
      }
    }
  }

  /** Every method sits in the list of its own category and in no other. */
  lemma ExactlyOneCategory(methods: seq<string>, m: string, c: string)
    requires m in methods
    ensures Category(m) in Group(methods) && m in Group(methods)[Category(m)]
    ensures c in Group(methods) && m in Group(methods)[c] ==> c == Category(m)
  {
    GroupIsSelect(methods, Category(m));
    GroupIsSelect(methods, c);
  }

  /** The categories are exactly those of the methods: no list is created
      for a category no method has. */
  lemma GroupKeys(methods: seq<string>)
    ensures Group(methods).Keys == set m | m in methods :: Category(m)
  {
    forall c | c in Group(methods)
      ensures c in set m | m in methods :: Category(m)
    {
      var i :| 0 <= i < |methods| && Category(methods[i]) == c;
      assert methods[i] in methods;
    }
  }

  /** The whole block: the method list, its grouping and its length. */
  method Discover(matches: seq<string>) returns (methods: seq<string>, categories: map<string, seq<string>>, total: nat)
    ensures forall m :: m in methods <==> m in matches && '.' in m
    ensures Distinct(methods) && Sorted(methods)
    ensures total == |methods|
    ensures forall c :: c in categories ==>
              categories[c] == Select(methods, c) && Sorted(categories[c]) && Distinct(categories[c])
    ensures forall m :: m in methods ==> Category(m) in categories
    ensures categories.Keys == set m | m in methods :: Category(m)
  {
    var found := Dedupe(matches);
    methods := Sort(found);
    SortSorted(found);
    assert forall m :: m in methods <==> m in multiset(found);
    categories := Group(methods);
    forall c | c in categories
      ensures categories[c] == Select(methods, c) && Sorted(categories[c]) && Distinct(categories[c])
    {
      GroupIsSelect(methods, c);
      SelectKeepsOrder(methods, c);
    }
    forall m | m in methods
      ensures Category(m) in categories
    {
      ExactlyOneCategory(methods, m, Category(m));
    }
    GroupKeys(methods);
    total := |methods|;
  }
}
