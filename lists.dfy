/** `Array.prototype.filter`, `find` and `findIndex`, and the facts about them the stores rely
    on. */
module Lists {

  import opened Wrappers

  /** `s.filter(keep)`: the elements for which `keep` holds, in their order. */
  function Filter<T>(s: seq<T>, keep: T -> bool): (r: seq<T>)
    ensures |r| <= |s|
    ensures forall i :: 0 <= i < |r| ==> r[i] in s && keep(r[i])
    ensures forall i :: 0 <= i < |s| ==> keep(s[i]) ==> s[i] in r
  {
    if s == [] then []
    else if keep(s[0]) then [s[0]] + Filter(s[1..], keep)
    else Filter(s[1..], keep)
  }

  /** Filtering works piece by piece, so it keeps the relative order of what it keeps. */
  lemma {:induction false} FilterConcat<T>(a: seq<T>, b: seq<T>, keep: T -> bool)
    ensures Filter(a + b, keep) == Filter(a, keep) + Filter(b, keep)
  {
    if a != [] {
      assert (a + b)[1..] == a[1..] + b;
      FilterConcat(a[1..], b, keep);
    } else {
      assert a + b == b;
    }
  }

  /** Nothing is dropped when everything is kept. */
  lemma {:induction false} FilterKeepsAll<T>(s: seq<T>, keep: T -> bool)
    requires forall i :: 0 <= i < |s| ==> keep(s[i])
    ensures Filter(s, keep) == s
  {
    if s != [] {
      FilterKeepsAll(s[1..], keep);
    }
  }

  /** Everything is dropped when nothing is kept. */
  lemma {:induction false} FilterKeepsNone<T>(s: seq<T>, keep: T -> bool)
    requires forall i :: 0 <= i < |s| ==> !keep(s[i])
    ensures Filter(s, keep) == []
  {
    if s != [] {
      FilterKeepsNone(s[1..], keep);
    }
  }

  /** A filter and the filter on the negated test split a list between them. */
  lemma {:induction false} FilterPartition<T>(s: seq<T>, keep: T -> bool, drop: T -> bool)
    requires forall i :: 0 <= i < |s| ==> (drop(s[i]) <==> !keep(s[i]))
    ensures multiset(Filter(s, keep)) + multiset(Filter(s, drop)) == multiset(s)
    ensures |Filter(s, keep)| + |Filter(s, drop)| == |s|
  {
    if s != [] {
      FilterPartition(s[1..], keep, drop);
      assert s == [s[0]] + s[1..];
    }
  }

  /** `s.findIndex(test)`: the first position whose element passes, or -1. */
  function FindIndex<T>(s: seq<T>, test: T -> bool): (k: int)
    ensures -1 <= k < |s|
    ensures k >= 0 ==> test(s[k]) && forall j :: 0 <= j < k ==> !test(s[j])
    ensures k == -1 ==> forall j :: 0 <= j < |s| ==> !test(s[j])
  {
    if s == [] then -1
    else if test(s[0]) then 0
    else
      var k := FindIndex(s[1..], test);
      if k == -1 then -1 else k + 1
  }

  /** `s.find(test)`: the first element that passes, or `undefined`. */
  function Find<T>(s: seq<T>, test: T -> bool): (r: Option<T>)
    ensures r.None? <==> forall j :: 0 <= j < |s| ==> !test(s[j])
    ensures r.Some? ==> exists k :: 0 <= k < |s| && s[k] == r.value && test(s[k])
                                    && forall j :: 0 <= j < k ==> !test(s[j])
  {
    var k := FindIndex(s, test);
    if k == -1 then None else Some(s[k])
  }
}
