/** The sub-batch editor of a prize (src/components/number-separate.tsx). The prize's `count`
    winners are laid out as the numbers 1..totalNumber; the user toggles cut points on them
    (`scaleList`), and consecutive cut points delimit the sub-batches ("single draws"). One
    effect turns cut points into sub-batches, the other turns a prize's sub-batches back into
    cut points. */
module NumberSeparate {

  import opened Wrappers
  import opened Entities
  import opened Strings

  // ---------------------------------------------------------------------------------------
  // editScale

  predicate Sorted(s: seq<int>)
  {
    forall i, j :: 0 <= i < j < |s| ==> s[i] <= s[j]
  }

  predicate StrictlySorted(s: seq<int>)
  {
    forall i, j :: 0 <= i < j < |s| ==> s[i] < s[j]
  }

  /** The tail of an ascending list is ascending. */
  lemma TailSorted(s: seq<int>)
    requires Sorted(s) && s != []
    ensures Sorted(s[1..])
  {
    forall x, y | 0 <= x < y < |s| - 1 ensures s[1..][x] <= s[1..][y] {
      assert s[x + 1] <= s[y + 1];
    }
  }

  /** Putting a lower bound of an ascending list in front keeps it ascending. */
  lemma ConsSorted(h: int, t: seq<int>)
    requires Sorted(t) && forall k :: 0 <= k < |t| ==> h <= t[k]
    ensures Sorted([h] + t)
  {
    var r := [h] + t;
    forall x, y | 0 <= x < y < |r| ensures r[x] <= r[y] {
      if x > 0 {
        assert r[x] == t[x - 1] && r[y] == t[y - 1];
      } else {
        assert r[y] == t[y - 1];
      }
    }
  }

  /** The step of `Insert` past a smaller head. */
  lemma InsertStep(s: seq<int>, x: int, rest: seq<int>)
    requires Sorted(s) && s != [] && s[0] < x
    requires Sorted(rest) && multiset(rest) == multiset(s[1..]) + multiset{x}
    ensures Sorted([s[0]] + rest) && multiset([s[0]] + rest) == multiset(s) + multiset{x}
  {
    forall k | 0 <= k < |rest| ensures s[0] <= rest[k] {
      assert rest[k] in multiset(rest);
      if rest[k] != x {
        assert rest[k] in multiset(s[1..]);
        var j :| 0 <= j < |s[1..]| && s[1..][j] == rest[k];
        assert s[0] <= s[j + 1];
      }
    }
    ConsSorted(s[0], rest);
    assert s == [s[0]] + s[1..];
  }

  /** Insert `x` into an ascending list before the first larger-or-equal element. */
  function Insert(s: seq<int>, x: int): (r: seq<int>)
    requires Sorted(s)
    ensures Sorted(r) && multiset(r) == multiset(s) + multiset{x}
  {
    if s == [] then [x]
    else if x <= s[0] then
      ConsSorted(x, s);
      [x] + s
    else
      TailSorted(s);
      var rest := Insert(s[1..], x);
      InsertStep(s, x, rest);
      [s[0]] + rest
  }

  /** `Array.prototype.sort((a, b) => a - b)`: the ascending permutation of `s`. */
  function SortAsc(s: seq<int>): (r: seq<int>)
    ensures Sorted(r) && multiset(r) == multiset(s)
  {
    if s == [] then []
    else
      assert s == s[..|s| - 1] + [s[|s| - 1]];
      Insert(SortAsc(s[..|s| - 1]), s[|s| - 1])
  }

  /** The position of the first occurrence of `x` in `s`. */
  function FirstIndex(s: seq<int>, x: int): (i: nat)
    requires x in s
    ensures i < |s| && s[i] == x && x !in s[..i]
  {
    if s[0] == x then 0 else FirstIndex(s[1..], x) + 1
  }

  /** `editScale(item)` as the updater it passes to `setScaleList`: the cut at `totalNumber` is
      fixed; another cut point is removed (its first occurrence, by `indexOf` and `splice`)
      when present, otherwise added and the list sorted ascending. */
  function EditScale(scaleList: seq<int>, item: int, totalNumber: int): (r: seq<int>)
    ensures item == totalNumber ==> r == scaleList
    ensures item != totalNumber && item in scaleList ==>
      var i := FirstIndex(scaleList, item); r == scaleList[..i] + scaleList[i + 1..]
    ensures item != totalNumber && item !in scaleList ==>
      Sorted(r) && multiset(r) == multiset(scaleList) + multiset{item}
  {
    if item == totalNumber then scaleList
    else if item in scaleList then
      var index := FirstIndex(scaleList, item);
      scaleList[..index] + scaleList[index + 1..]
    else SortAsc(scaleList + [item])
  }

  /** Removing an element keeps a list ascending. */
  lemma RemoveKeepsSorted(s: seq<int>, i: nat)
    requires Sorted(s) && i < |s|
    ensures Sorted(s[..i] + s[i + 1..])
  {
    var r := s[..i] + s[i + 1..];
    forall a, b | 0 <= a < b < |r| ensures r[a] <= r[b] {
      var a' := if a < i then a else a + 1;
      var b' := if b < i then b else b + 1;
      assert r[a] == s[a'] && r[b] == s[b'];
    }
  }

  /** Two ascending lists with the same elements start with the same, least, element. */
  lemma SameHead(a: seq<int>, b: seq<int>)
    requires Sorted(a) && Sorted(b) && multiset(a) == multiset(b) && a != []
    ensures b != [] && a[0] == b[0]
  {
    assert a[0] in multiset(b);
    var i :| 0 <= i < |b| && b[i] == a[0];
    assert b[0] in multiset(a);
    var j :| 0 <= j < |a| && a[j] == b[0];
    assert a[0] <= a[j] && b[0] <= b[i];
  }

  /** Lists with the same elements and the same head have tails with the same elements. */
  lemma TailMultiset(a: seq<int>, b: seq<int>)
    requires a != [] && b != [] && a[0] == b[0] && multiset(a) == multiset(b)
    ensures multiset(a[1..]) == multiset(b[1..])
  {
    assert a == [a[0]] + a[1..];
    assert b == [b[0]] + b[1..];
    assert multiset(a[1..]) == multiset(a) - multiset{a[0]};
    assert multiset(b[1..]) == multiset(b) - multiset{b[0]};
  }

  /** Two ascending lists with the same elements are equal: the sorted order is unique. */
  lemma {:induction false} SortedUnique(a: seq<int>, b: seq<int>)
    requires Sorted(a) && Sorted(b) && multiset(a) == multiset(b)
    ensures a == b
    decreases |a|
  {
    if a == [] {
      assert |multiset(b)| == |b|;
    } else {
      SameHead(a, b);
      TailMultiset(a, b);
      TailSorted(a);
      TailSorted(b);
      SortedUnique(a[1..], b[1..]);
      assert a == [a[0]] + a[1..];
      assert b == [b[0]] + b[1..];
    }
  }

  /** The cut list stays ascending under every edit. */
  lemma {:induction false} EditScaleKeepsSorted(scaleList: seq<int>, item: int, totalNumber: int)
    requires Sorted(scaleList)
    ensures Sorted(EditScale(scaleList, item, totalNumber))
  {
    if item != totalNumber && item in scaleList {
      RemoveKeepsSorted(scaleList, FirstIndex(scaleList, item));
    }
  }

  /** On a strictly ascending cut list, editing the same point twice restores the list. */
  lemma {:induction false} EditScaleTwice(scaleList: seq<int>, item: int, totalNumber: int)
    requires StrictlySorted(scaleList) && item != totalNumber
    ensures EditScale(EditScale(scaleList, item, totalNumber), item, totalNumber) == scaleList
  {
    if item in scaleList {
      RemoveThenAdd(scaleList, item, totalNumber);
    } else {
      AddThenRemove(scaleList, item, totalNumber);
    }
  }

  lemma {:induction false} RemoveThenAdd(scaleList: seq<int>, item: int, totalNumber: int)
    requires StrictlySorted(scaleList) && item != totalNumber && item in scaleList
    ensures EditScale(EditScale(scaleList, item, totalNumber), item, totalNumber) == scaleList
  {
    var i := FirstIndex(scaleList, item);
    var once := scaleList[..i] + scaleList[i + 1..];
    assert once == EditScale(scaleList, item, totalNumber);
    assert scaleList == scaleList[..i] + [item] + scaleList[i + 1..];
    assert item !in scaleList[i + 1..] by {
      forall k | i + 1 <= k < |scaleList| ensures scaleList[k] != item {
        assert scaleList[i] < scaleList[k];
      }
    }
    assert item !in once;
    assert multiset(once) + multiset{item} == multiset(scaleList);
    var twice := EditScale(once, item, totalNumber);
    assert Sorted(twice) && multiset(twice) == multiset(scaleList);
    SortedUnique(twice, scaleList);
  }

  lemma {:induction false} AddThenRemove(scaleList: seq<int>, item: int, totalNumber: int)
    requires StrictlySorted(scaleList) && item != totalNumber && item !in scaleList
    ensures EditScale(EditScale(scaleList, item, totalNumber), item, totalNumber) == scaleList
  {
    var once := EditScale(scaleList, item, totalNumber);
    StrictlySortedIsSorted(scaleList);
    assert Sorted(once) && multiset(once) == multiset(scaleList) + multiset{item};
    RemoveFromSorted(once, item, scaleList);
    var j := FirstIndex(once, item);
    assert EditScale(once, item, totalNumber) == once[..j] + once[j + 1..];
  }

  lemma StrictlySortedIsSorted(s: seq<int>)
    requires StrictlySorted(s)
    ensures Sorted(s)
  {
  }

  /** Removing the first `item` from an ascending list that holds `rest` and `item` leaves the
      ascending list `rest`. */
  lemma {:induction false} RemoveFromSorted(once: seq<int>, item: int, rest: seq<int>)
    requires Sorted(once) && Sorted(rest) && multiset(once) == multiset(rest) + multiset{item}
    ensures item in once
    ensures var j := FirstIndex(once, item); once[..j] + once[j + 1..] == rest
  {
    assert item in multiset(once);
    var j := FirstIndex(once, item);
    RemoveAtIsRest(once, j, rest);
  }

  lemma RemoveAtIsRest(once: seq<int>, j: nat, rest: seq<int>)
    requires j < |once| && Sorted(once) && Sorted(rest)
    requires multiset(once) == multiset(rest) + multiset{once[j]}
    ensures once[..j] + once[j + 1..] == rest
  {
    RemoveAtMultiset(once, j);
    AddThenTake(multiset(rest), once[j]);
    RemoveKeepsSorted(once, j);
    SortedUnique(once[..j] + once[j + 1..], rest);
  }

  lemma AddThenTake(m: multiset<int>, x: int)
    ensures (m + multiset{x}) - multiset{x} == m
  {
  }

  /** Removing the element at `j` takes exactly that element out of the multiset. */
  lemma RemoveAtMultiset(s: seq<int>, j: nat)
    requires j < |s|
    ensures multiset(s[..j] + s[j + 1..]) == multiset(s) - multiset{s[j]}
  {
    assert s == s[..j] + [s[j]] + s[j + 1..];
  }

  // ---------------------------------------------------------------------------------------
  // Cut points → sub-batches (the effect on `scaleList`)

  /** Sub-batch `i - 1` runs from cut `i - 1` to cut `i`. */
  function BatchAt(scaleList: seq<int>, i: nat): Separate
    requires 1 <= i < |scaleList|
  {
    Separate(NatToDecimal(i), scaleList[i] - scaleList[i - 1], 0)
  }

  /** Fill `newSeparatedNumber[i - 1]` for `i = 1 .. |scaleList| - 1`. */
  method BatchesFromCuts(scaleList: seq<int>) returns (batches: seq<Separate>)
    ensures |batches| == if |scaleList| <= 1 then 0 else |scaleList| - 1
    ensures forall i :: 1 <= i < |scaleList| ==> batches[i - 1] == BatchAt(scaleList, i)
  {
    if |scaleList| <= 1 {
      return [];
    }
    var newSeparatedNumber := new Separate[|scaleList| - 1](_ => Separate("", 0, 0));
    for i := 1 to |scaleList|
      invariant forall k :: 1 <= k < i ==> newSeparatedNumber[k - 1] == BatchAt(scaleList, k)
    {
      newSeparatedNumber[i - 1] := Separate(NatToDecimal(i), scaleList[i] - scaleList[i - 1], 0);
    }
    batches := newSeparatedNumber[..];
  }

  /** The number of winners the sub-batches award together. */
  function SumCounts(batches: seq<Separate>): int
  {
    if batches == [] then 0 else batches[0].count + SumCounts(batches[1..])
  }

  /** The sub-batches described by a cut list: the specification of `BatchesFromCuts`. */
  function Batches(scaleList: seq<int>): (r: seq<Separate>)
    ensures |r| == if |scaleList| <= 1 then 0 else |scaleList| - 1
  {
    if |scaleList| <= 1 then [] else seq(|scaleList| - 1, k requires 0 <= k < |scaleList| - 1 => BatchAt(scaleList, k + 1))
  }

  lemma BatchesFromCutsIsBatches(scaleList: seq<int>, batches: seq<Separate>)
    requires |batches| == if |scaleList| <= 1 then 0 else |scaleList| - 1
    requires forall i :: 1 <= i < |scaleList| ==> batches[i - 1] == BatchAt(scaleList, i)
    ensures batches == Batches(scaleList)
  {
    if |scaleList| > 1 {
      forall k | 0 <= k < |batches| ensures batches[k] == Batches(scaleList)[k] {
        assert batches[(k + 1) - 1] == BatchAt(scaleList, k + 1);
      }
    }
  }

  /** Telescoping: the sub-batches of a cut list award last cut minus first cut winners. */
  lemma {:induction false} SumOfBatches(scaleList: seq<int>)
    requires |scaleList| >= 1
    ensures SumCounts(Batches(scaleList)) == scaleList[|scaleList| - 1] - scaleList[0]
    decreases |scaleList|
  {
    if |scaleList| > 1 {
      var tail := scaleList[1..];
      SumOfBatches(tail);
      var b := Batches(scaleList);
      assert b[0].count == scaleList[1] - scaleList[0];
      assert SumCounts(b[1..]) == SumCounts(Batches(tail)) by {
        forall k | 0 <= k < |b| - 1 ensures b[1..][k].count == Batches(tail)[k].count {
        }
        SumCountsOfEqualCounts(b[1..], Batches(tail));
      }
    }
  }

  /** Ids aside, sub-batches of a suffix of the cut list are a suffix of the sub-batches. This
      lemma states the count part of it. */
  lemma {:induction false} SumCountsOfEqualCounts(a: seq<Separate>, b: seq<Separate>)
    requires |a| == |b| && forall k :: 0 <= k < |a| ==> a[k].count == b[k].count
    ensures SumCounts(a) == SumCounts(b)
  {
    if a != [] {
      SumCountsOfEqualCounts(a[1..], b[1..]);
    }
  }

  // ---------------------------------------------------------------------------------------
  // Sub-batches → cut points (the effect on `totalNumber` and `separatedNumber`)

  /** The sum of the counts of `separated[i..]`. */
  function SuffixSum(separated: seq<Separate>, i: nat): int
    requires i <= |separated|
    decreases |separated| - i
  {
    if i == |separated| then 0 else separated[i].count + SuffixSum(separated, i + 1)
  }

  /** Cut `i` lies the counts of sub-batches `i..` below `totalNumber`. */
  function Cut(separated: seq<Separate>, totalNumber: int, i: nat): int
    requires i <= |separated|
  {
    totalNumber - SuffixSum(separated, i)
  }

  /** The effect's loop over an array of `|separatedNumber| + 1` copies of `totalNumber`, going
      backwards, then the 0 it puts in front when the first cut is not 0. `None` when
      `totalNumber <= 0`: the effect returns without setting the cut list. */
  method CutsFromBatches(totalNumber: int, separatedNumber: seq<Separate>) returns (r: Option<seq<int>>)
    ensures totalNumber <= 0 <==> r.None?
    ensures r.Some? ==> var cuts := seq(|separatedNumber| + 1, i requires 0 <= i <= |separatedNumber| =>
                                          Cut(separatedNumber, totalNumber, i));
      r.value == if cuts[0] != 0 then [0] + cuts else cuts
  {
    if totalNumber <= 0 {
      return None;
    }
    var n := |separatedNumber|;
    var initialScaleList := new int[n + 1](_ => totalNumber);
    var i := n - 1;
    while i >= 0
      invariant -1 <= i < n
      invariant forall k :: i < k <= n ==> initialScaleList[k] == Cut(separatedNumber, totalNumber, k)
    {
      initialScaleList[i] := initialScaleList[i + 1] - separatedNumber[i].count;
      i := i - 1;
    }
    var cuts := initialScaleList[..];
    if cuts[0] != 0 {
      cuts := [0] + cuts;
    }
    return Some(cuts);
  }

  /** The cut list of `CutsFromBatches`, as a function. */
  function CutsOf(totalNumber: int, separatedNumber: seq<Separate>): seq<int>
  {
    var cuts := seq(|separatedNumber| + 1, i requires 0 <= i <= |separatedNumber| =>
                      Cut(separatedNumber, totalNumber, i));
    if cuts[0] != 0 then [0] + cuts else cuts
  }

  /** The last cut is `totalNumber`, and consecutive cuts differ by the sub-batch between them. */
  lemma CutsShape(totalNumber: int, separatedNumber: seq<Separate>)
    ensures var cuts := CutsOf(totalNumber, separatedNumber);
      cuts[|cuts| - 1] == totalNumber
      && (cuts[0] == 0 || |cuts| == |separatedNumber| + 1)
      && forall i :: 0 <= i < |separatedNumber| ==>
           Cut(separatedNumber, totalNumber, i) == Cut(separatedNumber, totalNumber, i + 1) - separatedNumber[i].count
  {
  }

  /** Round trip: when the sub-batches award exactly `totalNumber` winners, the cut list starts
      at 0 without a prepended point, and turning it back into sub-batches gives the same counts,
      each with nothing drawn yet. */
  lemma {:induction false} CutsBatchesRoundTrip(totalNumber: int, separatedNumber: seq<Separate>)
    requires SumCounts(separatedNumber) == totalNumber
    ensures |CutsOf(totalNumber, separatedNumber)| == |separatedNumber| + 1
    ensures var back := Batches(CutsOf(totalNumber, separatedNumber));
      |back| == |separatedNumber|
      && forall i :: 0 <= i < |back| ==> back[i].count == separatedNumber[i].count && back[i].isUsedCount == 0
  {
    SuffixSumIsSum(separatedNumber, 0);
    assert separatedNumber[0..] == separatedNumber;
    var cuts := CutsOf(totalNumber, separatedNumber);
    assert cuts[0] == 0;
  }

  lemma {:induction false} SuffixSumIsSum(separated: seq<Separate>, i: nat)
    requires i <= |separated|
    ensures SuffixSum(separated, i) == SumCounts(separated[i..])
    decreases |separated| - i
  {
    if i < |separated| {
      SuffixSumIsSum(separated, i + 1);
      assert separated[i..][1..] == separated[i + 1..];
    }
  }

  // ---------------------------------------------------------------------------------------
  // The component's state

  /** The dialog's state: the cut points and the sub-batches derived from them, which it hands
      to `onSubmitData` on close. */
  class Separator {
    var scaleList: seq<int>
    var localSeparatedNumber: seq<Separate>

    /** `useState([])` and `useState(separatedNumber)`. */
    constructor (separatedNumber: seq<Separate>)
      ensures scaleList == [] && localSeparatedNumber == separatedNumber
    {
      scaleList := [];
      localSeparatedNumber := separatedNumber;
    }

    /** A click on point `item`. */
    method Edit(item: int, totalNumber: int)
      modifies this
      ensures scaleList == EditScale(old(scaleList), item, totalNumber)
      ensures localSeparatedNumber == old(localSeparatedNumber)
    {
      scaleList := EditScale(scaleList, item, totalNumber);
    }

    /** The effect run when `scaleList` changes. */
    method SyncBatches()
      modifies this
      ensures localSeparatedNumber == Batches(scaleList) && scaleList == old(scaleList)
    {
      var batches := BatchesFromCuts(scaleList);
      BatchesFromCutsIsBatches(scaleList, batches);
      localSeparatedNumber := batches;
    }

    /** The effect run when the prize's `totalNumber` or `separatedNumber` change. */
    method SyncCuts(totalNumber: int, separatedNumber: seq<Separate>)
      modifies this
      ensures totalNumber <= 0 ==> scaleList == old(scaleList)
      ensures totalNumber > 0 ==> scaleList == CutsOf(totalNumber, separatedNumber)
      ensures localSeparatedNumber == old(localSeparatedNumber)
    {
      var cuts := CutsFromBatches(totalNumber, separatedNumber);
      if cuts.Some? {
        scaleList := cuts.value;
      }
    }

  }
}
