/** The pattern editor of the global settings page (src/pages/config/global/pattern-setting.tsx):
    a grid of `rowCount * 7` numbered cells; clicking a cell toggles its number in the pattern
    list, which is then handed to the change callback. */
module PatternSetting {

  import opened Wrappers

  /** `list.indexOf(item)`: the first position holding `item`, or -1. */
  function IndexOf(list: seq<int>, item: int): (k: int)
    ensures -1 <= k < |list|
    ensures k >= 0 ==> list[k] == item && forall j :: 0 <= j < k ==> list[j] != item
    ensures k == -1 <==> item !in list
  {
    if list == [] then -1
    else if list[0] == item then 0
    else
      var k := IndexOf(list[1..], item);
      if k == -1 then -1 else k + 1
  }

  /** The list `updatePatternList` hands on: the first occurrence removed when present, the
      item appended otherwise. Toggling takes out exactly one copy of a present number and adds
      one copy of an absent one. */
  function Toggled(list: seq<int>, item: int): (r: seq<int>)
    ensures item in list ==> multiset(r) == multiset(list) - multiset{item}
    ensures item !in list ==> multiset(r) == multiset(list) + multiset{item}
  {
    if item in list then
      var index := IndexOf(list, item);
      assert list == list[..index] + [item] + list[index + 1..];
      list[..index] + list[index + 1..]
    else
      list + [item]
  }

  /** `updatePatternList(event, item)`: copy the list, then `splice` or `push` the copy. The
      input list is a value here, so it cannot be changed: the callback receives `newPatternList`. */
  method UpdatePatternList(patternList: seq<int>, item: int) returns (newPatternList: seq<int>)
    ensures newPatternList == Toggled(patternList, item)
  {
    newPatternList := patternList;
    var index := -1;
    var i := 0;
    while i < |newPatternList| && index == -1
      invariant 0 <= i <= |newPatternList|
      invariant index == -1 ==> forall j :: 0 <= j < i ==> newPatternList[j] != item
      invariant index != -1 ==> index == IndexOf(newPatternList, item)
    {
      if newPatternList[i] == item {
        index := i;
      }
      i := i + 1;
    }
    if index != -1 {
      newPatternList := newPatternList[..index] + newPatternList[index + 1..];
    } else {
      newPatternList := newPatternList + [item];
    }
  }

  /** Every other number is in the new list exactly when it was in the old one. */
  lemma ToggledKeepsOthers(list: seq<int>, item: int, other: int)
    requires other != item
    ensures other in Toggled(list, item) <==> other in list
  {
    assert other in multiset(Toggled(list, item)) <==> other in multiset(list);
  }

  /** For a list without repeats (what clicking alone produces), the clicked number's
      membership flips and the list stays free of repeats. */
  lemma ToggledFlips(list: seq<int>, item: int)
    requires forall i, j :: 0 <= i < j < |list| ==> list[i] != list[j]
    ensures item in Toggled(list, item) <==> item !in list
    ensures var t := Toggled(list, item); forall i, j :: 0 <= i < j < |t| ==> t[i] != t[j]
  {
    var t := Toggled(list, item);
    if item in list {
      assert multiset(list)[item] == 1 by {
        var index := IndexOf(list, item);
        NoRepeatsCount(list, index);
      }
      assert item !in multiset(t);
      forall i, j | 0 <= i < j < |t| ensures t[i] != t[j] {
        var index := IndexOf(list, item);
        var a := if i < index then i else i + 1;
        var b := if j < index then j else j + 1;
        assert t[i] == list[a] && t[j] == list[b];
      }
    }
  }

  /** In a list without repeats a number present at `k` occurs exactly once. */
  lemma {:induction false} NoRepeatsCount(list: seq<int>, k: int)
    requires forall i, j :: 0 <= i < j < |list| ==> list[i] != list[j]
    requires 0 <= k < |list|
    ensures multiset(list)[list[k]] == 1
  {
    var x := list[k];
    assert list == list[..k] + [x] + list[k + 1..];
    assert x !in list[..k] by {
      forall j | 0 <= j < k ensures list[..k][j] != x { }
    }
    var after := list[k + 1..];
    assert x !in after by {
      forall j | 0 <= j < |after| ensures after[j] != x {
        assert after[j] == list[k + 1 + j];
      }
    }
    assert multiset(list[..k])[x] == 0;
    assert multiset(after)[x] == 0;
  }

  /** Clicking a number that is not in the list and then clicking it again gives the list
      back. */
  lemma ToggleTwice(list: seq<int>, item: int)
    requires item !in list
    ensures Toggled(Toggled(list, item), item) == list
  {
    var t := list + [item];
    var index := IndexOf(t, item);
    assert t[|list|] == item;
    assert index == |list|;
    assert t[..index] == list;
  }

  /** A cell of the grid: its number (the `key`) and whether it shows the pattern colour. */
  datatype Cell = Cell(number: int, highlighted: bool)

  /** `[...Array(rowCount * 7)].map((_, index) => ...)`: `Array` of a negative length throws a
      `RangeError`. */
  function Cells(rowCount: int, patternList: seq<int>): (r: Result<seq<Cell>>)
    ensures r.Err? <==> rowCount * 7 < 0
    ensures r.Ok? ==> |r.value| == rowCount * 7
  {
    if rowCount * 7 < 0 then Err("RangeError")
    else Ok(seq(rowCount * 7, index requires 0 <= index < rowCount * 7 =>
                Cell(index + 1, index + 1 in patternList)))
  }

  /** The cells are numbered 1 to `rowCount * 7` in order, and a cell is highlighted exactly
      when its number is in the pattern list. */
  lemma CellsNumbering(rowCount: int, patternList: seq<int>, n: int)
    requires rowCount >= 0
    ensures Cells(rowCount, patternList).Ok?
    ensures var cells := Cells(rowCount, patternList).value;
      (forall i :: 0 <= i < |cells| ==> cells[i].number == i + 1)
      && ((exists i :: 0 <= i < |cells| && cells[i].number == n) <==> 1 <= n <= rowCount * 7)
      && forall i :: 0 <= i < |cells| ==> (cells[i].highlighted <==> cells[i].number in patternList)
  {
    var cells := Cells(rowCount, patternList).value;
    if 1 <= n <= rowCount * 7 {
      assert cells[n - 1].number == n;
    }
  }
}
