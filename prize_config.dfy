/** The prize configuration page (src/pages/config/prize/prize.tsx): a local, editable copy of
    the prize list, and the prize whose sub-batches are being edited. */
module PrizeConfig {

  import opened Wrappers
  import opened Entities
  import opened Lists
  import opened PrizeStore

  /** The prize `addPrize` appends; `id` is the clock value `new Date().getTime().toString()`. */
  function DefaultPrize(id: string): (p: Prize)
    ensures p.id == id && p.name == "Awards" && p.count == 1 && p.isUsedCount == 0
    ensures !p.isUsed && p.isShow && !p.isAll && p.frequency == 1
    ensures p.separateCount == SeparateCount(false, [])
  {
    Prize(id, "Awards", 0, false, 1, 0, Picture("", "", ""), SeparateCount(false, []), "", true, false, 1)
  }

  /** The copy `selectPrize` opens the sub-batch editor with: nothing drawn yet, and a single
      batch of the whole count unless there are already several batches. */
  function Selected(item: Prize): (p: Prize)
    ensures p.isUsedCount == 0 && !p.isUsed
    ensures |item.separateCount.countList| > 1 ==> p.separateCount == item.separateCount
    ensures |item.separateCount.countList| <= 1 ==>
      p.separateCount == SeparateCount(true, [Separate("0", item.count, 0)])
    ensures p == item.(isUsedCount := 0, isUsed := false, separateCount := p.separateCount)
  {
    var newItem := item.(isUsedCount := 0, isUsed := false);
    if |newItem.separateCount.countList| > 1 then newItem
    else newItem.(separateCount := SeparateCount(true, [Separate("0", item.count, 0)]))
  }

  /** The entry `changePrizeStatus` writes for the prize clicked: used state flipped, drawn
      count all or nothing to match, batches emptied. */
  function StatusChanged(prize: Prize): (p: Prize)
    ensures p.isUsed == !prize.isUsed
    ensures p.isUsedCount == if p.isUsed then prize.count else 0
    ensures p.separateCount == prize.separateCount.(countList := [])
    ensures p == prize.(isUsed := p.isUsed, isUsedCount := p.isUsedCount, separateCount := p.separateCount)
  {
    prize.(isUsedCount := if !prize.isUsed then prize.count else 0,
           separateCount := prize.separateCount.(countList := []),
           isUsed := !prize.isUsed)
  }

  /** Changing the status twice restores the used flag and leaves the drawn count matching it. */
  lemma StatusChangedTwice(prize: Prize)
    ensures StatusChanged(StatusChanged(prize)).isUsed == prize.isUsed
    ensures StatusChanged(StatusChanged(prize)).isUsedCount == if prize.isUsed then prize.count else 0
    ensures StatusChanged(StatusChanged(prize)).separateCount.countList == []
  {
  }

  /** `prizeList.map(...)` of `changePrizeStatus`: every prize with the clicked id changed, the
      others as they were. */
  function ChangeStatusAll(prizeList: seq<Prize>, id: string): (r: seq<Prize>)
    ensures |r| == |prizeList|
    ensures forall i :: 0 <= i < |r| ==>
      r[i] == if prizeList[i].id == id then StatusChanged(prizeList[i]) else prizeList[i]
  {
    seq(|prizeList|, i requires 0 <= i < |prizeList| =>
      if prizeList[i].id == id then StatusChanged(prizeList[i]) else prizeList[i])
  }

  /** The entry `changePrizePerson` leaves behind: no batches, and a drawn count that agrees
      with the used flag. */
  function PersonChanged(prize: Prize): (p: Prize)
    ensures p.separateCount.countList == [] && p.separateCount.enable == prize.separateCount.enable
    ensures p.isUsedCount == if prize.isUsed then prize.count else 0
    ensures p == prize.(isUsedCount := p.isUsedCount, separateCount := p.separateCount)
  {
    prize.(separateCount := prize.separateCount.(countList := []),
           isUsedCount := if prize.isUsed then prize.count else 0)
  }

  /** The two entries at `i` and `j` exchanged. */
  function Swapped(list: seq<Prize>, i: int, j: int): (r: seq<Prize>)
    requires 0 <= i < |list| && 0 <= j < |list|
    ensures |r| == |list| && r[i] == list[j] && r[j] == list[i]
    ensures forall k :: 0 <= k < |list| && k != i && k != j ==> r[k] == list[k]
  {
    list[i := list[j]][j := list[i]]
  }

  lemma SwappedPermutes(list: seq<Prize>, i: int, j: int)
    requires 0 <= i < |list| && 0 <= j < |list|
    ensures multiset(Swapped(list, i, j)) == multiset(list)
  {
    var t := list[i := list[j]];
    assert multiset(t) == multiset(list) - multiset{list[i]} + multiset{list[j]};
    assert t[j := list[i]] == Swapped(list, i, j);
    assert multiset(t[j := list[i]]) == multiset(t) - multiset{t[j]} + multiset{list[i]};
  }

  /** The list `sort(item, direction)` produces, given the clicked prize's position: direction
      1 moves it up one place, direction 0 down one place, and the first (last) entry stays. */
  function Moved(list: seq<Prize>, index: int, direction: int): (r: seq<Prize>)
    requires 0 <= index < |list|
    ensures multiset(r) == multiset(list) && |r| == |list|
    ensures direction == 1 && index > 0 ==> r == Swapped(list, index, index - 1)
    ensures direction == 0 && index < |list| - 1 ==> r == Swapped(list, index, index + 1)
    ensures !(direction == 1 && index > 0) && !(direction == 0 && index < |list| - 1) ==> r == list
  {
    if direction == 1 && index > 0 then
      SwappedPermutes(list, index, index - 1);
      Swapped(list, index, index - 1)
    else if direction == 0 && index < |list| - 1 then
      SwappedPermutes(list, index, index + 1);
      Swapped(list, index, index + 1)
    else
      list
  }

  predicate DistinctIds(list: seq<Prize>)
  {
    forall a, b :: 0 <= a < b < |list| ==> list[a].id != list[b].id
  }

  /** With distinct ids, a prize is found at its own position. */
  lemma IndexOfDistinct(list: seq<Prize>, k: int)
    requires DistinctIds(list) && 0 <= k < |list|
    ensures IndexOfId(list, list[k].id) == k
  {
    var i := IndexOfId(list, list[k].id);
    assert i >= 0 && list[i].id == list[k].id;
  }

  /** Exchanging two entries twice gives the list back. */
  lemma SwappedTwice(list: seq<Prize>, i: int, j: int)
    requires 0 <= i < |list| && 0 <= j < |list|
    ensures Swapped(Swapped(list, i, j), j, i) == list
  {
    var back := Swapped(Swapped(list, i, j), j, i);
    forall k | 0 <= k < |list| ensures back[k] == list[k] {
    }
  }

  /** Exchanging two entries keeps the ids distinct. */
  lemma SwappedDistinct(list: seq<Prize>, i: int, j: int)
    requires DistinctIds(list) && 0 <= i < |list| && 0 <= j < |list|
    ensures DistinctIds(Swapped(list, i, j))
  {
    var r := Swapped(list, i, j);
    forall a, b | 0 <= a < b < |r| ensures r[a].id != r[b].id {
      var a' := if a == i then j else if a == j then i else a;
      var b' := if b == i then j else if b == j then i else b;
      assert r[a] == list[a'] && r[b] == list[b'] && a' != b';
    }
  }

  /** With distinct ids, moving a prize up and then down again gives the list back. */
  lemma MoveUpThenDown(list: seq<Prize>, index: int)
    requires DistinctIds(list)
    requires 0 < index < |list|
    ensures var up := Moved(list, IndexOfId(list, list[index].id), 1);
      Moved(up, IndexOfId(up, list[index].id), 0) == list
  {
    IndexOfDistinct(list, index);
    var up := Swapped(list, index, index - 1);
    assert Moved(list, index, 1) == up;
    SwappedDistinct(list, index, index - 1);
    IndexOfDistinct(up, index - 1);
    assert up[index - 1] == list[index];
    assert Moved(up, index - 1, 0) == Swapped(up, index - 1, index);
    SwappedTwice(list, index, index - 1);
  }

  class PrizeConfigPage {
    /** The page's editable prize list (`useState(prizeConfig.prizeList)`). */
    var prizeList: seq<Prize>
    /** The prize whose sub-batches the editor shows. */
    var selectedPrize: Option<Prize>

    constructor (storePrizeList: seq<Prize>)
      ensures prizeList == storePrizeList && selectedPrize == None
    {
      prizeList := storePrizeList;
      selectedPrize := None;
    }

    /** `addPrize`: the default prize appended. */
    method AddPrize(now: string)
      modifies this
      ensures prizeList == old(prizeList) + [DefaultPrize(now)]
      ensures selectedPrize == old(selectedPrize)
    {
      prizeList := prizeList + [DefaultPrize(now)];
    }

    /** `selectPrize`: the editor opens on the prepared copy; the list is untouched. */
    method SelectPrize(item: Prize)
      modifies this
      ensures selectedPrize == Some(Selected(item)) && prizeList == old(prizeList)
    {
      var newItem := item.(isUsedCount := 0, isUsed := false);
      if |newItem.separateCount.countList| > 1 {
        selectedPrize := Some(newItem);
        return;
      }
      newItem := newItem.(separateCount := SeparateCount(true, [Separate("0", item.count, 0)]));
      selectedPrize := Some(newItem);
    }

    /** The editor's submit: it closes. */
    method SubmitSeparate()
      modifies this
      ensures selectedPrize == None && prizeList == old(prizeList)
    {
      selectedPrize := None;
    }

    method ChangePrizeStatus(item: Prize)
      modifies this
      ensures prizeList == ChangeStatusAll(old(prizeList), item.id)
      ensures selectedPrize == old(selectedPrize)
    {
      prizeList := ChangeStatusAll(prizeList, item.id);
    }

    /** `changePrizePerson`: search for the first prize with the id, breaking out of the loop,
        and rewrite that entry in place. */
    method ChangePrizePerson(item: Prize)
      modifies this
      ensures var k := IndexOfId(old(prizeList), item.id);
        prizeList == if k > -1 then old(prizeList)[k := PersonChanged(old(prizeList)[k])] else old(prizeList)
      ensures selectedPrize == old(selectedPrize)
    {
      var indexPrize := -1;
      var i := 0;
      while i < |prizeList|
        invariant 0 <= i <= |prizeList|
        invariant forall j :: 0 <= j < i ==> prizeList[j].id != item.id
        invariant indexPrize == -1
      {
        if prizeList[i].id == item.id {
          indexPrize := i;
          break;
        }
        i := i + 1;
      }
      assert indexPrize == IndexOfId(prizeList, item.id);
      if indexPrize > -1 {
        var p := prizeList[indexPrize];
        p := p.(separateCount := p.separateCount.(countList := []));
        p := p.(isUsedCount := if p.isUsed then p.count else 0);
        prizeList := prizeList[indexPrize := p];
      }
    }

    /** `sort(item, direction)` on the clicked (hence listed) prize. */
    method Sort(item: Prize, direction: int)
      requires exists k :: 0 <= k < |prizeList| && prizeList[k].id == item.id
      modifies this
      ensures prizeList == Moved(old(prizeList), IndexOfId(old(prizeList), item.id), direction)
      ensures selectedPrize == old(selectedPrize)
    {
      var index := IndexOfId(prizeList, item.id);
      var newList := prizeList;
      if direction == 1 && index > 0 {
        newList := newList[index := prizeList[index - 1]][index - 1 := prizeList[index]];
      } else if direction == 0 && index < |prizeList| - 1 {
        newList := newList[index := prizeList[index + 1]][index + 1 := prizeList[index]];
      }
      prizeList := newList;
    }

    /** The delete button: every prize with the clicked id removed, the rest in order. */
    method DeletePrize(item: Prize)
      modifies this
      ensures prizeList == Filter(old(prizeList), (p: Prize) => p.id != item.id)
      ensures selectedPrize == old(selectedPrize)
    {
      prizeList := Filter(prizeList, (p: Prize) => p.id != item.id);
    }
  }

  /** `changePrizeStatus` touches only the prizes with the clicked id and keeps the order. */
  lemma ChangeStatusOthers(prizeList: seq<Prize>, id: string)
    ensures forall i :: 0 <= i < |prizeList| && prizeList[i].id != id ==> ChangeStatusAll(prizeList, id)[i] == prizeList[i]
    ensures forall i :: 0 <= i < |prizeList| ==> ChangeStatusAll(prizeList, id)[i].id == prizeList[i].id
  {
  }
}
