/** The prize store (src/store/prize.ts): the configured prizes, the prize being drawn, and the
    "temporary prize" that the home page can add on the fly. */
module PrizeStore {

  import opened Wrappers
  import opened Entities
  import opened Lists

  /** `initialTemporaryPrize`. */
  const InitialTemporaryPrize := Prize(
    "", "", 0, false, 1, 0, Picture("-1", "", ""), SeparateCount(true, []), "", false, false, 1)

  /** The prize that `updatePrizeConfig` moves on to: the first unused prize with another id. */
  function NextPrize(prizeList: seq<Prize>, usedId: string): (r: Option<Prize>)
    ensures r.None? <==> forall j :: 0 <= j < |prizeList| ==> prizeList[j].isUsed || prizeList[j].id == usedId
    ensures r.Some? ==> !r.value.isUsed && r.value.id != usedId
    ensures r.Some? ==> exists k :: 0 <= k < |prizeList| && prizeList[k] == r.value
                                   && forall j :: 0 <= j < k ==> prizeList[j].isUsed || prizeList[j].id == usedId
  {
    Find(prizeList, (p: Prize) => !p.isUsed && p.id != usedId)
  }

  /** The prize that closing the temporary prize moves on to: the first unused prize. */
  function FirstUnusedPrize(prizeList: seq<Prize>): (r: Option<Prize>)
    ensures r.None? <==> forall j :: 0 <= j < |prizeList| ==> prizeList[j].isUsed
    ensures r.Some? ==> !r.value.isUsed
    ensures r.Some? ==> exists k :: 0 <= k < |prizeList| && prizeList[k] == r.value
                                   && forall j :: 0 <= j < k ==> prizeList[j].isUsed
  {
    Find(prizeList, (p: Prize) => !p.isUsed)
  }

  /** `getPrizeConfigById`: the first prize with that id, or `undefined`. */
  function GetPrizeConfigById(prizeList: seq<Prize>, id: string): (r: Option<Prize>)
    ensures r.None? <==> forall j :: 0 <= j < |prizeList| ==> prizeList[j].id != id
    ensures r.Some? ==> r.value.id == id && exists k :: 0 <= k < |prizeList| && prizeList[k] == r.value
                                                     && forall j :: 0 <= j < k ==> prizeList[j].id != id
  {
    Find(prizeList, (p: Prize) => p.id == id)
  }

  /** The position `findIndex` gives for id `id`, or -1. */
  function IndexOfId(prizeList: seq<Prize>, id: string): (k: int)
    ensures -1 <= k < |prizeList|
    ensures k >= 0 ==> prizeList[k].id == id && forall j :: 0 <= j < k ==> prizeList[j].id != id
    ensures k == -1 ==> forall j :: 0 <= j < |prizeList| ==> prizeList[j].id != id
  {
    FindIndex(prizeList, (p: Prize) => p.id == id)
  }

  class PrizeStore {
    var prizeList: seq<Prize>
    /** An `Option` so that the home page's `!currentPrize` guard can be stated. */
    var currentPrize: Option<Prize>
    var temporaryPrize: Prize
    /** `defaultPrizeList` and `defaultCurrentPrize` of the data file. */
    const defaultPrizeList: seq<Prize>
    const defaultCurrentPrize: Prize

    /** `initialState`. */
    constructor (defaultPrizeList: seq<Prize>, defaultCurrentPrize: Prize)
      ensures prizeList == defaultPrizeList && currentPrize == Some(defaultCurrentPrize)
      ensures temporaryPrize == InitialTemporaryPrize
      ensures this.defaultPrizeList == defaultPrizeList && this.defaultCurrentPrize == defaultCurrentPrize
    {
      this.defaultPrizeList := defaultPrizeList;
      this.defaultCurrentPrize := defaultCurrentPrize;
      prizeList := defaultPrizeList;
      currentPrize := Some(defaultCurrentPrize);
      temporaryPrize := InitialTemporaryPrize;
    }

    /** `setPrizeConfig`. */
    method SetPrizeConfig(newList: seq<Prize>)
      modifies this
      ensures prizeList == newList
      ensures currentPrize == old(currentPrize) && temporaryPrize == old(temporaryPrize)
    {
      prizeList := newList;
    }

    /** `addPrizeConfig`: append one prize. */
    method AddPrizeConfig(item: Prize)
      modifies this
      ensures prizeList == old(prizeList) + [item]
      ensures currentPrize == old(currentPrize) && temporaryPrize == old(temporaryPrize)
    {
      prizeList := prizeList + [item];
    }

    /** `deletePrizeConfig`: every prize with that id removed, the others kept in order. */
    method DeletePrizeConfig(id: string)
      modifies this
      ensures prizeList == Filter(old(prizeList), (p: Prize) => p.id != id)
      ensures forall p :: p in prizeList ==> p.id != id
      ensures currentPrize == old(currentPrize) && temporaryPrize == old(temporaryPrize)
    {
      prizeList := Filter(prizeList, (p: Prize) => p.id != id);
    }

    /** `deleteAllPrizeConfig`. */
    method DeleteAllPrizeConfig()
      modifies this
      ensures prizeList == []
      ensures currentPrize == old(currentPrize) && temporaryPrize == old(temporaryPrize)
    {
      prizeList := [];
    }

    /** `updatePrizeConfig(item)`, called after a round with the updated prize: a showing
        temporary prize takes the item; once the item is used up (and there are prizes) the
        draw moves on to the next unused prize, and a temporary prize that is still showing
        (the item itself was showing) goes back to its initial value. The prize list is never
        changed. */
    method UpdatePrizeConfig(item: Prize)
      modifies this
      ensures prizeList == old(prizeList)
      ensures !(item.isUsed && |prizeList| > 0) ==>
        currentPrize == old(currentPrize)
        && temporaryPrize == (if old(temporaryPrize).isShow then item else old(temporaryPrize))
      ensures item.isUsed && |prizeList| > 0 ==>
        currentPrize == (if NextPrize(prizeList, item.id).Some? then NextPrize(prizeList, item.id) else old(currentPrize))
        && temporaryPrize == (if old(temporaryPrize).isShow && item.isShow then InitialTemporaryPrize
                              else if old(temporaryPrize).isShow then item
                              else old(temporaryPrize))
    {
      if temporaryPrize.isShow {
        temporaryPrize := item;
      }
      if !(item.isUsed && |prizeList| > 0) {
        return;
      }
      var nextPrize := NextPrize(prizeList, item.id);
      if nextPrize.Some? {
        currentPrize := nextPrize;
      }
      if temporaryPrize.isShow {
        temporaryPrize := InitialTemporaryPrize;
      }
    }

    /** `setCurrentPrize(item)`: it becomes the current prize and replaces the first prize with
        its id; every other entry stays. */
    method SetCurrentPrize(item: Prize)
      modifies this
      ensures currentPrize == Some(item)
      ensures |prizeList| == |old(prizeList)|
      ensures forall i :: 0 <= i < |prizeList| ==>
        prizeList[i] == if i == IndexOfId(old(prizeList), item.id) then item else old(prizeList)[i]
      ensures temporaryPrize == old(temporaryPrize)
    {
      currentPrize := Some(item);
      var currentIndex := IndexOfId(prizeList, item.id);
      if currentIndex > -1 {
        prizeList := prizeList[currentIndex := item];
      }
    }

    /** `setTemporaryPrize(item)`: showing it only stores it; hiding it moves the draw to the
        first unused prize (when there is one) and resets the temporary prize. */
    method SetTemporaryPrize(item: Prize)
      modifies this
      ensures prizeList == old(prizeList)
      ensures item.isShow ==> temporaryPrize == item && currentPrize == old(currentPrize)
      ensures !item.isShow ==> (temporaryPrize == InitialTemporaryPrize
        && currentPrize == (if FirstUnusedPrize(prizeList).Some? then FirstUnusedPrize(prizeList) else old(currentPrize)))
    {
      if !item.isShow {
        var nextPrize := FirstUnusedPrize(prizeList);
        if nextPrize.Some? {
          currentPrize := nextPrize;
        }
        temporaryPrize := InitialTemporaryPrize;
        return;
      }
      temporaryPrize := item;
    }

    /** `setTemporaryPrizeValue`. */
    method SetTemporaryPrizeValue(item: Prize)
      modifies this
      ensures temporaryPrize == item
      ensures prizeList == old(prizeList) && currentPrize == old(currentPrize)
    {
      temporaryPrize := item;
    }

    /** `resetTemporaryPrize`. */
    method ResetTemporaryPrize()
      modifies this
      ensures temporaryPrize == InitialTemporaryPrize
      ensures prizeList == old(prizeList) && currentPrize == old(currentPrize)
    {
      temporaryPrize := InitialTemporaryPrize;
    }

    /** `resetDefault`: back to the initial state. */
    method ResetDefault()
      modifies this
      ensures prizeList == defaultPrizeList && currentPrize == Some(defaultCurrentPrize)
      ensures temporaryPrize == InitialTemporaryPrize
    {
      prizeList := defaultPrizeList;
      currentPrize := Some(defaultCurrentPrize);
      temporaryPrize := InitialTemporaryPrize;
    }
  }

  /** Replacing by id keeps every prize whose id differs, and the replaced slot is the first
      with that id. */
  lemma ReplacedByIdKeepsOthers(before: seq<Prize>, after: seq<Prize>, item: Prize)
    requires |after| == |before|
    requires forall i :: 0 <= i < |after| ==> after[i] == if i == IndexOfId(before, item.id) then item else before[i]
    ensures forall i :: 0 <= i < |after| && before[i].id != item.id ==> after[i] == before[i]
    ensures (exists i :: 0 <= i < |before| && before[i].id == item.id) ==> item in after
    ensures (forall i :: 0 <= i < |before| ==> before[i].id != item.id) ==> after == before
  {
    var k := IndexOfId(before, item.id);
    if k >= 0 {
      assert after[k] == item;
    }
  }
}
