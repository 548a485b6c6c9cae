/** The prize panel of the home page (src/pages/home/prize-list.tsx): the temporary prize form,
    the sub-batch editor, and the choice of the first prize to draw. It acts on the prize store. */
module PrizeList {

  import opened Wrappers
  import opened Entities
  import opened Lists
  import opened PrizeStore
  import opened PrizeConfig

  /** The first prize with winners still to draw, the one the mount effect makes current. */
  function FirstOpenPrize(prizeList: seq<Prize>): (r: Option<Prize>)
    ensures r.None? <==> forall j :: 0 <= j < |prizeList| ==> prizeList[j].isUsedCount >= prizeList[j].count
    ensures r.Some? ==> r.value.isUsedCount < r.value.count
    ensures r.Some? ==> exists k :: 0 <= k < |prizeList| && prizeList[k] == r.value
                                   && forall j :: 0 <= j < k ==> prizeList[j].isUsedCount >= prizeList[j].count
  {
    Find(prizeList, (p: Prize) => p.isUsedCount < p.count)
  }

  /** The form is complete when the name is non-empty and the count is truthy (not 0). */
  predicate TemporaryPrizeComplete(temporaryPrize: Prize)
  {
    temporaryPrize.name != "" && temporaryPrize.count != 0
  }

  /** `{...temporaryPrize, isShow: true, id: Date.now().toString()}`. */
  function Submitted(temporaryPrize: Prize, now: string): (p: Prize)
    ensures p.isShow && p.id == now
    ensures p.(isShow := temporaryPrize.isShow, id := temporaryPrize.id) == temporaryPrize
  {
    temporaryPrize.(isShow := true, id := now)
  }

  /** `{...temporaryPrize, isShow: false}`. */
  function Hidden(temporaryPrize: Prize): (p: Prize)
    ensures !p.isShow && p.(isShow := temporaryPrize.isShow) == temporaryPrize
  {
    temporaryPrize.(isShow := false)
  }

  class PrizeListPanel {
    /** The prize the sub-batch editor is open on. */
    var selectedPrize: Option<Prize>

    constructor ()
      ensures selectedPrize == None
    {
      selectedPrize := None;
    }

    /** The mount effect: walk the prizes and make the first open one current, then `break`;
        nothing is set when every prize is drawn out. */
    method SetInitialCurrentPrize(store: PrizeStore)
      modifies store
      ensures FirstOpenPrize(old(store.prizeList)).None? ==>
        store.prizeList == old(store.prizeList) && store.currentPrize == old(store.currentPrize)
      ensures FirstOpenPrize(old(store.prizeList)).Some? ==>
        var item := FirstOpenPrize(old(store.prizeList)).value;
        store.currentPrize == Some(item)
        && |store.prizeList| == |old(store.prizeList)|
        && forall k :: 0 <= k < |store.prizeList| ==>
             store.prizeList[k] == if k == IndexOfId(old(store.prizeList), item.id) then item else old(store.prizeList)[k]
      ensures store.temporaryPrize == old(store.temporaryPrize)
    {
      var prizeList := store.prizeList;
      var i := 0;
      while i < |prizeList|
        invariant 0 <= i <= |prizeList|
        invariant forall j :: 0 <= j < i ==> prizeList[j].isUsedCount >= prizeList[j].count
        invariant store.prizeList == prizeList && store.currentPrize == old(store.currentPrize)
        invariant store.temporaryPrize == old(store.temporaryPrize)
      {
        var prizeItem := prizeList[i];
        if prizeItem.isUsedCount < prizeItem.count {
          assert FirstOpenPrize(prizeList) == Some(prizeItem) by {
            var k := FindIndex(prizeList, (p: Prize) => p.isUsedCount < p.count);
            assert k == i;
          }
          store.SetCurrentPrize(prizeItem);
          break;
        }
        i := i + 1;
      }
    }

    /** `deleteTemporaryPrize`: the temporary prize handed back with only `isShow` cleared,
        which makes the store close it. */
    method DeleteTemporaryPrize(store: PrizeStore)
      modifies store
      ensures store.prizeList == old(store.prizeList)
      ensures store.temporaryPrize == InitialTemporaryPrize
      ensures store.currentPrize ==
        if FirstUnusedPrize(old(store.prizeList)).Some? then FirstUnusedPrize(old(store.prizeList))
        else old(store.currentPrize)
    {
      store.SetTemporaryPrize(Hidden(store.temporaryPrize));
    }

    /** `submitTemporaryPrize`: an incomplete form only raises the alert (`alerted`) and changes
        nothing; a complete one becomes the current prize, shown, with a clock id. */
    method SubmitTemporaryPrize(store: PrizeStore, now: string) returns (alerted: bool)
      modifies store
      ensures alerted <==> !TemporaryPrizeComplete(old(store.temporaryPrize))
      ensures alerted ==> (store.prizeList == old(store.prizeList)
        && store.currentPrize == old(store.currentPrize) && store.temporaryPrize == old(store.temporaryPrize))
      ensures !alerted ==>
        var item := Submitted(old(store.temporaryPrize), now);
        store.currentPrize == Some(item)
        && store.temporaryPrize == old(store.temporaryPrize)
        && |store.prizeList| == |old(store.prizeList)|
        && forall k :: 0 <= k < |store.prizeList| ==>
             store.prizeList[k] == if k == IndexOfId(old(store.prizeList), item.id) then item else old(store.prizeList)[k]
    {
      var temporaryPrize := store.temporaryPrize;
      if temporaryPrize.name == "" || temporaryPrize.count == 0 {
        return true;
      }
      store.SetCurrentPrize(Submitted(temporaryPrize, now));
      alerted := false;
    }

    /** `selectPrize`: the editor opens on the same prepared copy as on the prize page. */
    method SelectPrize(item: Prize)
      modifies this
      ensures selectedPrize == Some(Selected(item))
    {
      var newSelectedPrize := item.(isUsedCount := 0, isUsed := false);
      if |newSelectedPrize.separateCount.countList| <= 1 {
        newSelectedPrize := newSelectedPrize.(separateCount := SeparateCount(true, [Separate("0", item.count, 0)]));
      }
      selectedPrize := Some(newSelectedPrize);
    }

    /** `submitData(value)`: the copy with the new batches is written, then overwritten by
        `null` in the same handler, so the editor closes and the batches are dropped. */
    method SubmitData(value: seq<Separate>)
      modifies this
      ensures selectedPrize == None
    {
      if selectedPrize.Some? {
        var p := selectedPrize.value;
        selectedPrize := Some(p.(separateCount := p.separateCount.(countList := value)));
      }
      selectedPrize := None;
    }
  }

  /** A prize taken from the editor as `Selected`, with a positive count, is open for drawing:
      once every prize listed before it is drawn out, the mount effect picks it. */
  lemma SelectedIsOpen(prizeList: seq<Prize>, k: nat, item: Prize)
    requires k < |prizeList| && prizeList[k] == Selected(item) && item.count > 0
    requires forall j :: 0 <= j < k ==> prizeList[j].isUsedCount >= prizeList[j].count
    ensures FirstOpenPrize(prizeList) == Some(Selected(item))
  {
    var r := FirstOpenPrize(prizeList);
    assert prizeList[k].isUsedCount < prizeList[k].count;
    var k' :| 0 <= k' < |prizeList| && prizeList[k'] == r.value
              && forall j :: 0 <= j < k' ==> prizeList[j].isUsedCount >= prizeList[j].count;
    assert k' == k;
  }
}
