# nth-lottery, modelled in Dafny

nth-lottery is a browser lottery for company events. People are imported from a spreadsheet
and shown as cards on a table. A prize is drawn in rounds of at most ten winners: the cards
gather into a spinning sphere, the winners are picked at random from the people still
eligible, their cards fly forward, and continuing commits the round into the prize and into
every winner's record. Three stores back the pages: the person store, the prize store and the
global settings store. The settings pages edit prizes and their sub-batches, the card pattern
and the music.

This project models the bookkeeping and the layout arithmetic of that program. Each core
source file corresponds to one module:

- `home.dfy` (`Home`) is the draw page `src/pages/home/home.tsx`. It is a class `DrawPage`
  holding the page state: status, gate, winners, chosen cards and round size.
  - Its handlers are methods proved against specification functions: round size, draw,
    card choice, commit, key dispatch.
  - Animation completions are separate event methods.
- `home_util.dfy`, `home_dom.dfy` and `home_three.dfy` are the table helpers of the home page.
- `person_store.dfy`, `prize_store.dfy` and `global_store.dfy` are the stores, as classes
  whose methods update their fields.
- `number_separate.dfy` is the sub-batch editor.
- `prize_config.dfy` is the prize page; `prize_list.dfy` is the prize panel of the home page.
- `pattern_setting.dfy`, `play_music.dfy` and `config_menu.dfy` are the pattern editor, the
  music button and the settings menu.
- `person_export.dfy` is the spreadsheet export; `store_util.dfy` is `extractFields`.
- `color.dfy` is the colour functions.
- Shared modules:
  - `entities.dfy`: records;
  - `wrappers.dfy`: `Option` and `Result`;
  - `lists.dfy`: `filter`, `find`, `findIndex`;
  - `strings.dfy`: number and string primitives of JavaScript;
  - `json.dfy`: plain objects with ordered keys.

Randomness, the clock and the data file are parameters:

- A random pool index is a draw `d: nat` taken modulo the pool size. Every index is
  reachable.
- A random card index is a draw in `[0, tableLength)`.
- The time text is a string `now`.
- The default person, prize, music, image and pattern lists are constructor arguments.

Two behaviours of the draw page are modelled as written and stated as lemmas:

- Committing a round credits its count to every sub-batch still open, not only to the one
  the round was sized by (`Home.CommitCreditsEveryOpenBatch`).
- `stopLottery` chooses every winner's card against the card list captured when the round
  started. Two winners of one round can therefore get the same card
  (`Home.StaleCardsCanRepeat`).

## Model

| member | source | states |
|---|---|---|
| Home.RoundLeftover | src/pages/home/home.tsx:445-456 | the `leftover` loop computes `Leftover` |
| Home.Leftover | src/pages/home/home.tsx:445-456 | with sub-batches enabled and one of them open, a positive remainder of the first open sub-batch; otherwise `count - isUsedCount` |
| Home.Pool | src/pages/home/home.tsx:434 | a person is in the pool iff listed and, for an `isAll` prize, without this prize id, otherwise not yet a winner |
| Home.RoundSize | src/pages/home/home.tsx:459 | a round draws at most 10 and at most `leftover`, and exactly one of the two |
| Home.RoundSizeWithOpenBatch | src/pages/home/home.tsx:449-459 | with an open enabled batch, a round draws at least one person and no more than that batch still needs |
| Home.PoolIndex | src/pages/home/home.tsx:464 | the random index lies in the pool, and every index of the pool is reachable |
| Home.Removed | src/pages/home/home.tsx:466 | `splice(r, 1)` shortens the pool by one |
| Home.RemovedPermutes | src/pages/home/home.tsx:465-466 | the spliced pool plus the person taken is the pool before |
| Home.DrawnPermutes | src/pages/home/home.tsx:460-468 | sampling without replacement: winners and remaining pool together are exactly the original pool (as multisets) |
| Home.DrawnStepPermutes | src/pages/home/home.tsx:462-467 | one pass of the loop keeps the multiset of winners plus pool |
| Home.Drawn | src/pages/home/home.tsx:460-468 | the round yields as many winners as the smaller of the round size and the pool size, and the pool shrinks by that many |
| Home.Positions | src/pages/home/home.tsx:462-467 | the original positions the winners come from: as many as the smaller of `n` and the pool size, all inside the pool |
| Home.PositionsDistinct | src/pages/home/home.tsx:462-467 | since each pick is removed from the pool, no position is drawn twice |
| Home.DrawnFromPositions | src/pages/home/home.tsx:460-468 | winner `k` is the person at `Positions[k]` of the original pool, so winners come from distinct positions |
| Home.PrependLifted | src/pages/home/home.tsx:464-466 | the winner taken first, followed by the later winners moved back to positions of the earlier pool |
| Home.WinnersEligible | src/pages/home/home.tsx:434 | every winner is in the person list and has not won this prize (`isAll`) or has not won at all |
| Home.DrawWinners | src/pages/home/home.tsx:460-468 | the splice loop computes exactly the winners and remaining pool of `Drawn` |
| Home.DrawnPass | src/pages/home/home.tsx:462-467 | one pass of the splice loop leaves the winners so far plus what `Drawn` takes from the rest equal to the whole draw |
| Home.DrawRound | src/pages/home/home.tsx:445-468 | the round count is `RoundSize(prize)` and the targets are the winners drawn for it |
| Home.StaleCards | src/pages/home/home.tsx:495-497 | every winner gets a card in `[0, tableLength)` outside the captured card list, chosen by `selectCard` against that same list; `None` means some choice never ends |
| Home.StaleCardsCanRepeat | src/pages/home/home.tsx:495-497 | two winners of one round, captured list empty, can be given the same card 5 |
| Home.CommittedBatches | src/pages/home/home.tsx:547-553 | same length, ids and counts; every open batch gains `luckyCount`, the others stay |
| Home.CommittedPrize | src/pages/home/home.tsx:545-562 | `isUsedCount` grows by `luckyCount`; `isUsed` holds iff that reaches `count`; batches are credited only when enabled and listed; every other field is unchanged |
| Home.RoundUsesUpPrize | src/pages/home/home.tsx:557-562 | without batches, a round covering what is left marks the prize used, with `isUsedCount == count` |
| Home.RoundFillsFirstOpenBatch | src/pages/home/home.tsx:445-459 | a round sized by the first open batch, when that batch needs at most 10, completes that batch |
| Home.CommitCreditsEveryOpenBatch | src/pages/home/home.tsx:548-553 | batches (3,0) and (3,0) with count 6: the round of 3 fills both batches |
| Home.KeyAction | src/pages/home/home.tsx:576-605 | Escape quits iff the status is 3; Space enters, starts, stops or continues at status 0, 1, 2, 3; anything else does nothing |
| Home.KeyActionIgnoresCanOperate | src/pages/home/home.tsx:578 | the listener's own `canOperate` test never changes the dispatch |
| Home.StartCheck | src/pages/home/home.tsx:423-443 | ignored iff the gate is closed; "over" iff there is no prize or it is used; started only with an unused prize and a pool of at least `count - isUsedCount` |
| Home.StartedRoundIsFull | src/pages/home/home.tsx:436-468 | a started round sized by the remaining count draws `RoundSize` winners: the pool is large enough |
| Home.DrawPage.constructor | src/pages/home/home.tsx:44-49 | status 0, gate open, no winners, no cards, round size 10 |
| Home.DrawPage.EnterLottery | src/pages/home/home.tsx:398-420 | a closed gate changes nothing; otherwise the gate closes and the sphere transform begins |
| Home.DrawPage.TransformSettled | src/pages/home/home.tsx:248-268 | the transform ends: winners and cards cleared (when the table has cards), gate open, status 1 |
| Home.DrawPage.StartLottery | src/pages/home/home.tsx:422-480 | the outcome is `StartCheck`; unless started nothing changes; a started round sets status 2, round size `RoundSize` and the drawn winners, gate left open |
| Home.PickCards | src/pages/home/home.tsx:495-497 | the `forEach` over the winners picks exactly the cards of `StaleCards`, every choice against the list captured before the loop |
| Home.DrawPage.StopLottery | src/pages/home/home.tsx:482-540 | a closed gate changes nothing; otherwise the gate closes and, when every card choice ends, the queued updaters append the cards of `StaleCards` and the reveal is pending if there are winners |
| Home.DrawPage.RevealSettled | src/pages/home/home.tsx:526-529 | the reveal ends: gate open, status 3 |
| Home.DrawPage.ContinueLottery | src/pages/home/home.tsx:542-569 | a closed gate changes nothing; no current prize throws. Otherwise: commits `CommittedPrize` into the prize store (current prize, list slot, moving on when used up, a showing temporary prize taking the item or being reset as `updatePrizeConfig` does); records the winners in the person store; sets round size 0; enters again |
| Home.DrawPage.QuitLottery | src/pages/home/home.tsx:571-574 | enter, then status 0 |
| HomeUtil.FilterData | src/pages/home/home-util.ts:8-22 | card `i` gets column `i mod rowCount + 1`, row `i div rowCount + 1` and id `i`; nothing else changes |
| HomeUtil.GridCellsDistinct | src/pages/home/home-util.ts:11-17 | two different cards never share a grid cell |
| HomeUtil.AddOtherInfo | src/pages/home/home-util.ts:24-37 | every imported person gets id `i`, the time stamps and an empty, non-winning record |
| HomeUtil.FreshRecord | src/pages/home/home-util.ts:26-34 | uid, name, department, identity and position are kept; the id is the position in the list, both times are `now`, no win and empty prize lists |
| HomeUtil.SelectCard | src/pages/home/home-util.ts:39-50 | a chosen card is in `[0, tableLength)`, not taken, and is the first untaken draw |
| HomeUtil.SelectCardFullTable | src/pages/home/home-util.ts:45-46 | with every card taken the retry never ends |
| HomeUtil.SelectCardIgnoresPerson | src/pages/home/home-util.ts:39-50 | the person id plays no part |
| HomeUtil.InitTableData | src/pages/home/home-util.ts:53-71 | no people gives no cards; otherwise exactly `rowCount * 7` cards, card `k` being a copy of the person at `k` modulo the number of people, placed in cell `k` |
| HomeUtil.Repeat | src/pages/home/home-util.ts:62-65 | the `concat` loop yields `repeatCount` copies of the list, entry `k` being the original's entry at `k` modulo its length |
| HomeDom.GetElementPosition | src/pages/home/home-dom.ts:64-107 | `yTable` is the same in every branch, one row down per five cards; `xTable` is the slot offset, shifted by half a step for the special counts 2, 4, 7, 9 outside the first row of a larger round |
| HomeDom.SlotsMirror | src/pages/home/home-dom.ts:82-91 | slot 0 is centred, slots 1/2 and 3/4 mirror each other |
| HomeDom.ElementPositionIgnoresElement | src/pages/home/home-dom.ts:64-71 | the element and count arguments play no part |
| HomeDom.RowPositionsDistinct | src/pages/home/home-dom.ts:81-104 | for a non-negative card width, the five cards of one row get different `xTable` |
| HomeThree.CreateTableVertices | src/pages/home/home-three.ts:125-138 | one vertex per card, in order: `x*(w+40) - rowCount*90`, `-y*(h+20) + 1000`, 0 |
| HomeThree.TableVerticesDistinct | src/pages/home/home-three.ts:37-42 | cards in different cells get different vertices |
| HomeThree.PlacedCardVertex | src/pages/home/home-three.ts:131-135 | the vertex of card `k` after `filterData`, in closed form |
| PersonStore.PersonStore.constructor | src/store/person.ts:36-37 | both lists empty |
| PersonStore.PersonStore.AddNotPersonList | src/store/person.ts:39-45 | the people are appended in order; the winners are untouched |
| PersonStore.PersonStore.AddAlreadyPersonList | src/store/person.ts:47-61 | every entry gets the record `Awarded` (one entry per matching drawn person when there is a prize); every drawn person is appended to the winners |
| PersonStore.AwardedRecord | src/store/person.ts:50-58 | an entry matched `k` times gets `k` copies of prize name, time and id and becomes a winner; with no prize or no match it is unchanged |
| PersonStore.AwardedKeepsRecordAligned | src/store/person.ts:54-56 | the three record lists keep equal lengths |
| PersonStore.AwardedLeavesPool | src/store/person.ts:52-56 | a drawn person gets the prize id and is a winner, so leaves that prize's pool |
| PersonStore.PersonStore.MoveAlreadyToNot | src/store/person.ts:63-77 | as written: a falsy id (0 included) changes nothing; otherwise matching entries get an empty record and leave the winners |
| PersonStore.PersonStore.MoveById | src/store/person.ts:66-76 | matching entries get an empty record, the others stay; the winners lose every entry with that id |
| PersonStore.PersonStore.DeletePerson | src/store/person.ts:79-88 | as written: a falsy id (0 included) changes nothing; otherwise every entry with that id leaves both lists |
| PersonStore.PersonStore.DeleteById | src/store/person.ts:82-87 | every entry with that id leaves both lists, the others keep their order, and none with that id is left |
| PersonStore.FirstImportedPersonHasFalsyId | src/store/person.ts:65 | the first imported person has id 0, which the guards take for a missing id although filtering would remove that person |
| PersonStore.PersonStore.DeleteAllPerson | src/store/person.ts:90-119 | both lists empty: `deleteAllPerson`, `resetPerson`, and `reset`, whose initial state has both lists empty |
| PersonStore.PersonStore.ResetAlreadyPerson | src/store/person.ts:102-111 | every record emptied in place, the length kept, no winners left |
| PersonStore.ClearedNobodyWins | src/store/person.ts:104-109 | after the reset nobody is a winner |
| PersonStore.PersonStore.SetDefaultPersonList | src/store/person.ts:113-117 | the default list, no winners |
| PersonStore.SelectorsPartition | src/store/person.ts:139-143 | the winners and the others together are the person list, as multisets and in number |
| PersonStore.NotThisPrizePersonList | src/store/person.ts:132-137 | a person is in the pool iff listed with prize ids lacking the current prize id |
| PersonStore.AlreadyPersonList | src/store/person.ts:139-140 | a person is selected iff listed and a winner |
| PersonStore.NotPersonList | src/store/person.ts:142-143 | a person is selected iff listed and not a winner |
| PrizeStore.GetPrizeConfigById | src/store/prize.ts:147-148 | the first prize with that id, or none when no prize has it |
| PrizeStore.IndexOfId | src/store/prize.ts:106-108 | the first position with that id, or -1 when none |
| PrizeStore.NextPrize | src/store/prize.ts:86-88 | the first prize that is unused and has another id; none iff every prize is used or has that id |
| PrizeStore.FirstUnusedPrize | src/store/prize.ts:117 | the first unused prize; none iff every prize is used |
| PrizeStore.PrizeStore.constructor | src/store/prize.ts:47-53 | the default prizes and current prize, the initial temporary prize |
| PrizeStore.PrizeStore.SetPrizeConfig | src/store/prize.ts:60-63 | the list replaced, the rest unchanged |
| PrizeStore.PrizeStore.AddPrizeConfig | src/store/prize.ts:65-68 | one prize appended |
| PrizeStore.PrizeStore.DeletePrizeConfig | src/store/prize.ts:70-75 | every prize with that id removed, order kept |
| PrizeStore.PrizeStore.DeleteAllPrizeConfig | src/store/prize.ts:98-101 | the list emptied |
| PrizeStore.PrizeStore.UpdatePrizeConfig | src/store/prize.ts:77-96 | the list never changes. A showing temporary prize takes the item. Once the item is used and prizes exist: the next unused prize with another id becomes current, and a temporary prize still showing is reset |
| PrizeStore.PrizeStore.SetCurrentPrize | src/store/prize.ts:103-112 | the item is current and replaces only the first prize with its id; length kept |
| PrizeStore.ReplacedByIdKeepsOthers | src/store/prize.ts:106-111 | every prize with another id is kept; a listed id puts the item in the list; an unlisted one leaves the list as it was |
| PrizeStore.PrizeStore.SetTemporaryPrize | src/store/prize.ts:114-125 | showing only stores it; hiding moves to the first unused prize (if any) and resets the temporary prize |
| PrizeStore.PrizeStore.SetTemporaryPrizeValue | src/store/prize.ts:127-130 | the temporary prize replaced |
| PrizeStore.PrizeStore.ResetTemporaryPrize | src/store/prize.ts:132-135 | the initial temporary prize |
| PrizeStore.PrizeStore.ResetDefault | src/store/prize.ts:137 | the initial state |
| GlobalStore.InitialConfig | src/store/global.ts:63-83 | row count 17, title "NTH Lottery", the dracula theme with 140×200 cards and text 30, the default lists |
| GlobalStore.GlobalStore.constructor | src/store/global.ts:63-88 | the initial configuration and the first default track, paused |
| GlobalStore.GlobalStore.SetRowCount | src/store/global.ts:95-98 | only the row count changes |
| GlobalStore.GlobalStore.SetTopTitle | src/store/global.ts:100-103 | only the title changes |
| GlobalStore.GlobalStore.SetTheme | src/store/global.ts:105-108 | only the theme's name and detail change |
| GlobalStore.GlobalStore.SetCurrentMusic | src/store/global.ts:110-113 | the current track and its paused flag, paused by default |
| GlobalStore.GlobalStore.SetCardColor | src/store/global.ts:115-118 | only the card colour changes |
| GlobalStore.GlobalStore.SetLuckyCardColor | src/store/global.ts:120-123 | only the winner card colour changes |
| GlobalStore.GlobalStore.SetTextColor | src/store/global.ts:125-128 | only the text colour changes |
| GlobalStore.GlobalStore.SetCardSize | src/store/global.ts:130-134 | only card width and height change |
| GlobalStore.GlobalStore.SetTextSize | src/store/global.ts:136-139 | only the text size changes |
| GlobalStore.GlobalStore.SetPatternColor | src/store/global.ts:141-144 | only the pattern colour changes |
| GlobalStore.GlobalStore.SetPatternList | src/store/global.ts:146-149 | only the pattern list changes |
| GlobalStore.GlobalStore.ResetPatternList | src/store/global.ts:151-154 | the default pattern list |
| GlobalStore.GlobalStore.AddMusic | src/store/global.ts:156-159 | one track appended |
| GlobalStore.GlobalStore.RemoveMusic | src/store/global.ts:161-166 | every track with that id removed, order kept |
| GlobalStore.RemoveUndoesAddMusic | src/store/global.ts:156-166 | removing a just-added track with a new id restores the list |
| GlobalStore.RemoveMusicSplits | src/store/global.ts:161-166 | removal works piece by piece, keeping the order of the rest |
| GlobalStore.GlobalStore.ResetMusicList | src/store/global.ts:168-171 | the default tracks |
| GlobalStore.GlobalStore.ClearMusicList | src/store/global.ts:173-176 | no tracks |
| GlobalStore.GlobalStore.AddImage | src/store/global.ts:178-181 | one picture appended |
| GlobalStore.GlobalStore.RemoveImage | src/store/global.ts:183-188 | every picture with that id removed, order kept |
| GlobalStore.RemoveUndoesAddImage | src/store/global.ts:178-188 | removing a just-added picture with a new id restores the list |
| GlobalStore.GlobalStore.ResetImageList | src/store/global.ts:190-193 | the default pictures |
| GlobalStore.GlobalStore.ClearImageList | src/store/global.ts:195-198 | no pictures |
| GlobalStore.GlobalStore.SetIsShowPrizeList | src/store/global.ts:200-203 | only the prize-list flag changes |
| GlobalStore.GlobalStore.SetBackground | src/store/global.ts:205-208 | only the background changes |
| GlobalStore.GlobalStore.Reset | src/store/global.ts:210 | the initial state |
| NumberSeparate.Insert | src/components/number-separate.tsx:44 | inserting keeps the list ascending and adds exactly the item |
| NumberSeparate.SortAsc | src/components/number-separate.tsx:44 | `sort((a, b) => a - b)` is an ascending permutation |
| NumberSeparate.FirstIndex | src/components/number-separate.tsx:38 | `indexOf` of a present item: its first position |
| NumberSeparate.EditScale | src/components/number-separate.tsx:31-46 | the total is fixed; a present cut loses its first occurrence; an absent cut is added, the list ascending |
| NumberSeparate.RemoveKeepsSorted | src/components/number-separate.tsx:38-41 | `splice` keeps an ascending list ascending |
| NumberSeparate.SortedUnique | src/components/number-separate.tsx:44 | two ascending lists with the same elements are equal |
| NumberSeparate.EditScaleKeepsSorted | src/components/number-separate.tsx:36-45 | the cut list stays ascending under every edit |
| NumberSeparate.EditScaleTwice | src/components/number-separate.tsx:36-45 | on a strictly ascending list, editing a point twice restores the list |
| NumberSeparate.RemoveThenAdd | src/components/number-separate.tsx:36-45 | removing a present point and adding it back restores the list |
| NumberSeparate.AddThenRemove | src/components/number-separate.tsx:36-45 | adding an absent point and removing it restores the list |
| NumberSeparate.RemoveFromSorted | src/components/number-separate.tsx:38-41 | removing the first `item` from the sorted list of `rest + [item]` gives `rest` |
| NumberSeparate.BatchesFromCuts | src/components/number-separate.tsx:68-78 | `n` cuts give `n - 1` batches (none for `n <= 1`), batch `i - 1` counting `cut[i] - cut[i-1]` with id `i` and nothing drawn |
| NumberSeparate.Batches | src/components/number-separate.tsx:69-76 | the batch list has one entry fewer than the cut list |
| NumberSeparate.BatchesFromCutsIsBatches | src/components/number-separate.tsx:69-76 | the loop's result is `Batches` |
| NumberSeparate.SumOfBatches | src/components/number-separate.tsx:70-75 | the batch counts telescope to last cut minus first cut |
| NumberSeparate.SumCountsOfEqualCounts | src/components/number-separate.tsx:73 | the count total depends on the counts alone |
| NumberSeparate.CutsFromBatches | src/components/number-separate.tsx:80-93 | nothing when `totalNumber <= 0`; otherwise cut `i` is `totalNumber` minus the counts of batches `i..`, with a 0 in front only when the first cut is not 0 |
| NumberSeparate.CutsShape | src/components/number-separate.tsx:85-91 | the last cut is `totalNumber` and consecutive cuts differ by the batch between them |
| NumberSeparate.CutsBatchesRoundTrip | src/components/number-separate.tsx:68-93 | when the batches sum to `totalNumber`, the cuts start at 0 and turn back into the same counts |
| NumberSeparate.SuffixSumIsSum | src/components/number-separate.tsx:86-88 | the backwards loop's running value is the sum of the later counts |
| NumberSeparate.Separator.constructor | src/components/number-separate.tsx:27-29 | no cuts; the batches as passed in |
| NumberSeparate.Separator.Edit | src/components/number-separate.tsx:31-46 | the cut list becomes `EditScale` of it |
| NumberSeparate.Separator.SyncBatches | src/components/number-separate.tsx:68-78 | the batches become `Batches(cuts)` |
| NumberSeparate.Separator.SyncCuts | src/components/number-separate.tsx:80-93 | the cut list becomes `CutsOf` the prize, unless its total is not positive |
| PrizeConfig.DefaultPrize | src/pages/config/prize/prize.tsx:16-39 | the appended prize: "Awards", count 1, nothing drawn, unused, shown, batches disabled and empty |
| PrizeConfig.Selected | src/pages/config/prize/prize.tsx:41-64 | nothing drawn, unused; at most one batch becomes the single enabled batch ("0", count, 0); otherwise the same prize |
| PrizeConfig.StatusChanged | src/pages/config/prize/prize.tsx:66-79 | `isUsed` flipped, drawn count all or nothing to match, batches emptied, all else kept |
| PrizeConfig.StatusChangedTwice | src/pages/config/prize/prize.tsx:66-79 | two status changes restore the flag and leave the drawn count matching it |
| PrizeConfig.ChangeStatusAll | src/pages/config/prize/prize.tsx:67-77 | every prize with the id changed, the others as they were |
| PrizeConfig.ChangeStatusOthers | src/pages/config/prize/prize.tsx:67-77 | other prizes and every id are kept |
| PrizeConfig.PersonChanged | src/pages/config/prize/prize.tsx:88-92 | batches emptied, drawn count agreeing with the used flag, all else kept |
| PrizeConfig.Swapped | src/pages/config/prize/prize.tsx:100-104 | the two entries exchanged, the others kept |
| PrizeConfig.SwappedPermutes | src/pages/config/prize/prize.tsx:100-104 | a swap is a permutation |
| PrizeConfig.SwappedTwice | src/pages/config/prize/prize.tsx:100-104 | swapping the same two entries back restores the list |
| PrizeConfig.Moved | src/pages/config/prize/prize.tsx:97-106 | up swaps with the previous entry, down with the next, the ends stay; always a permutation |
| PrizeConfig.MoveUpThenDown | src/pages/config/prize/prize.tsx:97-106 | with distinct ids, up then down gives the list back |
| PrizeConfig.PrizeConfigPage.constructor | src/pages/config/prize/prize.tsx:12-13 | the page starts from the store's list, nothing selected |
| PrizeConfig.PrizeConfigPage.AddPrize | src/pages/config/prize/prize.tsx:16-39 | the default prize appended |
| PrizeConfig.PrizeConfigPage.SelectPrize | src/pages/config/prize/prize.tsx:41-64 | the editor opens on `Selected(item)`; the list is untouched |
| PrizeConfig.PrizeConfigPage.SubmitSeparate | src/pages/config/prize/prize.tsx:326-328 | the editor closes |
| PrizeConfig.PrizeConfigPage.ChangePrizeStatus | src/pages/config/prize/prize.tsx:66-79 | the list becomes `ChangeStatusAll` |
| PrizeConfig.PrizeConfigPage.ChangePrizePerson | src/pages/config/prize/prize.tsx:81-95 | the search loop finds the first prize with the id and only that entry is rewritten |
| PrizeConfig.PrizeConfigPage.Sort | src/pages/config/prize/prize.tsx:97-106 | the list becomes `Moved` at the clicked prize's position |
| PrizeConfig.PrizeConfigPage.DeletePrize | src/pages/config/prize/prize.tsx:310 | every prize with the id removed, order kept |
| PrizeList.FirstOpenPrize | src/pages/home/prize-list.tsx:126-131 | the first prize with winners still to draw, none iff every prize is drawn out |
| PrizeList.SelectedIsOpen | src/pages/home/prize-list.tsx:66-87 | a prize prepared for the editor with a positive count, listed after prizes that are all drawn out, is the one the mount effect picks |
| PrizeList.Submitted | src/pages/home/prize-list.tsx:58-62 | shown, with the clock id, all else kept |
| PrizeList.Hidden | src/pages/home/prize-list.tsx:45-50 | only `isShow` cleared |
| PrizeList.PrizeListPanel.constructor | src/pages/home/prize-list.tsx:26 | no prize selected |
| PrizeList.PrizeListPanel.SetInitialCurrentPrize | src/pages/home/prize-list.tsx:125-131 | the loop makes `FirstOpenPrize` current and writes it into its own slot of the list, every other slot unchanged; it sets nothing when every prize is drawn out |
| PrizeList.PrizeListPanel.DeleteTemporaryPrize | src/pages/home/prize-list.tsx:45-50 | the store resets the temporary prize and moves to the first unused prize |
| PrizeList.PrizeListPanel.SubmitTemporaryPrize | src/pages/home/prize-list.tsx:52-64 | an empty name or a zero count alerts and changes nothing; otherwise the shown prize with the clock id becomes current and is written into its own slot of the list, every other slot unchanged |
| PrizeList.PrizeListPanel.SelectPrize | src/pages/home/prize-list.tsx:66-87 | the editor opens on `Selected(item)` |
| PrizeList.PrizeListPanel.SubmitData | src/pages/home/prize-list.tsx:89-100 | the editor closes |
| PatternSetting.IndexOf | src/pages/config/global/pattern-setting.tsx:24 | the first position of the item, or -1 iff absent |
| PatternSetting.UpdatePatternList | src/pages/config/global/pattern-setting.tsx:19-31 | the copy handed on is `Toggled`: first occurrence removed when present, item appended otherwise |
| PatternSetting.Toggled | src/pages/config/global/pattern-setting.tsx:23-28 | one copy of a present number removed, one copy of an absent number added |
| PatternSetting.ToggledKeepsOthers | src/pages/config/global/pattern-setting.tsx:23-28 | every other number's membership is unchanged |
| PatternSetting.ToggledFlips | src/pages/config/global/pattern-setting.tsx:23-28 | on a list without repeats, the number's membership flips and no repeat appears |
| PatternSetting.NoRepeatsCount | src/pages/config/global/pattern-setting.tsx:24-25 | in a list without repeats a present number occurs once |
| PatternSetting.ToggleTwice | src/pages/config/global/pattern-setting.tsx:23-28 | clicking an absent number twice restores the list |
| PatternSetting.Cells | src/pages/config/global/pattern-setting.tsx:41 | `rowCount * 7` cells, a `RangeError` for a negative count |
| PatternSetting.CellsNumbering | src/pages/config/global/pattern-setting.tsx:41-47 | cells numbered 1..rowCount*7 in order, highlighted iff in the pattern list |
| PlayMusic.NextIndex | src/components/play-music.tsx:51-55 | the next index lies in the library |
| PlayMusic.NextIndexCycles | src/components/play-music.tsx:51-55 | with distinct names the track after `i` is `i + 1`, wrapping to the first |
| PlayMusic.NextIndexUnknown | src/components/play-music.tsx:51-55 | an unknown name starts from the first track |
| PlayMusic.AfterPlayMusic | src/components/play-music.tsx:38-45 | a missing item changes nothing; otherwise the item, paused iff it was playing and no skip |
| PlayMusic.PlayMusicTwice | src/components/play-music.tsx:38-45 | two clicks restore the play state |
| PlayMusic.PlayMusicClick | src/components/play-music.tsx:38-45 | the current track becomes `AfterPlayMusic`; settings unchanged |
| PlayMusic.NextPlay | src/components/play-music.tsx:47-57 | empty library: nothing; no current track: throws; otherwise the next track, playing |
| PlayMusic.Mount | src/components/play-music.tsx:59-61 | the first track, paused |
| ConfigMenu.CleanMenuList | src/pages/config/config.tsx:13-20 | as many routes as there are items with `meta`, never more than the input |
| ConfigMenu.CleanMenuListKeeps | src/pages/config/config.tsx:13-20 | route `i` of the result has the path, the meta and the presence of children of the `i`-th item with `meta`, in order |
| ConfigMenu.CleanItem | src/pages/config/config.tsx:16-19 | path and meta kept; children cleaned when present, `undefined` otherwise |
| ConfigMenu.CleanMenuListShrinks | src/pages/config/config.tsx:13-20 | the cleaned tree has no more nodes than the input, at every level |
| ConfigMenu.CleanItemShrinks | src/pages/config/config.tsx:16-19 | a cleaned item has no more nodes |
| ConfigMenu.CleanMenuListIdempotent | src/pages/config/config.tsx:13-20 | cleaning a cleaned tree changes nothing |
| ConfigMenu.CleanItemIdempotent | src/pages/config/config.tsx:16-19 | cleaning a cleaned item changes nothing |
| ConfigMenu.CleanMenuListAllHaveMeta | src/pages/config/config.tsx:13-20 | every route of the cleaned menu, at every level, has `meta` |
| PersonExport.RenameInjective | src/pages/config/person/person-all.tsx:56-69 | keys that are not column titles keep distinct names |
| PersonExport.KeptColumns | src/pages/config/person/person-all.tsx:43-52 | the rewritten properties are neither dropped nor titles |
| PersonExport.Rename | src/pages/config/person/person-all.tsx:56-69 | a mapped key becomes a column title; any other key is kept |
| PersonExport.CleanRow | src/pages/config/person/person-all.tsx:41-54 | cleaning a row fails iff a prize list is not an array |
| PersonExport.DropColumnsShape | src/pages/config/person/person-all.tsx:43-48 | no column title and no repeated key comes in |
| PersonExport.DropColumns | src/pages/config/person/person-all.tsx:43-48 | none of the six columns is left and the row does not grow |
| PersonExport.DropColumnsGet | src/pages/config/person/person-all.tsx:43-48 | every other property reads as before |
| PersonExport.MarkWinShape | src/pages/config/person/person-all.tsx:50 | rewriting the flag keeps the row clean |
| PersonExport.MarkWin | src/pages/config/person/person-all.tsx:50 | `isWin` reads "是" or "否" by the old flag; other properties are untouched |
| PersonExport.JoinPrize | src/pages/config/person/person-all.tsx:51-52 | the join succeeds iff the property is an array |
| PersonExport.JoinPrizeShape | src/pages/config/person/person-all.tsx:51-52 | the prize list becomes its comma-joined text |
| PersonExport.JoinPrizeGet | src/pages/config/person/person-all.tsx:51-52 | other properties are untouched |
| PersonExport.AssignKeepsProper | src/pages/config/person/person-all.tsx:50-52 | a rewrite keeps the row clean |
| PersonExport.RenameAll | src/pages/config/person/person-all.tsx:66-72 | every entry under its new name, in order |
| PersonExport.RenameKeys | src/pages/config/person/person-all.tsx:67-70 | the `forEach` loop builds `Renamed(item)` |
| PersonExport.AssignedDistinct | src/pages/config/person/person-all.tsx:67-70 | assigning entries with distinct keys one by one adds each at the end, in order |
| PersonExport.RenamedIsRenameAll | src/pages/config/person/person-all.tsx:67-70 | when no two keys are renamed alike, the loop's object is every entry under its new name, in place |
| PersonExport.GetRenamed | src/pages/config/person/person-all.tsx:69 | a renamed key reads the original value |
| PersonExport.CleanRowShape | src/pages/config/person/person-all.tsx:41-54 | a cleaned row has distinct keys, no dropped column, no title, and the three rewritten properties |
| PersonExport.ExportRowOfCleaned | src/pages/config/person/person-all.tsx:41-72 | a cleaned row is exported renamed |
| PersonExport.ExportRow | src/pages/config/person/person-all.tsx:41-72 | exporting a row fails iff a prize list is not an array |
| PersonExport.RenameAvoidsDropped | src/pages/config/person/person-all.tsx:56-69 | renaming never produces a dropped column |
| PersonExport.RenamedShape | src/pages/config/person/person-all.tsx:66-72 | renaming a clean row moves every entry to its new name in place |
| PersonExport.RenamedContents | src/pages/config/person/person-all.tsx:56-72 | keys renamed in place, no dropped column, win flag and prize texts under their titles |
| PersonExport.ExportRowContents | src/pages/config/person/person-all.tsx:41-72 | one exported row: columns dropped, flag as yes/no, prizes joined, keys renamed |
| PersonExport.MapOrThrow | src/pages/config/person/person-all.tsx:41 | `map` with a throwing callback: succeeds iff every row does, else the first error |
| PersonExport.RenameRows | src/pages/config/person/person-all.tsx:66-72 | one renamed row per cleaned row, in order |
| PersonExport.ExportData | src/pages/config/person/person-all.tsx:38-80 | one sheet row per person in order, or the first row's error; a file is written iff there are rows |
| StoreUtil.ExtractFields | src/utils/store.ts:1-7 | a throw on no rows; `undefined` iff no key is offered; otherwise `{label: key, value: true}` per offered key of the first row, in order |
| StoreUtil.ExtractFieldsFirstRowOnly | src/utils/store.ts:2-3 | only the first row matters |
| StoreUtil.ExtractFieldsOffersExactly | src/utils/store.ts:3-5 | a key is offered iff the first row has it and it is not `id`, `x` or `y` |
| Color.IsHexIffSharp | src/utils/color.ts:7-9 | `isHex` iff the text contains `#` |
| Color.IsRgbOrRgbaIffRgb | src/utils/color.ts:2-4 | `isRgbOrRgba` iff the text contains "rgb" |
| Color.IsRgbOrRgba | src/utils/color.ts:2-4 | true iff "rgb" or "rgba" occurs in the text |
| Color.IsHex | src/utils/color.ts:7-9 | true iff "#" occurs in the text |
| Color.DigitPrefix | src/utils/color.ts:13-15 | `parseInt` reads the longest run of digits |
| Color.TrimStart | src/utils/color.ts:13-15 | the white space `parseInt` skips: a suffix of the input, not starting with white space, everything dropped being white space; a text not starting with white space is kept |
| Color.ParseInt | src/utils/color.ts:13-15 | no number from blank text; a text of plain digits of the radix reads as their value |
| Color.ParseSigned | src/utils/color.ts:13-15 | after the white space: nothing from empty text, the value of a text of plain digits |
| Color.PlainDigits | src/utils/color.ts:13-15 | a text of plain digits has no white space, sign or `0x` prefix to skip |
| Color.Slice | src/utils/color.ts:13-15 | `slice` inside the text is the substring |
| Color.ParseHexPair | src/utils/color.ts:13-15 | two hex digits read in base 16 give their value, at most 255 |
| Color.PairDigitsValue | src/utils/color.ts:13-15 | two hex digits, most significant first, denote at most 255 |
| Color.HexToRgbaComponents | src/utils/color.ts:12-18 | for `#RRGGBB` each component is the number its two digits denote |
| Color.HexToRgba | src/utils/color.ts:12-18 | a component whose two digits lie past the end of the text is not a number |
| Color.RgbToRgba | src/utils/color.ts:20-24 | a `TypeError` iff the text has no `(` |
| Color.Rgba | src/utils/color.ts:27-37 | an error iff the text is neither hex nor has a `(`; the opacity 0 becomes 1 |
| Color.RgbaOfHex | src/utils/color.ts:27-32 | `rgba` of `#RRGGBB` writes the decimal components, opacity 0 becoming 1 |
| Color.RgbToRgbaOfText | src/utils/color.ts:20-24 | `rgbToRgba` of `p(r,g,b)` reads the three texts |
| Color.RgbaOfRgbText | src/utils/color.ts:27-36 | `rgba` of `p(r,g,b)` without `#` writes those texts, opacity 0 becoming 1 |
| Color.SpanDigits | src/utils/color.ts:44 | `\d+` matches the leading digits |
| Color.MatchRgbCss | src/utils/color.ts:44 | `rgb(r,g,b)` matches with the decimal texts as captures and no alpha |
| Color.RgbCssHasNoWhitespace | src/utils/color.ts:41 | stripping white space leaves `rgb(r,g,b)` unchanged |
| Color.ToInt32 | src/utils/color.ts:55 | the 32-bit wrap of `<<` is a no-op inside the 32-bit range |
| Color.NatToHexOfDigits | src/utils/color.ts:55 | `toString(16)` writes exactly the digits of the number |
| Color.HexTextSixDigits | src/utils/color.ts:55 | for components 0..255 the text is `#` and six upper-case digits, two per component |
| Color.HexText | src/utils/color.ts:55 | `#` followed by upper-case hex digits |
| Color.RgbToHex | src/utils/color.ts:39-55 | "Invalid color format" iff the text without white space does not match; otherwise `#` and upper-case hex digits |
| Color.RgbToHexSixDigits | src/utils/color.ts:39-55 | `rgbToHex("rgb(r,g,b)")` for 0..255 gives `#` and exactly six upper-case hex digits |
| Color.HexToRgbaOfHex2 | src/utils/color.ts:12-18 | reading back `#RRGGBB` gives the three components |
| Color.HexRoundTrip | src/utils/color.ts:12-55 | `hexToRgba(rgbToHex("rgb(r,g,b)"))` is `(r, g, b)` for components 0..255 |
| Strings.NatToDecimal | src/utils/color.ts:32 | a number in a template string: decimal digits only |
| Strings.DecimalRoundTrip | src/utils/color.ts:49-51 | `parseInt` reads back the decimal text of a number |
| Strings.NatToHex | src/utils/color.ts:55 | `toString(16)`: hex digits only |
| Strings.ToUpper | src/utils/color.ts:55 | `toUpperCase` maps every character |
| Strings.RemoveWhitespace | src/utils/color.ts:41 | no white space left, and a text without white space is kept |
| Strings.IndexOfFindsOccurrence | src/utils/color.ts:3 | `indexOf(t) > -1` iff `t` occurs |
| Strings.Split | src/utils/color.ts:21 | `split(c)` yields pieces without `c`, and the whole text when `c` is absent |
| Strings.JoinSplit | src/utils/color.ts:21 | joining the pieces of a split restores the text |
| Lists.Filter | src/store/person.ts:82-87 | `filter` keeps exactly the passing elements |
| Lists.FilterPartition | src/store/person.ts:139-143 | a filter and its negation partition the list |
| Lists.FindIndex | src/store/prize.ts:106-108 | `findIndex`: the first passing position, or -1 |
| Lists.Find | src/store/prize.ts:86-88 | `find`: the first passing element, or none iff none passes |
| Json.Get | src/pages/config/person/person-all.tsx:50-52 | a property reads its member's value, or `undefined` iff absent |
| Json.Delete | src/pages/config/person/person-all.tsx:43-48 | `delete` removes the key and keeps the others |
| Json.Assign | src/pages/config/person/person-all.tsx:50-52 | assignment overwrites in place or appends a new key |
| Json.AssignGet | src/pages/config/person/person-all.tsx:50-52 | after assignment the key reads the new value, others as before |
| Json.GetDelete | src/pages/config/person/person-all.tsx:43-48 | after `delete` every other key reads as before |
| Json.JoinOf | src/pages/config/person/person-all.tsx:51-52 | `join` succeeds iff the value is an array |

## Left out

- Rendering is not modelled: the Three.js scene, camera, renderer, controls, the render loop,
  `rollBall`, `resetCamera` and the sphere and helix layouts (trigonometry on floats).
- Tween timing and easing are not modelled. Only the completion of the sphere transform and
  of the reveal tweens is modelled, as the events `Home.DrawPage.TransformSettled` and
  `Home.DrawPage.RevealSettled`.
- The pattern colouring loop of `enterLottery`, `createElementStyle` and `randomBallData` set
  DOM styles with random opacities; they change no state of the model.
- Confetti effects, toasts, alerts and dialogs are left out.
- Browser storage, spreadsheet reading and writing, audio playback, the request wrapper and
  translations are I/O.
  - The export is modelled up to the rows handed to the spreadsheet library.
  - The import handler of the person page is left out: its steps are modelled as
    `HomeUtil.AddOtherInfo`, `PersonStore.PersonStore.DeleteAllPerson` and
    `PersonStore.PersonStore.AddNotPersonList`.
- Time stamps are opaque strings `now`. Random draws are parameters.
  - The pool index of `Math.round(Math.random() * (len - 1))` is modelled as `d % len`, which
    reaches every index but not the source's halved chance at the two ends.
- The data file with the default lists and the file with the entity types are not part of
  this model. The default lists are parameters, and the entity fields follow their use in the
  code.
- React state batching and stale closures are not modelled; handlers are sequential
  transitions on the current state.
- The keyboard listener is modelled as the dispatch function `Home.KeyAction` over the
  handlers, not as a method.
- The inline table layout at `src/pages/home/home.tsx:67-76` is the same formula as
  `HomeThree.CreateTableVertices` and is not repeated.
- `getAllPersonList` (a filter on truthy entries of a list of records) is the identity here
  and is left out.
- `getNotThisPrizePersonList` takes the current prize's id as a parameter; the case of a
  missing current prize, which throws in the source, is left out.
- The field editors of the prize page and of the temporary prize form (`onChange` handlers,
  `handleChange`) only copy a form value into a record and are left out.
- Home.DrawPage.StopLottery: when some winner's card choice never ends (all cards taken), the
  source never finishes; the model reports `finished` false with the gate closed and no card
  written, and does not model the hang itself.
- PrizeConfig.PrizeConfigPage.ChangePrizePerson: the source writes into the entry objects it
  shares with the store's list; the model works on values, so that aliasing is not captured.
- PrizeConfig.PrizeConfigPage.Sort: requires the clicked prize to be listed, which holds when
  it is clicked; the source with an unlisted id is left out.
- HomeUtil.InitTableData: negative row counts are left out (JavaScript's `slice` with a
  negative end counts from the end).
- Color.RgbToHexSixDigits: the alpha part of `rgbToHex` (`parseFloat` and `Math.round(a *
  255)`) is floating point; the model keeps the alpha text and does not append its hex digits.
- Strings.ToUpper: upper-cases ASCII letters only, which covers hex digits and not full
  Unicode case mapping.
- Opacities are exact reals, not floating point; the text JavaScript writes for an opacity is
  a parameter of `Color.RgbaCss`.
- `fieldMapping` is read as an own-property lookup; keys such as `constructor`, which the
  source would find on the object prototype, are not modelled.
- Export rows hold JSON values with string, boolean, integer, null, array and object cases;
  fractional numbers and dates are not modelled.
- Export rows keep their keys in insertion order. JavaScript lists integer-like keys first, in
  ascending order; the person records have no such keys, and that reordering is not modelled.
- Card sizes are integers in the global store and in `HomeThree.TableVertex`, as the theme
  settings hold them. `HomeDom.GetElementPosition` takes card and window sizes as exact reals
  because it halves them; the conversion between the two is not modelled, and floating-point
  rounding is not modelled either.

## Findings

| source | as written | input that shows it | evidently intended | confidence | as-written member | corrected member |
|---|---|---|---|---|---|---|
| src/store/person.ts:65 | `if (!person.id) return;` treats id 0 as missing | the first person of an import, whose id `addOtherInfo` sets to 0, cannot be moved back from the winners | skip only a missing id and move back every person with that id | not executed; high | PersonStore.PersonStore.MoveAlreadyToNot, PersonStore.FirstImportedPersonHasFalsyId | PersonStore.PersonStore.MoveById |
| src/store/person.ts:81 | `if (!person.id) return;` treats id 0 as missing | the first person of an import (id 0) cannot be deleted from the person page | delete every entry with the given id | not executed; high | PersonStore.PersonStore.DeletePerson, PersonStore.FirstImportedPersonHasFalsyId | PersonStore.PersonStore.DeleteById |
