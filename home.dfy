/** The draw page (src/pages/home/home.tsx): the status machine that takes a round from the
    idle table through the spinning sphere, the draw and the reveal, gated by `canOperate`, and
    the bookkeeping a round does on the prize and person stores. Randomness is a parameter: a
    sequence of draws, each a value `Math.round(Math.random() * (n - 1))` could take. */
module Home {

  import opened Wrappers
  import opened Entities
  import opened Lists
  import opened PersonStore
  import opened PrizeStore
  import opened HomeUtil

  /** The statuses `currentStatus` runs through. */
  const IDLE := 0
  const SPINNING := 1
  const DRAWING := 2
  const REVEALED := 3

  /** No round draws more than this many people. */
  const MAX_ROUND := 10

  // ---------------------------------------------------------------------------------------
  // Round size

  /** A sub-batch with winners still to draw. */
  predicate OpenBatch(s: Separate)
  {
    s.isUsedCount < s.count
  }

  /** `leftover`: with sub-batches enabled and listed, the remainder of the first open batch;
      otherwise (or when every batch is full) what the prize still has to award. */
  function Leftover(prize: Prize): (leftover: int)
    ensures var countList := prize.separateCount.countList;
      (prize.separateCount.enable && exists i :: 0 <= i < |countList| && OpenBatch(countList[i])) ==>
        leftover > 0 && exists k :: 0 <= k < |countList| && leftover == countList[k].count - countList[k].isUsedCount
                                    && forall j :: 0 <= j < k ==> !OpenBatch(countList[j])
    ensures var countList := prize.separateCount.countList;
      !(prize.separateCount.enable && exists i :: 0 <= i < |countList| && OpenBatch(countList[i])) ==>
        leftover == prize.count - prize.isUsedCount
  {
    var countList := prize.separateCount.countList;
    var k := FindIndex(countList, OpenBatch);
    if prize.separateCount.enable && |countList| > 0 && k >= 0 then countList[k].count - countList[k].isUsedCount
    else prize.count - prize.isUsedCount
  }

  /** The `leftover` loop of `startLottery`: walk the batches and stop (`break`) at the first
      open one. */
  method RoundLeftover(prize: Prize) returns (leftover: int)
    ensures leftover == Leftover(prize)
  {
    leftover := prize.count - prize.isUsedCount;
    var customCount := prize.separateCount;
    if customCount.enable && |customCount.countList| > 0 {
      var i := 0;
      while i < |customCount.countList|
        invariant 0 <= i <= |customCount.countList|
        invariant forall j :: 0 <= j < i ==> !OpenBatch(customCount.countList[j])
        invariant leftover == prize.count - prize.isUsedCount
      {
        if customCount.countList[i].isUsedCount < customCount.countList[i].count {
          assert FindIndex(customCount.countList, OpenBatch) == i;
          leftover := customCount.countList[i].count - customCount.countList[i].isUsedCount;
          return;
        }
        i := i + 1;
      }
      assert FindIndex(customCount.countList, OpenBatch) == -1;
    }
  }

  /** `Math.min(leftover, 10)`. */
  function RoundSize(prize: Prize): (n: int)
    ensures n <= MAX_ROUND && n <= Leftover(prize)
    ensures n == Leftover(prize) || n == MAX_ROUND
  {
    if Leftover(prize) < MAX_ROUND then Leftover(prize) else MAX_ROUND
  }

  /** With an open batch enabled, a round draws at least one person and no more than that
      batch still needs. */
  lemma RoundSizeWithOpenBatch(prize: Prize, k: int)
    requires prize.separateCount.enable
    requires 0 <= k < |prize.separateCount.countList| && OpenBatch(prize.separateCount.countList[k])
    requires forall j :: 0 <= j < k ==> !OpenBatch(prize.separateCount.countList[j])
    ensures 1 <= RoundSize(prize) <= prize.separateCount.countList[k].count - prize.separateCount.countList[k].isUsedCount
  {
    assert FindIndex(prize.separateCount.countList, OpenBatch) == k;
  }

  // ---------------------------------------------------------------------------------------
  // Drawing without replacement

  /** The people a prize is drawn from: those who have not won this prize when `isAll`,
      otherwise those who have not won anything. */
  function Pool(prize: Prize, allPersonList: seq<Person>): (pool: seq<Person>)
    ensures forall p :: p in pool <==>
      p in allPersonList && (if prize.isAll then prize.id !in p.prizeId else !p.isWin)
  {
    if prize.isAll then NotThisPrizePersonList(allPersonList, prize.id) else NotPersonList(allPersonList)
  }

  /** The random index a draw `d` gives for a pool of `length`: every index in `[0, length)`
      is `PoolIndex(d, length)` for some `d`. */
  function PoolIndex(d: nat, length: nat): (r: int)
    requires length > 0
    ensures 0 <= r < length
    ensures d < length ==> r == d
  {
    d % length
  }

  /** The pool after `personPool.splice(r, 1)`. */
  function Removed(pool: seq<Person>, r: int): (rest: seq<Person>)
    requires 0 <= r < |pool|
    ensures |rest| == |pool| - 1
  {
    pool[..r] + pool[r + 1..]
  }

  /** Removing a position takes exactly that person out. */
  lemma RemovedPermutes(pool: seq<Person>, r: int)
    requires 0 <= r < |pool|
    ensures multiset(Removed(pool, r)) + multiset{pool[r]} == multiset(pool)
  {
    assert pool == pool[..r] + [pool[r]] + pool[r + 1..];
  }

  /** The winners of a round, and what is left of the pool. */
  datatype Draw = Draw(winners: seq<Person>, pool: seq<Person>)

  /** `n` passes of the draw loop, pass `i` taking the random index `draws[i] % length` of a
      pool of `length` people (every index `Math.round(Math.random() * (length - 1))` can give
      is one of these); a pass that finds the pool empty draws nobody. */
  function Drawn(pool: seq<Person>, n: nat, draws: seq<nat>): (d: Draw)
    requires |draws| >= n
    ensures |d.winners| == if n < |pool| then n else |pool|
    ensures |d.pool| == |pool| - |d.winners|
    decreases n
  {
    if n == 0 then Draw([], pool)
    else if |pool| == 0 then Drawn(pool, n - 1, draws[1..])
    else
      var d := Drawn(Removed(pool, PoolIndex(draws[0], |pool|)), n - 1, draws[1..]);
      Draw([pool[PoolIndex(draws[0], |pool|)]] + d.winners, d.pool)
  }

  /** Sampling without replacement: winners and remaining pool together are exactly the
      pool. */
  lemma {:induction false} DrawnPermutes(pool: seq<Person>, n: nat, draws: seq<nat>)
    requires |draws| >= n
    ensures multiset(Drawn(pool, n, draws).winners) + multiset(Drawn(pool, n, draws).pool) == multiset(pool)
    decreases n
  {
    if n > 0 {
      if |pool| == 0 {
        assert Drawn(pool, n, draws) == Drawn(pool, n - 1, draws[1..]);
        DrawnPermutes(pool, n - 1, draws[1..]);
      } else {
        var rest := Removed(pool, PoolIndex(draws[0], |pool|));
        DrawnPermutes(rest, n - 1, draws[1..]);
        DrawnStepPermutes(pool, n, draws);
      }
    }
  }

  /** One pass of the draw: if the later passes keep the smaller pool, the round keeps the
      whole pool. */
  lemma DrawnStepPermutes(pool: seq<Person>, n: nat, draws: seq<nat>)
    requires |draws| >= n > 0 && |pool| > 0
    requires var d := Drawn(Removed(pool, PoolIndex(draws[0], |pool|)), n - 1, draws[1..]);
      multiset(d.winners) + multiset(d.pool) == multiset(Removed(pool, PoolIndex(draws[0], |pool|)))
    ensures multiset(Drawn(pool, n, draws).winners) + multiset(Drawn(pool, n, draws).pool) == multiset(pool)
  {
    var r := PoolIndex(draws[0], |pool|);
    var d := Drawn(Removed(pool, r), n - 1, draws[1..]);
    RemovedPermutes(pool, r);
    assert multiset([pool[r]] + d.winners) == multiset{pool[r]} + multiset(d.winners);
  }

  /** Position `j` of the pool after removing position `r`, as a position of the pool before. */
  function Lift(r: int, j: int): int
  {
    if j < r then j else j + 1
  }

  /** The original positions the winners are taken from: distinct positions of the pool. */
  function Positions(poolSize: nat, n: nat, draws: seq<nat>): (ps: seq<int>)
    requires |draws| >= n
    ensures |ps| == if n < poolSize then n else poolSize
    ensures forall k :: 0 <= k < |ps| ==> 0 <= ps[k] < poolSize
    decreases n
  {
    if n == 0 then []
    else if poolSize == 0 then Positions(0, n - 1, draws[1..])
    else
      var r := PoolIndex(draws[0], poolSize);
      var tail := Positions(poolSize - 1, n - 1, draws[1..]);
      [r] + seq(|tail|, k requires 0 <= k < |tail| => Lift(r, tail[k]))
  }

  predicate AllDistinct(ps: seq<int>)
  {
    forall a, b :: 0 <= a < b < |ps| ==> ps[a] != ps[b]
  }

  /** The positions are pairwise distinct: nobody is drawn twice from one place. */
  lemma {:induction false} PositionsDistinct(poolSize: nat, n: nat, draws: seq<nat>)
    requires |draws| >= n
    ensures AllDistinct(Positions(poolSize, n, draws))
    decreases n
  {
    if n > 0 {
      if poolSize == 0 {
        PositionsDistinct(0, n - 1, draws[1..]);
      } else {
        var r := PoolIndex(draws[0], poolSize);
        var tail := Positions(poolSize - 1, n - 1, draws[1..]);
        PositionsDistinct(poolSize - 1, n - 1, draws[1..]);
        LiftedDistinct(r, tail);
      }
    }
  }

  /** Position `r` followed by distinct positions of the pool without `r`, lifted back. */
  lemma LiftedDistinct(r: int, tail: seq<int>)
    requires AllDistinct(tail)
    ensures AllDistinct([r] + seq(|tail|, k requires 0 <= k < |tail| => Lift(r, tail[k])))
  {
    var ps := [r] + seq(|tail|, k requires 0 <= k < |tail| => Lift(r, tail[k]));
    forall a, b | 0 <= a < b < |ps| ensures ps[a] != ps[b] {
      if a > 0 {
        assert ps[a] == Lift(r, tail[a - 1]) && ps[b] == Lift(r, tail[b - 1]);
        assert tail[a - 1] != tail[b - 1];
      } else {
        assert ps[b] == Lift(r, tail[b - 1]);
      }
    }
  }

  /** Winner `k` is the person at position `Positions(..)[k]` of the pool before the round; as
      these positions are pairwise distinct, nobody is drawn twice from one place. */
  lemma {:induction false} DrawnFromPositions(pool: seq<Person>, n: nat, draws: seq<nat>)
    requires |draws| >= n
    ensures var d := Drawn(pool, n, draws); var ps := Positions(|pool|, n, draws);
      |d.winners| == |ps| && forall k :: 0 <= k < |ps| ==> d.winners[k] == pool[ps[k]]
    decreases n
  {
    if n > 0 {
      if |pool| == 0 {
        DrawnFromPositions(pool, n - 1, draws[1..]);
      } else {
        var r := PoolIndex(draws[0], |pool|);
        var rest := Removed(pool, r);
        DrawnFromPositions(rest, n - 1, draws[1..]);
        DrawnPositionsStep(pool, n, draws);
      }
    }
  }

  /** The pass of `DrawnFromPositions` that takes position `r`. */
  lemma DrawnPositionsStep(pool: seq<Person>, n: nat, draws: seq<nat>)
    requires |draws| >= n > 0 && |pool| > 0
    requires var r := PoolIndex(draws[0], |pool|);
      var d := Drawn(Removed(pool, r), n - 1, draws[1..]); var tail := Positions(|pool| - 1, n - 1, draws[1..]);
      |d.winners| == |tail| && forall k :: 0 <= k < |tail| ==> d.winners[k] == Removed(pool, r)[tail[k]]
    ensures var d := Drawn(pool, n, draws); var ps := Positions(|pool|, n, draws);
      |d.winners| == |ps| && forall k :: 0 <= k < |ps| ==> d.winners[k] == pool[ps[k]]
  {
    var r := PoolIndex(draws[0], |pool|);
    var d := Drawn(Removed(pool, r), n - 1, draws[1..]);
    var tail := Positions(|pool| - 1, n - 1, draws[1..]);
    assert Drawn(pool, n, draws).winners == [pool[r]] + d.winners;
    assert Positions(|pool|, n, draws) == [r] + seq(|tail|, k requires 0 <= k < |tail| => Lift(r, tail[k]));
    PrependLifted(pool, r, d.winners, tail);
  }

  /** One pass of the draw moved back to the pool before it: if `winners` sit at `tail` in the
      pool without position `r`, then `pool[r]` followed by them sits at `r` followed by the
      lifted `tail`. */
  lemma PrependLifted(pool: seq<Person>, r: int, winners: seq<Person>, tail: seq<int>)
    requires 0 <= r < |pool| && |winners| == |tail|
    requires forall k :: 0 <= k < |tail| ==> 0 <= tail[k] < |pool| - 1
    requires forall k :: 0 <= k < |tail| ==> winners[k] == Removed(pool, r)[tail[k]]
    ensures var ps := [r] + seq(|tail|, k requires 0 <= k < |tail| => Lift(r, tail[k]));
      forall k :: 0 <= k < |ps| ==> ([pool[r]] + winners)[k] == pool[ps[k]]
  {
    var ps := [r] + seq(|tail|, k requires 0 <= k < |tail| => Lift(r, tail[k]));
    forall k | 0 <= k < |ps| ensures ([pool[r]] + winners)[k] == pool[ps[k]] {
      if k > 0 {
        assert ps[k] == Lift(r, tail[k - 1]);
        assert Removed(pool, r)[tail[k - 1]] == pool[Lift(r, tail[k - 1])];
      }
    }
  }

  /** Everybody drawn is in the pool, so has not won yet (or, for an `isAll` prize, has not won
      this prize). */
  lemma WinnersEligible(prize: Prize, allPersonList: seq<Person>, n: nat, draws: seq<nat>)
    requires |draws| >= n
    ensures forall w :: w in Drawn(Pool(prize, allPersonList), n, draws).winners ==>
      w in allPersonList && (if prize.isAll then prize.id !in w.prizeId else !w.isWin)
  {
    var pool := Pool(prize, allPersonList);
    var d := Drawn(pool, n, draws);
    DrawnPermutes(pool, n, draws);
    forall w | w in d.winners
      ensures w in pool
    {
      assert w in multiset(d.winners);
      assert w in multiset(pool);
    }
  }

  /** One pass of the draw loop keeps the loop's invariant: the winners so far followed by
      the later passes' winners are the round's winners. */
  lemma DrawnPass(personPool: seq<Person>, total: nat, draws: seq<nat>, i: nat,
                  targets: seq<Person>, pool: seq<Person>, targets': seq<Person>, pool': seq<Person>)
    requires i < total <= |draws|
    requires var d := Drawn(pool, total - i, draws[i..]);
      Drawn(personPool, total, draws) == Draw(targets + d.winners, d.pool)
    requires |pool| > 0 ==>
      targets' == targets + [pool[PoolIndex(draws[i], |pool|)]] && pool' == Removed(pool, PoolIndex(draws[i], |pool|))
    requires |pool| == 0 ==> targets' == targets && pool' == pool
    ensures var d := Drawn(pool', total - (i + 1), draws[i + 1..]);
      Drawn(personPool, total, draws) == Draw(targets' + d.winners, d.pool)
  {
    assert draws[i..][1..] == draws[i + 1..];
    if |pool| > 0 {
      var randomIndex := PoolIndex(draws[i], |pool|);
      var d := Drawn(Removed(pool, randomIndex), total - i - 1, draws[i + 1..]);
      assert Drawn(pool, total - i, draws[i..]) == Draw([pool[randomIndex]] + d.winners, d.pool);
      assert targets + ([pool[randomIndex]] + d.winners) == (targets + [pool[randomIndex]]) + d.winners;
    }
  }

  /** The draw loop of `startLottery`: `newLuckyCount` passes, each taking the person at a
      random index out of the pool with `splice`. */
  method DrawWinners(personPool: seq<Person>, newLuckyCount: int, draws: seq<nat>)
    returns (newLuckyTargets: seq<Person>, remaining: seq<Person>)
    requires |draws| >= newLuckyCount
    ensures Draw(newLuckyTargets, remaining) == Drawn(personPool, if newLuckyCount > 0 then newLuckyCount else 0, draws)
  {
    var total: nat := if newLuckyCount > 0 then newLuckyCount else 0;
    var pool := personPool;
    newLuckyTargets := [];
    var i := 0;
    while i < newLuckyCount
      invariant 0 <= i <= total
      invariant var d := Drawn(pool, total - i, draws[i..]);
        Drawn(personPool, total, draws) == Draw(newLuckyTargets + d.winners, d.pool)
    {
      var targets, rest := newLuckyTargets, pool;
      if |pool| > 0 {
        var randomIndex := PoolIndex(draws[i], |pool|);
        targets := newLuckyTargets + [pool[randomIndex]];
        rest := Removed(pool, randomIndex);
      }
      DrawnPass(personPool, total, draws, i, newLuckyTargets, pool, targets, rest);
      newLuckyTargets, pool := targets, rest;
      i := i + 1;
    }
    remaining := pool;
  }

  /** The round `startLottery` draws once its checks pass: sized by `leftover`, capped at
      10, and drawn from `personPool`. */
  method DrawRound(prize: Prize, personPool: seq<Person>, draws: seq<nat>)
    returns (newLuckyCount: int, newLuckyTargets: seq<Person>)
    requires |draws| >= MAX_ROUND
    ensures newLuckyCount == RoundSize(prize)
    ensures newLuckyTargets == Drawn(personPool, if newLuckyCount > 0 then newLuckyCount else 0, draws).winners
  {
    var leftover := RoundLeftover(prize);
    newLuckyCount := if leftover < MAX_ROUND then leftover else MAX_ROUND;
    var remaining;
    newLuckyTargets, remaining := DrawWinners(personPool, newLuckyCount, draws);
  }

  // ---------------------------------------------------------------------------------------
  // Card choice on stop

  /** Every random card index is one `Math.round(Math.random() * (tableLength - 1))` can give. */
  predicate CardDraws(draws: seq<seq<int>>, tableLength: int)
  {
    forall i, k :: 0 <= i < |draws| && 0 <= k < |draws[i]| ==> IsCardDraw(draws[i][k], tableLength)
  }

  /** The cards `stopLottery` picks for `targets`, winner `i` with the draws `draws[i]`: each
      is chosen against `luckyCardList` as the handler captured it, which the loop never
      updates. `None` when some choice would retry for ever. */
  function StaleCards(luckyCardList: seq<int>, tableLength: int, targets: seq<Person>, draws: seq<seq<int>>)
    : (r: Option<seq<int>>)
    requires |draws| >= |targets| && CardDraws(draws, tableLength)
    ensures r.Some? <==> forall k :: 0 <= k < |targets| ==>
      SelectCard(luckyCardList, tableLength, targets[k].id, draws[k]).Some?
    ensures r.Some? ==> |r.value| == |targets| && forall k :: 0 <= k < |targets| ==>
      r.value[k] == SelectCard(luckyCardList, tableLength, targets[k].id, draws[k]).value
      && 0 <= r.value[k] < tableLength && r.value[k] !in luckyCardList
    decreases |targets|
  {
    if targets == [] then Some([])
    else
      var last := |targets| - 1;
      var front := targets[..last];
      var rest := StaleCards(luckyCardList, tableLength, front, draws);
      var card := SelectCard(luckyCardList, tableLength, targets[last].id, draws[last]);
      assert forall k :: 0 <= k < last ==> front[k] == targets[k];
      if rest.None? || card.None? then None else Some(rest.value + [card.value])
  }

  /** One more winner: the cards of the first `i + 1` winners are those of the first `i` and
      the card of winner `i`. */
  lemma StaleCardsStep(luckyCardList: seq<int>, tableLength: int, targets: seq<Person>,
                       draws: seq<seq<int>>, i: nat)
    requires i < |targets| && |draws| >= |targets| && CardDraws(draws, tableLength)
    ensures var rest := StaleCards(luckyCardList, tableLength, targets[..i], draws);
      var card := SelectCard(luckyCardList, tableLength, targets[i].id, draws[i]);
      StaleCards(luckyCardList, tableLength, targets[..i + 1], draws)
        == if rest.None? || card.None? then None else Some(rest.value + [card.value])
  {
    assert targets[..i + 1][..i] == targets[..i];
    assert targets[..i + 1][i] == targets[i];
  }

  /** The `forEach` over the winners in `stopLottery`: winner `i` gets the card chosen with
      `draws[i]` against the captured `luckyCardList`; `None` when a choice would never end. */
  method PickCards(captured: seq<int>, tableLength: int, targets: seq<Person>, draws: seq<seq<int>>)
    returns (cards: Option<seq<int>>)
    requires |draws| >= |targets| && CardDraws(draws, tableLength)
    ensures cards == StaleCards(captured, tableLength, targets, draws)
  {
    var picked: seq<int> := [];
    var i := 0;
    while i < |targets|
      invariant 0 <= i <= |targets|
      invariant StaleCards(captured, tableLength, targets[..i], draws) == Some(picked)
    {
      StaleCardsStep(captured, tableLength, targets, draws, i);
      var cardIndex := SelectCard(captured, tableLength, targets[i].id, draws[i]);
      if cardIndex.None? {
        assert StaleCards(captured, tableLength, targets, draws).None?;
        return None;
      }
      picked := picked + [cardIndex.value];
      i := i + 1;
    }
    assert targets[..i] == targets;
    return Some(picked);
  }

  /** The captured list is not updated between winners, so two winners of one round can get
      the same card: with a free table of 10 and both first draws 5, both get card 5. */
  lemma StaleCardsCanRepeat(p: Person, q: Person)
    ensures StaleCards([], 10, [p, q], [[5], [5]]) == Some([5, 5])
  {
    var targets := [p, q];
    var draws := [[5], [5]];
    assert SelectCard([], 10, targets[0].id, draws[0]) == Some(5);
    assert SelectCard([], 10, targets[1].id, draws[1]) == Some(5);
    var r := StaleCards([], 10, targets, draws);
    assert r.Some?;
    assert r.value[0] == 5 && r.value[1] == 5;
    assert r.value == [5, 5];
  }

  // ---------------------------------------------------------------------------------------
  // Commit

  /** The batches of `continueLottery` as written: every batch still open is credited with
      the whole round, the full ones are left as they were. */
  function CommittedBatches(countList: seq<Separate>, luckyCount: int): (r: seq<Separate>)
    ensures |r| == |countList|
    ensures forall i :: 0 <= i < |r| ==> r[i].id == countList[i].id && r[i].count == countList[i].count
    ensures forall i :: 0 <= i < |r| ==>
      r[i].isUsedCount == countList[i].isUsedCount + (if OpenBatch(countList[i]) then luckyCount else 0)
  {
    seq(|countList|, i requires 0 <= i < |countList| =>
      if OpenBatch(countList[i]) then countList[i].(isUsedCount := countList[i].isUsedCount + luckyCount)
      else countList[i])
  }

  /** `newCurrentPrize`: the round's count added to the drawn count, used up once the drawn
      count reaches the count, batches credited when enabled and listed; nothing else changes. */
  function CommittedPrize(prize: Prize, luckyCount: int): (p: Prize)
    ensures p.isUsedCount == prize.isUsedCount + luckyCount
    ensures p.isUsed <==> p.isUsedCount >= prize.count
    ensures prize.separateCount.enable && |prize.separateCount.countList| > 0 ==>
      p.separateCount == prize.separateCount.(countList := CommittedBatches(prize.separateCount.countList, luckyCount))
    ensures !(prize.separateCount.enable && |prize.separateCount.countList| > 0) ==>
      p.separateCount == prize.separateCount
    ensures p == prize.(isUsedCount := p.isUsedCount, isUsed := p.isUsed, separateCount := p.separateCount)
  {
    var customCount := prize.separateCount;
    var separateCount :=
      if customCount.enable && |customCount.countList| > 0
      then customCount.(countList := CommittedBatches(customCount.countList, luckyCount))
      else customCount;
    prize.(separateCount := separateCount,
           isUsedCount := prize.isUsedCount + luckyCount,
           isUsed := prize.isUsedCount + luckyCount >= prize.count)
  }

  /** Without batches, a round that covers what the prize still needs uses the prize up. */
  lemma RoundUsesUpPrize(prize: Prize)
    requires !prize.separateCount.enable || prize.separateCount.countList == []
    requires prize.count - prize.isUsedCount <= MAX_ROUND
    ensures var p := CommittedPrize(prize, RoundSize(prize)); p.isUsed && p.isUsedCount == prize.count
  {
  }

  /** The round sized by the first open batch fills that batch when it is small enough. */
  lemma RoundFillsFirstOpenBatch(prize: Prize, k: int)
    requires prize.separateCount.enable
    requires 0 <= k < |prize.separateCount.countList| && OpenBatch(prize.separateCount.countList[k])
    requires forall j :: 0 <= j < k ==> !OpenBatch(prize.separateCount.countList[j])
    requires prize.separateCount.countList[k].count - prize.separateCount.countList[k].isUsedCount <= MAX_ROUND
    ensures var b := CommittedPrize(prize, RoundSize(prize)).separateCount.countList[k];
      b.isUsedCount == b.count
  {
    assert FindIndex(prize.separateCount.countList, OpenBatch) == k;
  }

  /** Every open batch is credited, not only the one the round was sized by: after a round of
      3 on two empty batches of 3, both read 3 of 3. */
  lemma CommitCreditsEveryOpenBatch(prize: Prize)
    requires prize.separateCount == SeparateCount(true, [Separate("0", 3, 0), Separate("1", 3, 0)])
    requires prize.count == 6 && prize.isUsedCount == 0
    ensures RoundSize(prize) == 3
    ensures CommittedPrize(prize, RoundSize(prize)).separateCount.countList
            == [Separate("0", 3, 3), Separate("1", 3, 3)]
  {
    assert FindIndex(prize.separateCount.countList, OpenBatch) == 0;
  }

  // ---------------------------------------------------------------------------------------
  // Keyboard

  datatype Key = Space | Escape | OtherKey

  /** The handler a key press runs. */
  datatype Action = NoAction | Enter | Start | Stop | Continue | Quit

  /** `listenKeyboard`: Escape quits a revealed round, Space moves the round on by status,
      anything else does nothing. */
  function KeyAction(key: Key, currentStatus: int, canOperate: bool): (a: Action)
    ensures a == Quit <==> key == Escape && currentStatus == REVEALED
    ensures a == Enter <==> key == Space && currentStatus == IDLE
    ensures a == Start <==> key == Space && currentStatus == SPINNING
    ensures a == Stop <==> key == Space && currentStatus == DRAWING
    ensures a == Continue <==> key == Space && currentStatus == REVEALED
  {
    if key != Space && key != Escape && !canOperate then NoAction
    else if key == Escape && currentStatus == REVEALED then Quit
    else if key != Space then NoAction
    else if currentStatus == IDLE then Enter
    else if currentStatus == SPINNING then Start
    else if currentStatus == DRAWING then Stop
    else if currentStatus == REVEALED then Continue
    else NoAction
  }

  /** The listener's own `canOperate` test never decides anything: the keys it stops do
      nothing anyway, and each handler tests `canOperate` itself. */
  lemma KeyActionIgnoresCanOperate(key: Key, currentStatus: int)
    ensures KeyAction(key, currentStatus, true) == KeyAction(key, currentStatus, false)
  {
  }

  // ---------------------------------------------------------------------------------------
  // The page

  /** Whether `startLottery` goes ahead, and if not which check stopped it. */
  datatype StartOutcome = Ignored | Over | NotEnough | Started

  /** The checks of `startLottery`, in order: the `canOperate` gate, a missing or used-up
      prize ("The lottery is over"), and a pool smaller than what the prize still needs. */
  function StartCheck(canOperate: bool, currentPrize: Option<Prize>, allPersonList: seq<Person>): (o: StartOutcome)
    ensures o == Started ==> (canOperate && currentPrize.Some? && !currentPrize.value.isUsed
      && |Pool(currentPrize.value, allPersonList)| >= currentPrize.value.count - currentPrize.value.isUsedCount)
    ensures o == Ignored <==> !canOperate
    ensures o == Over <==> canOperate && (currentPrize.None? || currentPrize.value.isUsed)
  {
    if !canOperate then Ignored
    else if currentPrize.None? || currentPrize.value.isUsed then Over
    else if |Pool(currentPrize.value, allPersonList)| < currentPrize.value.count - currentPrize.value.isUsedCount then NotEnough
    else Started
  }

  /** A round that passes the checks and is sized by what the prize still needs is drawn in
      full: the pool does not run out. */
  lemma StartedRoundIsFull(prize: Prize, allPersonList: seq<Person>, draws: seq<nat>)
    requires StartCheck(true, Some(prize), allPersonList) == Started
    requires Leftover(prize) == prize.count - prize.isUsedCount
    requires |draws| >= MAX_ROUND
    ensures var n := RoundSize(prize);
      |Drawn(Pool(prize, allPersonList), if n > 0 then n else 0, draws).winners| == if n > 0 then n else 0
  {
  }

  class DrawPage {
    /** 0 idle table, 1 spinning sphere, 2 drawing, 3 winners revealed. */
    var currentStatus: int
    /** The gate every handler tests; cleared while an animation runs. */
    var canOperate: bool
    /** The winners of the current round. */
    var luckyTargets: seq<Person>
    /** The card indices the revealed winners occupy. */
    var luckyCardList: seq<int>
    /** The size of the current round. */
    var luckyCount: int
    /** The sphere transform of `enterLottery` is running. */
    var transformPending: bool
    /** The reveal tweens of `stopLottery` are running. */
    var revealPending: bool
    /** The number of cards on the table (`tableData.length`). */
    const tableLength: nat

    predicate Valid()
      reads this
    {
      IDLE <= currentStatus <= REVEALED && luckyCount <= MAX_ROUND
    }

    constructor (tableLength: nat)
      ensures Valid()
      ensures currentStatus == IDLE && canOperate && luckyTargets == [] && luckyCardList == []
      ensures luckyCount == MAX_ROUND && !transformPending && !revealPending
      ensures this.tableLength == tableLength
    {
      currentStatus := IDLE;
      canOperate := true;
      luckyTargets := [];
      luckyCardList := [];
      luckyCount := MAX_ROUND;
      transformPending := false;
      revealPending := false;
      this.tableLength := tableLength;
    }

    /** `enterLottery`: close the gate and start the transform to the sphere; the rest of the
        handler runs when the transform settles. */
    method EnterLottery()
      requires Valid()
      modifies this
      ensures Valid()
      ensures !old(canOperate) ==> unchanged(this)
      ensures old(canOperate) ==> (!canOperate && transformPending
        && currentStatus == old(currentStatus) && luckyTargets == old(luckyTargets)
        && luckyCardList == old(luckyCardList) && luckyCount == old(luckyCount) && revealPending == old(revealPending))
    {
      if !canOperate {
        return;
      }
      canOperate := false;
      transformPending := true;
    }

    /** The transform settles: each card's rotation tween clears the round and reopens the
        gate, the synchronisation tween reopens it too, and `enterLottery` resumes with
        status 1. */
    method TransformSettled()
      requires Valid()
      modifies this
      ensures Valid()
      ensures !old(transformPending) ==> unchanged(this)
      ensures old(transformPending) ==> (canOperate && !transformPending && currentStatus == SPINNING
        && luckyCount == old(luckyCount) && revealPending == old(revealPending)
        && (tableLength > 0 ==> luckyTargets == [] && luckyCardList == [])
        && (tableLength == 0 ==> luckyTargets == old(luckyTargets) && luckyCardList == old(luckyCardList)))
    {
      if !transformPending {
        return;
      }
      if tableLength > 0 {
        luckyTargets := [];
        luckyCardList := [];
      }
      canOperate := true;
      transformPending := false;
      currentStatus := SPINNING;
    }

    /** `startLottery(currentPrize, ...)` over `allPersonList`, with the draw loop's random
        indices `draws`. */
    method StartLottery(currentPrize: Option<Prize>, allPersonList: seq<Person>, draws: seq<nat>)
      returns (outcome: StartOutcome)
      requires Valid()
      requires |draws| >= MAX_ROUND
      modifies this
      ensures Valid()
      ensures outcome == StartCheck(old(canOperate), currentPrize, allPersonList)
      ensures outcome != Started ==> unchanged(this)
      ensures outcome == Started ==>
        var n := RoundSize(currentPrize.value);
        currentStatus == DRAWING && luckyCount == n
        && luckyTargets == Drawn(Pool(currentPrize.value, allPersonList), if n > 0 then n else 0, draws).winners
      ensures outcome == Started ==>
        canOperate == old(canOperate) && luckyCardList == old(luckyCardList)
        && transformPending == old(transformPending) && revealPending == old(revealPending)
    {
      // The gate, the used-up prize and the short pool, checked in that order.
      outcome := StartCheck(canOperate, currentPrize, allPersonList);
      if outcome != Started {
        return;
      }
      var prize := currentPrize.value;
      var personPool := Pool(prize, allPersonList);
      var newLuckyCount, newLuckyTargets := DrawRound(prize, personPool, draws);
      luckyCount := newLuckyCount;
      luckyTargets := newLuckyTargets;
      currentStatus := DRAWING;
    }

    /** `stopLottery`, winner `i` choosing a card with the draws `draws[i]`: the gate closes,
        each winner's card is appended to the list and its reveal tween starts. `finished` is
        false when a choice would retry for ever (the handler never returns). */
    method StopLottery(draws: seq<seq<int>>) returns (finished: bool)
      requires Valid()
      requires |draws| >= |luckyTargets| && CardDraws(draws, tableLength)
      modifies this
      ensures Valid()
      ensures !old(canOperate) ==> finished && unchanged(this)
      ensures old(canOperate) ==> (!canOperate && currentStatus == old(currentStatus)
        && luckyTargets == old(luckyTargets) && luckyCount == old(luckyCount) && transformPending == old(transformPending))
      ensures old(canOperate) ==>
        var cards := StaleCards(old(luckyCardList), tableLength, old(luckyTargets), draws);
        (finished <==> cards.Some?)
        && (finished ==> luckyCardList == old(luckyCardList) + cards.value
                         && revealPending == (old(revealPending) || |luckyTargets| > 0))
        && (!finished ==> luckyCardList == old(luckyCardList) && revealPending == old(revealPending))
    {
      if !canOperate {
        return true;
      }
      canOperate := false;
      var cards := PickCards(luckyCardList, tableLength, luckyTargets, draws);
      if cards.None? {
        return false;
      }
      // The queued `setLuckyCardList` updaters, applied in order.
      luckyCardList := luckyCardList + cards.value;
      revealPending := revealPending || |luckyTargets| > 0;
      finished := true;
    }

    /** The reveal tweens settle: the gate reopens and the winners show, status 3. */
    method RevealSettled()
      requires Valid()
      modifies this
      ensures Valid()
      ensures !old(revealPending) ==> unchanged(this)
      ensures old(revealPending) ==> (canOperate && !revealPending && currentStatus == REVEALED
        && luckyTargets == old(luckyTargets) && luckyCardList == old(luckyCardList)
        && luckyCount == old(luckyCount) && transformPending == old(transformPending))
    {
      if !revealPending {
        return;
      }
      canOperate := true;
      currentStatus := REVEALED;
      revealPending := false;
    }

    /** `continueLottery`: commit the round into the store's current prize, record the winners
        in the person store, let the prize store move on, and enter the next round. Reading
        the batches of a missing prize throws (`thrown`) before anything changes. */
    method ContinueLottery(prizeStore: PrizeStore, personStore: PersonStore, now: string)
      returns (thrown: bool)
      requires Valid()
      modifies this, prizeStore, personStore
      ensures Valid()
      ensures !old(canOperate) || old(prizeStore.currentPrize).None? ==>
        thrown == (old(canOperate) && old(prizeStore.currentPrize).None?)
        && unchanged(this) && unchanged(prizeStore) && unchanged(personStore)
      ensures old(canOperate) && old(prizeStore.currentPrize).Some? ==>
        !thrown && luckyCount == 0 && !canOperate && transformPending
        && currentStatus == old(currentStatus) && luckyTargets == old(luckyTargets)
        && luckyCardList == old(luckyCardList) && revealPending == old(revealPending)
      ensures old(canOperate) && old(prizeStore.currentPrize).Some? ==>
        var np := CommittedPrize(old(prizeStore.currentPrize).value, old(luckyCount));
        personStore.alreadyPersonList == old(personStore.alreadyPersonList) + old(luckyTargets)
        && |personStore.allPersonList| == |old(personStore.allPersonList)|
        && forall i :: 0 <= i < |personStore.allPersonList| ==>
             personStore.allPersonList[i] == Awarded(old(personStore.allPersonList)[i], old(luckyTargets), Some(np), now)
      ensures old(canOperate) && old(prizeStore.currentPrize).Some? ==>
        var np := CommittedPrize(old(prizeStore.currentPrize).value, old(luckyCount));
        |prizeStore.prizeList| == |old(prizeStore.prizeList)|
        && (forall i :: 0 <= i < |prizeStore.prizeList| ==>
             prizeStore.prizeList[i] == if i == IndexOfId(old(prizeStore.prizeList), np.id) then np else old(prizeStore.prizeList)[i])
        && prizeStore.currentPrize ==
             if np.isUsed && |prizeStore.prizeList| > 0 && NextPrize(prizeStore.prizeList, np.id).Some?
             then NextPrize(prizeStore.prizeList, np.id) else Some(np)
      ensures old(canOperate) && old(prizeStore.currentPrize).Some? ==>
        var np := CommittedPrize(old(prizeStore.currentPrize).value, old(luckyCount));
        var t := old(prizeStore.temporaryPrize);
        prizeStore.temporaryPrize ==
          if t.isShow && np.isUsed && |prizeStore.prizeList| > 0 && np.isShow then InitialTemporaryPrize
          else if t.isShow then np
          else t
    {
      if !canOperate {
        return false;
      }
      if prizeStore.currentPrize.None? {
        return true;
      }
      var currentPrize := prizeStore.currentPrize.value;
      var newCurrentPrize := CommittedPrize(currentPrize, luckyCount);
      prizeStore.SetCurrentPrize(newCurrentPrize);
      luckyCount := 0;
      personStore.AddAlreadyPersonList(luckyTargets, Some(newCurrentPrize), now);
      prizeStore.UpdatePrizeConfig(newCurrentPrize);
      EnterLottery();
      thrown := false;
    }

    /** `quitLottery`: enter again, then status 0 (the entered transform still ends in
        status 1 when it settles). */
    method QuitLottery()
      requires Valid()
      modifies this
      ensures Valid()
      ensures currentStatus == IDLE
      ensures canOperate == false && transformPending == (old(canOperate) || old(transformPending))
      ensures luckyTargets == old(luckyTargets) && luckyCardList == old(luckyCardList)
      ensures luckyCount == old(luckyCount) && revealPending == old(revealPending)
    {
      EnterLottery();
      currentStatus := IDLE;
    }
  }
}
