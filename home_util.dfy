/** The table bookkeeping of the home page (src/pages/home/home-util.ts): grid coordinates,
    fresh win records for imported people, the choice of a free card for a winner, and the
    table of `rowCount * 7` cards cycled from the person list. */
module HomeUtil {

  import opened Wrappers
  import opened Entities

  /** Number of card rows on the table layout. */
  const TABLE_ROWS := 7

  /** The grid cell of card `i` when a row holds `rowCount` cards. */
  function GridX(i: nat, rowCount: int): int
    requires rowCount >= 1
  {
    i % rowCount + 1
  }

  function GridY(i: nat, rowCount: int): int
    requires rowCount >= 1
  {
    i / rowCount + 1
  }

  /** Card `i` of the table once `filterData` has placed it. */
  function Placed(p: Person, i: nat, rowCount: int): Person
    requires rowCount >= 1
  {
    p.(x := GridX(i, rowCount), y := GridY(i, rowCount), id := i)
  }

  lemma {:induction false} CeilDivStep(i: nat, n: int)
    requires n >= 1
    ensures (i + n - 1) / n == if i % n == 0 then i / n else i / n + 1
    ensures (i + n) / n == i / n + 1
  {
    var q, r := i / n, i % n;
    assert i == q * n + r;
    if r == 0 {
      assert i + n - 1 == q * n + (n - 1);
      DivUnique(i + n - 1, n, q, n - 1);
    } else {
      assert i + n - 1 == (q + 1) * n + (r - 1);
      DivUnique(i + n - 1, n, q + 1, r - 1);
    }
    assert i + n == (q + 1) * n + r;
    DivUnique(i + n, n, q + 1, r);
  }

  lemma DivUnique(a: int, n: int, q: int, r: int)
    requires n >= 1 && 0 <= r < n && a == q * n + r
    ensures a / n == q && a % n == r
  {
    var q', r' := a / n, a % n;
    assert a == q' * n + r';
    Distribute(q, q', n);
    if q > q' {
      MulAtLeast(q - q', n);
    } else if q < q' {
      MulAtLeast(q' - q, n);
    }
  }

  lemma Distribute(q: int, q': int, n: int)
    ensures q * n - q' * n == (q - q') * n
  {
  }

  lemma {:induction false} MulAtLeast(d: int, n: int)
    requires d >= 1 && n >= 1
    ensures d * n >= n
    decreases d
  {
    if d > 1 {
      MulAtLeast(d - 1, n);
      assert d * n == (d - 1) * n + n;
    }
  }

  /** `filterData`: card `i` gets column `i % rowCount + 1`, row `i / rowCount + 1` and id `i`;
      the row counter `j` goes up whenever a new row starts. */
  method FilterData(tableData: array<Person>, rowCount: int)
    requires rowCount >= 1 || tableData.Length == 0
    modifies tableData
    ensures forall i :: 0 <= i < tableData.Length ==>
      tableData[i] == Placed(old(tableData[i]), i, rowCount)
  {
    var j := 0;
    for i := 0 to tableData.Length
      invariant rowCount >= 1 ==> j == (i + rowCount - 1) / rowCount
      invariant forall k :: 0 <= k < i ==> tableData[k] == Placed(old(tableData[k]), k, rowCount)
      invariant forall k :: i <= k < tableData.Length ==> tableData[k] == old(tableData[k])
    {
      CeilDivStep(i, rowCount);
      if i % rowCount == 0 {
        j := j + 1;
      }
      tableData[i] := tableData[i].(x := (i % rowCount) + 1, y := j, id := i);
    }
  }

  /** Two different cards never share a grid cell. */
  lemma {:induction false} GridCellsDistinct(i: nat, j: nat, rowCount: int)
    requires rowCount >= 1 && i != j
    ensures (GridX(i, rowCount), GridY(i, rowCount)) != (GridX(j, rowCount), GridY(j, rowCount))
  {
  }

  /** A freshly imported person: `addOtherInfo` numbers it, stamps both times with `now` and
      clears its win record. */
  function FreshRecord(p: Person, i: nat, now: string): (q: Person)
    ensures q.uid == p.uid && q.name == p.name && q.department == p.department
            && q.identity == p.identity && q.x == p.x && q.y == p.y
    ensures !q.isWin && q.prizeName == q.prizeTime == q.prizeId == [] && q.id == i
    ensures q.createTime == q.updateTime == now
  {
    p.(id := i, createTime := now, updateTime := now,
       prizeName := [], prizeTime := [], prizeId := [], isWin := false)
  }

  /** `addOtherInfo`, with the wall-clock text `now` that the source formats with dayjs. */
  method AddOtherInfo(personList: array<Person>, now: string)
    modifies personList
    ensures forall i :: 0 <= i < personList.Length ==>
      personList[i] == FreshRecord(old(personList[i]), i, now)
  {
    for i := 0 to personList.Length
      invariant forall k :: 0 <= k < i ==> personList[k] == FreshRecord(old(personList[k]), k, now)
      invariant forall k :: i <= k < personList.Length ==> personList[k] == old(personList[k])
    {
      personList[i] := personList[i].(id := i, createTime := now, updateTime := now);
      personList[i] := personList[i].(prizeName := [], prizeTime := [], prizeId := []);
      personList[i] := personList[i].(isWin := false);
    }
  }

  /** Every value `Math.round(Math.random() * (tableLength - 1))` can take. */
  predicate IsCardDraw(d: int, tableLength: int)
  {
    0 <= d < tableLength
  }

  /** `selectCard`: draw a card index and retry while it is in `cardIndexArr`. The random draws
      are the sequence `draws`; `None` means the draws ran out before a free card came up, that
      is, the source would still be retrying. `personId` is not read. */
  function SelectCard(cardIndexArr: seq<int>, tableLength: int, personId: int, draws: seq<int>)
    : (r: Option<int>)
    requires forall k :: 0 <= k < |draws| ==> IsCardDraw(draws[k], tableLength)
    ensures r.Some? ==> 0 <= r.value < tableLength && r.value !in cardIndexArr
    ensures r.Some? ==> exists k :: (0 <= k < |draws| && draws[k] == r.value
      && forall j :: 0 <= j < k ==> draws[j] in cardIndexArr)
    ensures r.None? <==> forall k :: 0 <= k < |draws| ==> draws[k] in cardIndexArr
  {
    if draws == [] then None
    else if draws[0] in cardIndexArr then
      var r := SelectCard(cardIndexArr, tableLength, personId, draws[1..]);
      assert r.Some? ==> forall k :: 1 <= k < |draws| ==> draws[k] == draws[1..][k - 1];
      r
    else
      assert IsCardDraw(draws[0], tableLength);
      Some(draws[0])
  }

  /** When every card is taken, no sequence of draws ends the retry: the source does not
      terminate. */
  lemma SelectCardFullTable(cardIndexArr: seq<int>, tableLength: int, personId: int, draws: seq<int>)
    requires forall k :: 0 <= k < |draws| ==> IsCardDraw(draws[k], tableLength)
    requires forall c :: 0 <= c < tableLength ==> c in cardIndexArr
    ensures SelectCard(cardIndexArr, tableLength, personId, draws) == None
  {
  }

  /** The person id plays no part in the choice. */
  lemma SelectCardIgnoresPerson(cardIndexArr: seq<int>, tableLength: int, p: int, q: int, draws: seq<int>)
    requires forall k :: 0 <= k < |draws| ==> IsCardDraw(draws[k], tableLength)
    ensures SelectCard(cardIndexArr, tableLength, p, draws) == SelectCard(cardIndexArr, tableLength, q, draws)
  {
  }

  lemma {:induction false} ModOfShift(i: nat, n: nat, m: nat)
    requires m < n
    ensures (i * n + m) % n == m
  {
    DivUnique(i * n + m, n, i, m);
  }

  /** `initTableData`: no people gives no cards; otherwise exactly `rowCount * 7` cards, card `k`
      a copy of person `k mod |allPersonList|` placed in grid cell `k`. The person list itself is
      a value here, so it cannot be changed (the source deep-copies it with JSON). */
  method InitTableData(allPersonList: seq<Person>, rowCount: int) returns (table: seq<Person>)
    requires rowCount >= 0
    ensures allPersonList == [] ==> table == []
    ensures allPersonList != [] ==> |table| == rowCount * TABLE_ROWS
    ensures allPersonList != [] && rowCount >= 1 ==> forall k :: 0 <= k < |table| ==>
      table[k] == Placed(allPersonList[k % |allPersonList|], k, rowCount)
  {
    if |allPersonList| <= 0 {
      return [];
    }
    var totalCount := rowCount * TABLE_ROWS;
    var originPersonData := allPersonList;
    var originPersonLength := |originPersonData|;
    var newTableData: seq<Person> := [];
    if originPersonLength < totalCount {
      var repeatCount := (totalCount + originPersonLength - 1) / originPersonLength;
      CeilCovers(totalCount, originPersonLength);
      newTableData := Repeat(originPersonData, repeatCount);
    } else {
      newTableData := originPersonData[..totalCount];
      forall k | 0 <= k < totalCount
        ensures newTableData[k] == originPersonData[k % originPersonLength]
      {
        ModOfShift(0, originPersonLength, k);
      }
    }
    assert |newTableData| >= totalCount;
    var sliced := newTableData[..totalCount];
    assert forall k :: 0 <= k < |sliced| ==> sliced[k] == allPersonList[k % |allPersonList|];
    var cards := new Person[|sliced|](k requires 0 <= k < |sliced| => sliced[k]);
    FilterData(cards, rowCount);
    table := cards[..];
  }

  /** The `concat` loop of `initTableData`: `repeatCount` copies of `origin` one after another. */
  method Repeat(origin: seq<Person>, repeatCount: nat) returns (r: seq<Person>)
    requires origin != []
    ensures |r| == repeatCount * |origin|
    ensures forall k :: 0 <= k < |r| ==> r[k] == origin[k % |origin|]
  {
    r := [];
    for i := 0 to repeatCount
      invariant |r| == i * |origin|
      invariant forall k :: 0 <= k < |r| ==> r[k] == origin[k % |origin|]
    {
      var before := r;
      r := r + origin;
      forall k | i * |origin| <= k < |r|
        ensures r[k] == origin[k % |origin|]
      {
        ModOfShift(i, |origin|, k - i * |origin|);
      }
    }
  }

  lemma CeilCovers(total: nat, n: nat)
    requires n >= 1
    ensures ((total + n - 1) / n) * n >= total
  {
    CeilDivStep(total, n);
    var q, r := total / n, total % n;
    assert total == q * n + r;
    if r != 0 {
      assert (q + 1) * n == q * n + n;
    }
  }
}
