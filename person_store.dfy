/** The participant store (src/store/person.ts): the list of everybody, the list of winners in
    the order they were drawn, the win records, and the selectors the draw uses to build its
    pool. */
module PersonStore {

  import opened Wrappers
  import opened Entities
  import opened Lists
  import HomeUtil

  /** `!person.id`: ids are numbers, and 0 is falsy. */
  predicate FalsyId(id: int)
  {
    id == 0
  }

  /** `list.filter(item => item.id !== id)`. */
  function WithoutId(list: seq<Person>, id: int): seq<Person>
  {
    Filter(list, (p: Person) => p.id != id)
  }

  /** A person with an empty win record. */
  function ClearWin(p: Person): Person
  {
    p.(isWin := false, prizeName := [], prizeTime := [], prizeId := [])
  }

  function ClearIfId(p: Person, id: int): Person
  {
    if p.id == id then ClearWin(p) else p
  }

  /** What the inner loop of `addAlreadyPersonList` does to `item` for one drawn `person`. */
  function Hit(item: Person, person: Person, prize: Option<Prize>, now: string): Person
  {
    if item.id == person.id && prize.Some? then
      item.(isWin := true, prizeName := item.prizeName + [prize.value.name],
            prizeTime := item.prizeTime + [now], prizeId := item.prizeId + [prize.value.id])
    else item
  }

  /** `item` after the drawn people `persons` have been processed in order. */
  function Awarded(item: Person, persons: seq<Person>, prize: Option<Prize>, now: string): Person
  {
    if persons == [] then item
    else Hit(Awarded(item, persons[..|persons| - 1], prize, now), persons[|persons| - 1], prize, now)
  }

  /** How many of `persons` carry the id `id`. */
  function CountId(persons: seq<Person>, id: int): nat
  {
    if persons == [] then 0
    else CountId(persons[..|persons| - 1], id) + if persons[|persons| - 1].id == id then 1 else 0
  }

  /** `n` copies of `x`. */
  function Copies(x: string, n: nat): seq<string>
  {
    if n == 0 then [] else Copies(x, n - 1) + [x]
  }

  /** The closed form of a win record: an item matched by `k` drawn people gets `k` entries in
      each of its three lists and is marked a winner; with no prize nothing changes. */
  lemma {:induction false} AwardedRecord(item: Person, persons: seq<Person>, prize: Option<Prize>, now: string)
    ensures var k := CountId(persons, item.id);
      Awarded(item, persons, prize, now)
        == if prize.None? || k == 0 then item
           else item.(isWin := true,
                      prizeName := item.prizeName + Copies(prize.value.name, k),
                      prizeTime := item.prizeTime + Copies(now, k),
                      prizeId := item.prizeId + Copies(prize.value.id, k))
  {
    if persons != [] {
      var front := persons[..|persons| - 1];
      AwardedRecord(item, front, prize, now);
      var k := CountId(front, item.id);
      if prize.Some? && k > 0 {
        assert Awarded(item, front, prize, now).id == item.id;
        var p := prize.value;
        assert item.prizeName + Copies(p.name, k) + [p.name] == item.prizeName + Copies(p.name, k + 1);
        assert item.prizeTime + Copies(now, k) + [now] == item.prizeTime + Copies(now, k + 1);
        assert item.prizeId + Copies(p.id, k) + [p.id] == item.prizeId + Copies(p.id, k + 1);
      }
    }
  }

  lemma {:induction false} CopiesLength(x: string, n: nat)
    ensures |Copies(x, n)| == n
  {
    if n > 0 {
      CopiesLength(x, n - 1);
    }
  }

  /** The three lists of a win record grow together: if they had the same length before a
      round, they have the same length after it. */
  lemma AwardedKeepsRecordAligned(item: Person, persons: seq<Person>, prize: Option<Prize>, now: string)
    requires |item.prizeName| == |item.prizeTime| == |item.prizeId|
    ensures var a := Awarded(item, persons, prize, now);
      |a.prizeName| == |a.prizeTime| == |a.prizeId|
  {
    AwardedRecord(item, persons, prize, now);
    var k := CountId(persons, item.id);
    if prize.Some? {
      CopiesLength(prize.value.name, k);
      CopiesLength(now, k);
      CopiesLength(prize.value.id, k);
    }
  }

  lemma {:induction false} CopiesHas(x: string, n: nat)
    requires n > 0
    ensures x in Copies(x, n)
  {
  }

  /** A person won the prize in this round leaves the not-this-prize pool of that prize. */
  lemma AwardedLeavesPool(item: Person, persons: seq<Person>, prize: Prize, now: string)
    requires CountId(persons, item.id) > 0
    ensures prize.id in Awarded(item, persons, Some(prize), now).prizeId
    ensures Awarded(item, persons, Some(prize), now).isWin
  {
    AwardedRecord(item, persons, Some(prize), now);
    CopiesHas(prize.id, CountId(persons, item.id));
  }

  // ---------------------------------------------------------------------------------------
  // Selectors

  /** `getNotPersonList`: the people with `isWin === false`. */
  function NotPersonList(allPersonList: seq<Person>): (r: seq<Person>)
    ensures forall p :: p in r <==> p in allPersonList && !p.isWin
  {
    Filter(allPersonList, (p: Person) => !p.isWin)
  }

  /** `getAlreadyPersonList`: the people with `isWin === true`. */
  function AlreadyPersonList(allPersonList: seq<Person>): (r: seq<Person>)
    ensures forall p :: p in r <==> p in allPersonList && p.isWin
  {
    Filter(allPersonList, (p: Person) => p.isWin)
  }

  /** `getNotThisPrizePersonList`, given the id of the store's current prize. */
  function NotThisPrizePersonList(allPersonList: seq<Person>, currentPrizeId: string): (r: seq<Person>)
    ensures forall p :: p in r <==> p in allPersonList && currentPrizeId !in p.prizeId
  {
    Filter(allPersonList, (p: Person) => currentPrizeId !in p.prizeId)
  }

  /** The winners and the others split the list of everybody between them. */
  lemma SelectorsPartition(allPersonList: seq<Person>)
    ensures multiset(AlreadyPersonList(allPersonList)) + multiset(NotPersonList(allPersonList)) == multiset(allPersonList)
    ensures |AlreadyPersonList(allPersonList)| + |NotPersonList(allPersonList)| == |allPersonList|
  {
    FilterPartition(allPersonList, (p: Person) => p.isWin, (p: Person) => !p.isWin);
  }

  /** The first person an import creates has id 0, which the guards of `deletePerson` and
      `moveAlreadyToNot` take for a missing id: `WithoutId` would remove that person, the guard
      keeps it. */
  lemma FirstImportedPersonHasFalsyId(p: Person, now: string, rest: seq<Person>)
    ensures var first := HomeUtil.FreshRecord(p, 0, now);
      FalsyId(first.id) && first in [first] + rest && first !in WithoutId([first] + rest, first.id)
  {
  }

  // ---------------------------------------------------------------------------------------
  // The store

  class PersonStore {
    var allPersonList: seq<Person>
    var alreadyPersonList: seq<Person>

    /** `initialState`. */
    constructor ()
      ensures allPersonList == [] && alreadyPersonList == []
    {
      allPersonList := [];
      alreadyPersonList := [];
    }

    /** `addNotPersonList`: append the people in order. */
    method AddNotPersonList(personList: seq<Person>)
      modifies this
      ensures allPersonList == old(allPersonList) + personList
      ensures alreadyPersonList == old(alreadyPersonList)
    {
      if |personList| <= 0 {
        return;
      }
      for i := 0 to |personList|
        invariant allPersonList == old(allPersonList) + personList[..i]
        invariant alreadyPersonList == old(alreadyPersonList)
      {
        allPersonList := allPersonList + [personList[i]];
        assert personList[..i + 1] == personList[..i] + [personList[i]];
      }
      assert personList[..|personList|] == personList;
    }

    /** `addAlreadyPersonList(personList, prize)`, with the time text `now`: every entry of the
        list of everybody with the id of a drawn person gets the prize in its record (when there
        is a prize), and every drawn person is appended to the winners. */
    method AddAlreadyPersonList(personList: seq<Person>, prize: Option<Prize>, now: string)
      modifies this
      ensures |allPersonList| == |old(allPersonList)|
      ensures forall i :: 0 <= i < |allPersonList| ==>
        allPersonList[i] == Awarded(old(allPersonList)[i], personList, prize, now)
      ensures alreadyPersonList == old(alreadyPersonList) + personList
    {
      if |personList| <= 0 {
        return;
      }
      for j := 0 to |personList|
        invariant |allPersonList| == |old(allPersonList)|
        invariant forall i :: 0 <= i < |allPersonList| ==>
          allPersonList[i] == Awarded(old(allPersonList)[i], personList[..j], prize, now)
        invariant alreadyPersonList == old(alreadyPersonList) + personList[..j]
      {
        var person := personList[j];
        assert personList[..j + 1][..j] == personList[..j];
        for i := 0 to |allPersonList|
          invariant |allPersonList| == |old(allPersonList)|
          invariant forall k :: 0 <= k < i ==>
            allPersonList[k] == Awarded(old(allPersonList)[k], personList[..j + 1], prize, now)
          invariant forall k :: i <= k < |allPersonList| ==>
            allPersonList[k] == Awarded(old(allPersonList)[k], personList[..j], prize, now)
          invariant alreadyPersonList == old(alreadyPersonList) + personList[..j]
        {
          var item := allPersonList[i];
          if item.id == person.id && prize.Some? {
            allPersonList := allPersonList[i := item.(isWin := true,
              prizeName := item.prizeName + [prize.value.name],
              prizeTime := item.prizeTime + [now],
              prizeId := item.prizeId + [prize.value.id])];
          }
        }
        alreadyPersonList := alreadyPersonList + [person];
        assert personList[..j + 1] == personList[..j] + [person];
      }
      assert personList[..|personList|] == personList;
    }

    /** `moveAlreadyToNot` as written: a falsy id, 0 included, changes nothing. */
    method MoveAlreadyToNot(person: Person)
      modifies this
      ensures FalsyId(person.id) ==> allPersonList == old(allPersonList) && alreadyPersonList == old(alreadyPersonList)
      ensures !FalsyId(person.id) ==> (|allPersonList| == |old(allPersonList)|
        && (forall i :: 0 <= i < |allPersonList| ==> allPersonList[i] == ClearIfId(old(allPersonList)[i], person.id))
        && alreadyPersonList == WithoutId(old(alreadyPersonList), person.id))
    {
      if FalsyId(person.id) {
        return;
      }
      MoveById(person.id);
    }

    /** `moveAlreadyToNot` without the falsy-id guard: the people with id `id` get an empty win
        record and leave the winners. */
    method MoveById(id: int)
      modifies this
      ensures |allPersonList| == |old(allPersonList)|
      ensures forall i :: 0 <= i < |allPersonList| ==> allPersonList[i] == ClearIfId(old(allPersonList)[i], id)
      ensures alreadyPersonList == WithoutId(old(alreadyPersonList), id)
    {
      for i := 0 to |allPersonList|
        invariant |allPersonList| == |old(allPersonList)|
        invariant forall k :: 0 <= k < i ==> allPersonList[k] == ClearIfId(old(allPersonList)[k], id)
        invariant forall k :: i <= k < |allPersonList| ==> allPersonList[k] == old(allPersonList)[k]
        invariant alreadyPersonList == old(alreadyPersonList)
      {
        if allPersonList[i].id == id {
          allPersonList := allPersonList[i := ClearWin(allPersonList[i])];
        }
      }
      alreadyPersonList := WithoutId(alreadyPersonList, id);
    }

    /** `deletePerson` as written: a falsy id, 0 included, changes nothing. */
    method DeletePerson(person: Person)
      modifies this
      ensures FalsyId(person.id) ==> allPersonList == old(allPersonList) && alreadyPersonList == old(alreadyPersonList)
      ensures !FalsyId(person.id) ==> (allPersonList == WithoutId(old(allPersonList), person.id)
        && alreadyPersonList == WithoutId(old(alreadyPersonList), person.id))
    {
      if FalsyId(person.id) {
        return;
      }
      DeleteById(person.id);
    }

    /** `deletePerson` without the falsy-id guard: every entry with id `id` leaves both lists,
        the others keep their order. */
    method DeleteById(id: int)
      modifies this
      ensures allPersonList == WithoutId(old(allPersonList), id)
      ensures alreadyPersonList == WithoutId(old(alreadyPersonList), id)
      ensures forall p :: p in allPersonList ==> p.id != id
      ensures forall p :: p in alreadyPersonList ==> p.id != id
    {
      allPersonList := WithoutId(allPersonList, id);
      alreadyPersonList := WithoutId(alreadyPersonList, id);
    }

    /** `deleteAllPerson`, `resetPerson` and `reset` (whose initial state has both lists empty):
        both lists emptied. */
    method DeleteAllPerson()
      modifies this
      ensures allPersonList == [] && alreadyPersonList == []
    {
      allPersonList := [];
      alreadyPersonList := [];
    }

    /** `resetAlreadyPerson`: every win record emptied, nobody a winner. */
    method ResetAlreadyPerson()
      modifies this
      ensures |allPersonList| == |old(allPersonList)|
      ensures forall i :: 0 <= i < |allPersonList| ==> allPersonList[i] == ClearWin(old(allPersonList)[i])
      ensures alreadyPersonList == []
    {
      for i := 0 to |allPersonList|
        invariant |allPersonList| == |old(allPersonList)|
        invariant forall k :: 0 <= k < i ==> allPersonList[k] == ClearWin(old(allPersonList)[k])
        invariant forall k :: i <= k < |allPersonList| ==> allPersonList[k] == old(allPersonList)[k]
      {
        allPersonList := allPersonList[i := ClearWin(allPersonList[i])];
      }
      alreadyPersonList := [];
    }

    /** `setDefaultPersonList`, given the default list of the data file. */
    method SetDefaultPersonList(defaultPersonList: seq<Person>)
      modifies this
      ensures allPersonList == defaultPersonList && alreadyPersonList == []
    {
      allPersonList := defaultPersonList;
      alreadyPersonList := [];
    }
  }

  /** After `resetAlreadyPerson` nobody is a winner. */
  lemma ClearedNobodyWins(before: seq<Person>, after: seq<Person>)
    requires |after| == |before| && forall i :: 0 <= i < |after| ==> after[i] == ClearWin(before[i])
    ensures AlreadyPersonList(after) == [] && NotPersonList(after) == after
  {
    FilterKeepsAll(after, (p: Person) => !p.isWin);
    FilterKeepsNone(after, (p: Person) => p.isWin);
  }
}
