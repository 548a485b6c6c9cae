/** The row transformation of the person page's export (src/pages/config/person/person-all.tsx,
    `exportData`): each person, in its JSON form, loses its layout and bookkeeping columns, gets
    its win flag and prize lists as text, and has its keys renamed to the sheet's column titles. */
module PersonExport {

  import opened Wrappers
  import opened Json

  /** The columns the export deletes. */
  const DroppedKeys: seq<string> := ["x", "y", "id", "createTime", "updateTime", "prizeId"]

  const Yes: string := "是"
  const No: string := "否"

  /** The keys `fieldMapping` has an entry for. */
  const MappedKeys: seq<string> := ["uid", "isWin", "department", "name", "identity", "prizeName", "prizeTime"]

  /** `fieldMapping[key] || key`: a mapped key gets its column title, any other is kept. */
  function Rename(key: string): (r: string)
    ensures key in MappedKeys ==> IsTitle(r)
    ensures key !in MappedKeys ==> r == key
  {
    if key == "uid" then "ID"
    else if key == "isWin" then "Is Winner"
    else if key == "department" then "Department"
    else if key == "name" then "Name"
    else if key == "identity" then "Identity"
    else if key == "prizeName" then "Prize Name"
    else if key == "prizeTime" then "Prize Time"
    else key
  }

  /** The column titles `fieldMapping` produces. */
  const Titles: seq<string> := ["ID", "Is Winner", "Department", "Name", "Identity", "Prize Name", "Prize Time"]

  predicate IsTitle(key: string)
  {
    key in Titles
  }

  /** Two different keys that are not themselves column titles never get the same name. */
  lemma RenameInjective(a: string, b: string)
    requires !IsTitle(a) && !IsTitle(b) && a != b
    ensures Rename(a) != Rename(b)
  {
  }

  /** The three properties the export rewrites are neither dropped nor column titles. */
  lemma KeptColumns()
    ensures "isWin" !in DroppedKeys && "prizeTime" !in DroppedKeys && "prizeName" !in DroppedKeys
    ensures !IsTitle("isWin") && !IsTitle("prizeTime") && !IsTitle("prizeName")
    ensures "isWin" != "prizeTime" && "isWin" != "prizeName" && "prizeTime" != "prizeName"
  {
  }

  /** The first `map`: delete the six columns, then `isWin` as yes/no and the prize lists
      joined with commas; `join` throws when a prize list is not an array, so cleaning fails
      exactly when one of the prize lists is not an array. */
  function CleanRow(item: Object): (r: Result<Object>)
    ensures r.Ok? <==> JoinOf(Get(item, "prizeTime")).Ok? && JoinOf(Get(item, "prizeName")).Ok?
  {
    KeptColumns();
    DropColumnsGet(item, "prizeTime");
    DropColumnsGet(item, "prizeName");
    var o1 := MarkWin(DropColumns(item));
    match JoinPrize(o1, "prizeTime")
    case Err(e) => Err(e)
    case Ok(o2) =>
      JoinPrizeGet(o1, "prizeTime", "prizeName");
      JoinPrize(o2, "prizeName")
  }

  /** The six `delete`s, in the order written: none of the six columns is left, and the
      row has not grown. */
  function DropColumns(item: Object): (r: Object)
    ensures Lacks(r, DroppedKeys)
    ensures |r| <= |item|
  {
    var o1 := Delete(item, "x");
    var o2 := Delete(o1, "y");
    var o3 := Delete(o2, "id");
    var o4 := Delete(o3, "createTime");
    var o5 := Delete(o4, "updateTime");
    DeleteKeepsLacks(item, "x", []);
    DeleteKeepsLacks(o1, "y", ["x"]);
    DeleteKeepsLacks(o2, "id", ["x", "y"]);
    DeleteKeepsLacks(o3, "createTime", ["x", "y", "id"]);
    DeleteKeepsLacks(o4, "updateTime", ["x", "y", "id", "createTime"]);
    DeleteKeepsLacks(o5, "prizeId", ["x", "y", "id", "createTime", "updateTime"]);
    assert ["x", "y", "id", "createTime", "updateTime"] + ["prizeId"] == DroppedKeys;
    Delete(o5, "prizeId")
  }

  /** The deletions bring in no key. */
  lemma DropColumnsShape(item: Object)
    ensures Lacks(item, Titles) ==> Lacks(DropColumns(item), Titles)
    ensures DistinctKeys(item) ==> DistinctKeys(DropColumns(item))
  {
    var o1 := Delete(item, "x");
    var o2 := Delete(o1, "y");
    var o3 := Delete(o2, "id");
    var o4 := Delete(o3, "createTime");
    var o5 := Delete(o4, "updateTime");
    if Lacks(item, Titles) {
      DeleteKeepsLacks(item, "x", Titles);
      DeleteKeepsLacks(o1, "y", Titles);
      DeleteKeepsLacks(o2, "id", Titles);
      DeleteKeepsLacks(o3, "createTime", Titles);
      DeleteKeepsLacks(o4, "updateTime", Titles);
      DeleteKeepsLacks(o5, "prizeId", Titles);
    }
    if DistinctKeys(item) {
      DeleteKeepsDistinct(item, "x");
      DeleteKeepsDistinct(o1, "y");
      DeleteKeepsDistinct(o2, "id");
      DeleteKeepsDistinct(o3, "createTime");
      DeleteKeepsDistinct(o4, "updateTime");
      DeleteKeepsDistinct(o5, "prizeId");
    }
  }

  /** The deletions leave every other property as it was. */
  lemma DropColumnsGet(item: Object, k: string)
    requires k !in DroppedKeys
    ensures Get(DropColumns(item), k) == Get(item, k)
  {
    var o1 := Delete(item, "x");
    var o2 := Delete(o1, "y");
    var o3 := Delete(o2, "id");
    var o4 := Delete(o3, "createTime");
    var o5 := Delete(o4, "updateTime");
    GetDelete(item, "x", k);
    GetDelete(o1, "y", k);
    GetDelete(o2, "id", k);
    GetDelete(o3, "createTime", k);
    GetDelete(o4, "updateTime", k);
    GetDelete(o5, "prizeId", k);
  }

  /** `newItem.isWin = newItem.isWin ? "是" : "否"`. */
  function MarkWin(o: Object): (r: Object)
    ensures Get(r, "isWin") == Some(WinText(Get(o, "isWin")))
    ensures forall k :: k != "isWin" ==> Get(r, k) == Get(o, k)
  {
    AssignGet(o, "isWin", WinText(Get(o, "isWin")));
    Assign(o, "isWin", WinText(Get(o, "isWin")))
  }

  /** `isWin ? "是" : "否"`. */
  function WinText(isWin: Option<Json>): Json
  {
    JStr(if Truthy(isWin) then Yes else No)
  }

  /** `newItem[key] = newItem[key].join(",")`. */
  function JoinPrize(o: Object, key: string): (r: Result<Object>)
    ensures r.Ok? <==> JoinOf(Get(o, key)).Ok?
  {
    match JoinOf(Get(o, key))
    case Err(e) => Err(e)
    case Ok(text) => Ok(Assign(o, key, JStr(text)))
  }

  /** A cleaned row: distinct keys, none of them dropped, none of them a column title. */
  predicate Proper(o: Object)
  {
    DistinctKeys(o) && Lacks(o, Titles) && Lacks(o, DroppedKeys)
  }

  lemma AssignKeepsProper(o: Object, key: string, value: Json)
    requires Proper(o) && !IsTitle(key) && key !in DroppedKeys
    ensures Proper(Assign(o, key, value))
  {
    AssignKeepsDistinct(o, key, value);
    AssignKeepsLacks(o, key, value, Titles);
    AssignKeepsLacks(o, key, value, DroppedKeys);
  }

  lemma MarkWinShape(o: Object)
    requires Proper(o)
    ensures Proper(MarkWin(o))
  {
    KeptColumns();
    AssignKeepsProper(o, "isWin", WinText(Get(o, "isWin")));
  }

  lemma JoinPrizeShape(o: Object, key: string)
    requires Proper(o) && !IsTitle(key) && key !in DroppedKeys && JoinPrize(o, key).Ok?
    ensures Proper(JoinPrize(o, key).value)
    ensures Get(JoinPrize(o, key).value, key) == Some(JStr(JoinOf(Get(o, key)).value))
  {
    var text := JStr(JoinOf(Get(o, key)).value);
    assert JoinPrize(o, key).value == Assign(o, key, text);
    AssignKeepsProper(o, key, text);
    AssignGet(o, key, text);
  }

  lemma JoinPrizeGet(o: Object, key: string, k: string)
    requires JoinPrize(o, key).Ok? && k != key
    ensures Get(JoinPrize(o, key).value, k) == Get(o, k)
  {
    var text := JStr(JoinOf(Get(o, key)).value);
    assert JoinPrize(o, key).value == Assign(o, key, text);
    AssignGet(o, key, text);
  }

  /** Each entry under its new name, in the original order. */
  function RenameAll(item: Object): (r: Object)
    ensures |r| == |item|
  {
    seq(|item|, i requires 0 <= i < |item| => Member(Rename(item[i].key), item[i].value))
  }

  /** Writing the first `n` entries of `entries` one by one with `obj[key] = value`. */
  function AssignedPrefix(entries: Object, n: nat): Object
    requires n <= |entries|
  {
    if n == 0 then []
    else Assign(AssignedPrefix(entries, n - 1), entries[n - 1].key, entries[n - 1].value)
  }

  /** The second `map`: every entry written into the new object under its renamed key. */
  function Renamed(item: Object): Object
  {
    AssignedPrefix(RenameAll(item), |item|)
  }

  /** No two entries get the same name. */
  predicate RenamesApart(item: Object)
  {
    DistinctKeys(RenameAll(item))
  }

  /** `Object.entries(item).forEach(...)` writing into `newItem`. */
  method RenameKeys(item: Object) returns (newItem: Object)
    ensures newItem == Renamed(item)
  {
    newItem := [];
    var i := 0;
    while i < |item|
      invariant 0 <= i <= |item|
      invariant newItem == AssignedPrefix(RenameAll(item), i)
    {
      RenamedStep(item, i);
      newItem := Assign(newItem, Rename(item[i].key), item[i].value);
      i := i + 1;
    }
  }

  /** One turn of the loop writes entry `i` under its new name. */
  lemma RenamedStep(item: Object, i: nat)
    requires i < |item|
    ensures AssignedPrefix(RenameAll(item), i + 1)
         == Assign(AssignedPrefix(RenameAll(item), i), Rename(item[i].key), item[i].value)
  {
    var m := RenameAll(item)[i];
    assert m == Member(Rename(item[i].key), item[i].value);
  }

  /** With distinct keys, the key of entry `n - 1` is not among the keys before it. */
  lemma FreshKey(entries: Object, n: nat)
    requires 0 < n <= |entries| && DistinctKeys(entries)
    ensures entries[n - 1].key !in Keys(entries[..n - 1])
  {
    var ks := Keys(entries[..n - 1]);
    forall i | 0 <= i < n - 1 ensures ks[i] != entries[n - 1].key {
      assert ks[i] == Keys(entries)[i] && entries[n - 1].key == Keys(entries)[n - 1];
    }
  }

  /** Writing entries with distinct keys one by one only ever appends. */
  lemma {:induction false} AssignedDistinct(entries: Object, n: nat)
    requires n <= |entries| && DistinctKeys(entries)
    ensures AssignedPrefix(entries, n) == entries[..n]
  {
    if n > 0 {
      AssignedDistinct(entries, n - 1);
      FreshKey(entries, n);
      assert entries[..n] == entries[..n - 1] + [entries[n - 1]];
    }
  }

  /** When no two keys collide after renaming, the new object has the same entries, in the same
      order, under the new names. */
  lemma RenamedIsRenameAll(item: Object)
    requires RenamesApart(item)
    ensures Renamed(item) == RenameAll(item)
  {
    AssignedDistinct(RenameAll(item), |item|);
    assert RenameAll(item)[..|item|] == RenameAll(item);
  }

  /** In an object with distinct keys, reading the key of any member gives that member's value. */
  lemma GetDistinct(obj: Object, j: int)
    requires DistinctKeys(obj) && 0 <= j < |obj|
    ensures Get(obj, obj[j].key) == Some(obj[j].value)
  {
    var k := IndexOfKey(obj, obj[j].key);
    assert Keys(obj)[k] == obj[j].key == Keys(obj)[j];
  }

  /** Reading a renamed key gives the value of the original key. */
  lemma GetRenamed(item: Object, k: string)
    requires RenamesApart(item) && k in Keys(item)
    ensures Get(RenameAll(item), Rename(k)) == Get(item, k)
  {
    var j := IndexOfKey(item, k);
    assert RenameAll(item)[j] == Member(Rename(k), item[j].value);
    GetDistinct(RenameAll(item), j);
  }

  /** A row of the sheet, or the `TypeError` that aborts the export. */
  function ExportRow(item: Object): (r: Result<Object>)
    ensures r.Ok? <==> JoinOf(Get(item, "prizeTime")).Ok? && JoinOf(Get(item, "prizeName")).Ok?
  {
    match CleanRow(item)
    case Err(e) => Err(e)
    case Ok(c) => Ok(Renamed(c))
  }

  /** What the cleaned row is made of: distinct keys, no dropped column, no column title, and
      the three rewritten properties. */
  lemma CleanRowShape(item: Object)
    requires DistinctKeys(item) && Lacks(item, Titles)
    requires JoinOf(Get(item, "prizeTime")).Ok? && JoinOf(Get(item, "prizeName")).Ok?
    ensures CleanRow(item).Ok?
    ensures var c := CleanRow(item).value;
      Proper(c)
      && Get(c, "isWin") == Some(WinText(Get(item, "isWin")))
      && Get(c, "prizeTime") == Some(JStr(JoinOf(Get(item, "prizeTime")).value))
      && Get(c, "prizeName") == Some(JStr(JoinOf(Get(item, "prizeName")).value))
  {
    KeptColumns();
    var o := DropColumns(item);
    DropColumnsShape(item);
    DropColumnsGet(item, "isWin");
    DropColumnsGet(item, "prizeTime");
    DropColumnsGet(item, "prizeName");
    var o1 := MarkWin(o);
    MarkWinShape(o);
    var o2 := JoinPrize(o1, "prizeTime").value;
    JoinPrizeShape(o1, "prizeTime");
    JoinPrizeGet(o1, "prizeTime", "isWin");
    JoinPrizeGet(o1, "prizeTime", "prizeName");
    assert CleanRow(item) == JoinPrize(o2, "prizeName");
    JoinPrizeShape(o2, "prizeName");
    JoinPrizeGet(o2, "prizeName", "isWin");
    JoinPrizeGet(o2, "prizeName", "prizeTime");
  }

  /** A row whose cleaning succeeds is exported as its cleaned form renamed. */
  lemma ExportRowOfCleaned(item: Object, c: Object)
    requires CleanRow(item) == Ok(c)
    ensures ExportRow(item) == Ok(Renamed(c))
  {
  }

  /** A renamed key is dropped only if the key itself was. */
  lemma RenameAvoidsDropped(key: string)
    requires key !in DroppedKeys
    ensures Rename(key) !in DroppedKeys
  {
  }

  /** Renaming a cleaned row moves every entry to its new name in its place, and brings back
      none of the dropped columns. */
  lemma RenamedShape(c: Object)
    requires Proper(c)
    ensures RenamesApart(c) && Renamed(c) == RenameAll(c)
    ensures Lacks(Renamed(c), DroppedKeys)
  {
    var ks := Keys(RenameAll(c));
    forall i, j | 0 <= i < j < |c| ensures ks[i] != ks[j] {
      assert Keys(c)[i] != Keys(c)[j];
      RenameInjective(c[i].key, c[j].key);
    }
    RenamedIsRenameAll(c);
    forall i | 0 <= i < |c| ensures RenameAll(c)[i].key !in DroppedKeys {
      RenameAvoidsDropped(c[i].key);
    }
  }

  lemma RenameAllKeys(c: Object)
    ensures Keys(RenameAll(c)) == seq(|c|, i requires 0 <= i < |c| => Rename(c[i].key))
  {
  }

  /** The three rewritten properties get their column titles. */
  lemma RenameRewritten()
    ensures Rename("isWin") == "Is Winner" && Rename("prizeTime") == "Prize Time"
    ensures Rename("prizeName") == "Prize Name"
  {
  }

  /** Renaming a cleaned row: every key renamed in its place, none of the dropped columns, and
      the three rewritten properties readable under their column titles. */
  lemma RenamedContents(c: Object)
    requires Proper(c) && "isWin" in Keys(c) && "prizeTime" in Keys(c) && "prizeName" in Keys(c)
    ensures Keys(Renamed(c)) == seq(|c|, i requires 0 <= i < |c| => Rename(c[i].key))
    ensures Lacks(Renamed(c), DroppedKeys)
    ensures Get(Renamed(c), "Is Winner") == Get(c, "isWin")
    ensures Get(Renamed(c), "Prize Time") == Get(c, "prizeTime")
    ensures Get(Renamed(c), "Prize Name") == Get(c, "prizeName")
  {
    RenamedShape(c);
    RenameAllKeys(c);
    RenameRewritten();
    GetRenamed(c, "isWin");
    GetRenamed(c, "prizeTime");
    GetRenamed(c, "prizeName");
  }

  /** One exported row: every key renamed in its place, the six dropped columns absent, the
      win flag as yes/no and the prize lists as comma-joined text under their column titles. */
  lemma ExportRowContents(item: Object)
    requires DistinctKeys(item) && Lacks(item, Titles)
    requires JoinOf(Get(item, "prizeTime")).Ok? && JoinOf(Get(item, "prizeName")).Ok?
    ensures CleanRow(item).Ok?
    ensures var c := CleanRow(item).value; var row := Renamed(c);
      ExportRow(item) == Ok(row)
      && Keys(row) == seq(|c|, i requires 0 <= i < |c| => Rename(c[i].key))
      && Lacks(row, DroppedKeys)
      && Get(row, "Is Winner") == Some(WinText(Get(item, "isWin")))
      && Get(row, "Prize Time") == Some(JStr(JoinOf(Get(item, "prizeTime")).value))
      && Get(row, "Prize Name") == Some(JStr(JoinOf(Get(item, "prizeName")).value))
  {
    CleanRowShape(item);
    var c := CleanRow(item).value;
    ExportRowOfCleaned(item, c);
    RenamedContents(c);
  }

  /** `list.map(f)` with a callback that may throw: the first exception aborts the map. */
  method MapOrThrow<T, U>(list: seq<T>, f: T -> Result<U>) returns (r: Result<seq<U>>)
    ensures r.Ok? <==> forall i :: 0 <= i < |list| ==> f(list[i]).Ok?
    ensures r.Ok? ==> |r.value| == |list| && forall i :: 0 <= i < |list| ==> f(list[i]) == Ok(r.value[i])
    ensures r.Err? ==> exists i :: 0 <= i < |list| && f(list[i]) == Err(r.error)
                                   && forall j :: 0 <= j < i ==> f(list[j]).Ok?
  {
    var mapped: seq<U> := [];
    for i := 0 to |list|
      invariant |mapped| == i
      invariant forall j :: 0 <= j < i ==> f(list[j]) == Ok(mapped[j])
    {
      var y := f(list[i]);
      if y.Err? {
        return Err(y.error);
      }
      mapped := mapped + [y.value];
    }
    r := Ok(mapped);
  }

  /** The second `map`: every cleaned row with its keys renamed. */
  method RenameRows(cleaned: seq<Object>) returns (renamed: seq<Object>)
    ensures |renamed| == |cleaned|
    ensures forall j :: 0 <= j < |cleaned| ==> renamed[j] == Renamed(cleaned[j])
  {
    renamed := [];
    for i := 0 to |cleaned|
      invariant |renamed| == i
      invariant forall j :: 0 <= j < i ==> renamed[j] == Renamed(cleaned[j])
    {
      var row := RenameKeys(cleaned[i]);
      renamed := renamed + [row];
    }
  }

  /** `exportData` up to the spreadsheet calls: `r` holds the sheet rows, one per person in
      order, or the error of the first failing row; `written` says whether a file is written. */
  method ExportData(data: seq<Object>) returns (r: Result<seq<Object>>, written: bool)
    ensures r.Ok? <==> forall i :: 0 <= i < |data| ==> ExportRow(data[i]).Ok?
    ensures r.Ok? ==> |r.value| == |data| && forall i :: 0 <= i < |data| ==> ExportRow(data[i]) == Ok(r.value[i])
    ensures written <==> r.Ok? && |data| > 0
  {
    var cleaned := MapOrThrow(data, CleanRow);
    if cleaned.Err? {
      forall i | 0 <= i < |data| && ExportRow(data[i]).Ok? ensures CleanRow(data[i]).Ok? {
      }
      return Err(cleaned.error), false;
    }
    var renamed := RenameRows(cleaned.value);
    forall j | 0 <= j < |data| ensures ExportRow(data[j]) == Ok(renamed[j]) {
      ExportRowOfCleaned(data[j], cleaned.value[j]);
    }
    written := |renamed| > 0;
    r := Ok(renamed);
  }
}
