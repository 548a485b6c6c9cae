/** Plain JSON values as `JSON.parse` produces them, with objects as ordered member lists
    kept in insertion order, and the object operations the pages use: reading, deleting and
    assigning a property. A JavaScript object lists integer-like keys first, in ascending
    order, and only its other string keys in insertion order; the rows this model handles
    have no integer-like keys, and that reordering is not modelled. */
module Json {

  import opened Wrappers
  import opened Lists
  import opened Strings

  datatype Json =
    | JNull
    | JBool(b: bool)
    | JNum(n: int)
    | JStr(s: string)
    | JArr(items: seq<Json>)
    | JObj(members: seq<Member>)

  datatype Member = Member(key: string, value: Json)

  type Object = seq<Member>

  /** `Object.keys(obj)`. */
  function Keys(obj: Object): (ks: seq<string>)
    ensures |ks| == |obj|
  {
    seq(|obj|, i requires 0 <= i < |obj| => obj[i].key)
  }

  lemma KeysCons(m: Member, rest: Object)
    ensures Keys([m] + rest) == [m.key] + Keys(rest)
  {
  }

  predicate Distinct(ks: seq<string>)
  {
    forall i, j :: 0 <= i < j < |ks| ==> ks[i] != ks[j]
  }

  /** A JavaScript object never has two members with the same key. */
  predicate DistinctKeys(obj: Object)
  {
    Distinct(Keys(obj))
  }

  /** The position of the member with that key, or -1. */
  function IndexOfKey(obj: Object, key: string): (k: int)
    ensures -1 <= k < |obj|
    ensures k >= 0 ==> obj[k].key == key && forall j :: 0 <= j < k ==> obj[j].key != key
    ensures k == -1 ==> forall j :: 0 <= j < |obj| ==> obj[j].key != key
  {
    FindIndex(obj, (m: Member) => m.key == key)
  }

  /** `obj[key]`: the value of the member with that key, or `undefined`. */
  function Get(obj: Object, key: string): (r: Option<Json>)
    ensures r.None? <==> key !in Keys(obj)
    ensures r.Some? ==> Member(key, r.value) in obj
  {
    var k := IndexOfKey(obj, key);
    if k == -1 then
      assert forall j :: 0 <= j < |obj| ==> Keys(obj)[j] != key;
      None
    else
      assert Keys(obj)[k] == key;
      Some(obj[k].value)
  }

  lemma GetCons(m: Member, rest: Object, k: string)
    ensures Get([m] + rest, k) == if m.key == k then Some(m.value) else Get(rest, k)
  {
    var s := [m] + rest;
    assert s[1..] == rest;
    if m.key != k {
      var i := IndexOfKey(s, k);
      var j := IndexOfKey(rest, k);
      if j >= 0 {
        assert s[j + 1] == rest[j];
        assert i == j + 1;
      } else {
        assert forall t :: 0 <= t < |s| ==> s[t].key != k by {
          forall t | 0 <= t < |s| ensures s[t].key != k {
            if t > 0 { assert s[t] == rest[t - 1]; }
          }
        }
      }
    }
  }

  /** `delete obj[key]`: the other members stay, in their order. */
  function Delete(obj: Object, key: string): (r: Object)
    ensures |r| <= |obj|
    ensures forall i :: 0 <= i < |r| ==> r[i].key != key
  {
    if obj == [] then []
    else if obj[0].key == key then Delete(obj[1..], key)
    else [obj[0]] + Delete(obj[1..], key)
  }

  /** Deleting keeps exactly the members with another key. */
  lemma {:induction false} DeleteMembers(obj: Object, key: string)
    ensures forall i :: 0 <= i < |Delete(obj, key)| ==> Delete(obj, key)[i] in obj
    ensures forall i :: 0 <= i < |obj| && obj[i].key != key ==> obj[i] in Delete(obj, key)
  {
    if obj != [] {
      DeleteMembers(obj[1..], key);
      assert obj == [obj[0]] + obj[1..];
    }
  }

  /** `obj[key] = value`: an existing member is overwritten in its place, a new key goes last. */
  function Assign(obj: Object, key: string, value: Json): (r: Object)
    ensures Keys(r) == if key in Keys(obj) then Keys(obj) else Keys(obj) + [key]
    ensures key !in Keys(obj) ==> r == obj + [Member(key, value)]
  {
    var k := IndexOfKey(obj, key);
    if k == -1 then
      assert key !in Keys(obj) by {
        assert forall j :: 0 <= j < |obj| ==> Keys(obj)[j] != key;
      }
      obj + [Member(key, value)]
    else
      assert Keys(obj)[k] == key;
      var r := obj[k := Member(key, value)];
      assert Keys(r) == Keys(obj);
      r
  }

  /** After the assignment the key reads the new value and every other key reads as before. */
  lemma AssignGet(obj: Object, key: string, value: Json)
    ensures Get(Assign(obj, key, value), key) == Some(value)
    ensures forall k :: k != key ==> Get(Assign(obj, key, value), k) == Get(obj, k)
  {
    var r := Assign(obj, key, value);
    var k := IndexOfKey(obj, key);
    assert forall j :: 0 <= j < |obj| ==> r[j].key == obj[j].key;
    var i := IndexOfKey(r, key);
    if k == -1 {
      assert r[|obj|].key == key;
      assert i == |obj|;
    } else {
      assert i == k;
    }
    forall k2 | k2 != key ensures Get(r, k2) == Get(obj, k2) {
      var a := IndexOfKey(r, k2);
      var b := IndexOfKey(obj, k2);
      if b >= 0 {
        assert a == b;
      }
    }
  }

  /** Deleting a key leaves every other property as it was. */
  lemma {:induction false} GetDelete(obj: Object, key: string, k: string)
    requires k != key
    ensures Get(Delete(obj, key), k) == Get(obj, k)
  {
    if obj != [] {
      GetDelete(obj[1..], key, k);
      assert obj == [obj[0]] + obj[1..];
      GetCons(obj[0], obj[1..], k);
      if obj[0].key != key {
        GetCons(obj[0], Delete(obj[1..], key), k);
      }
    }
  }

  /** Deleting keeps the members of a proper object distinct. */
  lemma {:induction false} DeleteKeepsDistinct(obj: Object, key: string)
    requires DistinctKeys(obj)
    ensures DistinctKeys(Delete(obj, key))
  {
    if obj != [] {
      KeysCons(obj[0], obj[1..]);
      assert obj == [obj[0]] + obj[1..];
      assert Keys(obj[1..]) == Keys(obj)[1..];
      DeleteKeepsDistinct(obj[1..], key);
      DeleteMembers(obj[1..], key);
      var rest := Delete(obj[1..], key);
      if obj[0].key != key {
        assert Delete(obj, key) == [obj[0]] + rest;
        KeysCons(obj[0], rest);
        forall j | 0 <= j < |rest| ensures rest[j].key != obj[0].key {
          var t :| 0 <= t < |obj[1..]| && obj[1..][t] == rest[j];
          assert obj[t + 1] == rest[j];
          assert Keys(obj)[0] != Keys(obj)[t + 1];
        }
      } else {
        assert Delete(obj, key) == rest;
      }
    }
  }

  /** An assignment keeps the members of a proper object distinct. */
  lemma AssignKeepsDistinct(obj: Object, key: string, value: Json)
    requires DistinctKeys(obj)
    ensures DistinctKeys(Assign(obj, key, value))
  {
  }

  /** Deleting only ever removes members. */
  lemma DeleteKeys(obj: Object, key: string)
    ensures forall k :: k in Keys(Delete(obj, key)) ==> k in Keys(obj) && k != key
  {
    var r := Delete(obj, key);
    DeleteMembers(obj, key);
    forall k | k in Keys(r) ensures k in Keys(obj) && k != key {
      var i :| 0 <= i < |r| && Keys(r)[i] == k;
      var j :| 0 <= j < |obj| && obj[j] == r[i];
      assert Keys(obj)[j] == k;
    }
  }

  /** No member has one of `keys` as its key. */
  predicate Lacks(obj: Object, keys: seq<string>)
  {
    forall i :: 0 <= i < |obj| ==> obj[i].key !in keys
  }

  /** Deleting never brings in a key, and takes out the one deleted. */
  lemma DeleteKeepsLacks(obj: Object, key: string, others: seq<string>)
    requires Lacks(obj, others)
    ensures Lacks(Delete(obj, key), others)
    ensures Lacks(Delete(obj, key), others + [key])
  {
    DeleteMembers(obj, key);
    LacksOfMembers(Delete(obj, key), obj, others);
  }

  /** An object made of another's members lacks whatever that one lacks. */
  lemma LacksOfMembers(a: Object, b: Object, keys: seq<string>)
    requires Lacks(b, keys) && forall i :: 0 <= i < |a| ==> a[i] in b
    ensures Lacks(a, keys)
  {
    forall i | 0 <= i < |a| ensures a[i].key !in keys {
      var j :| 0 <= j < |b| && b[j] == a[i];
    }
  }

  /** Assigning a key outside `keys` keeps an object free of them. */
  lemma AssignKeepsLacks(obj: Object, key: string, value: Json, keys: seq<string>)
    requires Lacks(obj, keys) && key !in keys
    ensures Lacks(Assign(obj, key, value), keys)
  {
    var r := Assign(obj, key, value);
    forall i | 0 <= i < |r| ensures r[i].key !in keys {
      assert r[i].key == Keys(r)[i];
      if i < |obj| { assert Keys(obj)[i] == obj[i].key; }
    }
  }

  /** The string `String(v)` gives for an element of an array being joined: `null` prints as
      nothing, a nested array is joined with commas. */
  function Text(v: Json): string
  {
    match v
    case JNull => ""
    case JBool(b) => if b then "true" else "false"
    case JNum(n) => IntToDecimal(n)
    case JStr(s) => s
    case JArr(items) => Join(seq(|items|, i requires 0 <= i < |items| => Text(items[i])), ",")
    case JObj(_) => "[object Object]"
  }

  /** `value.join(",")`; only an array has `join`, anything else (or `undefined`) throws. */
  function JoinOf(value: Option<Json>): (r: Result<string>)
    ensures r.Ok? <==> value.Some? && value.value.JArr?
  {
    match value
    case Some(JArr(items)) => Ok(Join(seq(|items|, i requires 0 <= i < |items| => Text(items[i])), ","))
    case _ => Err("TypeError")
  }

  /** JavaScript truthiness of `obj[key]`. */
  predicate Truthy(value: Option<Json>)
  {
    match value
    case None => false
    case Some(JNull) => false
    case Some(JBool(b)) => b
    case Some(JNum(n)) => n != 0
    case Some(JStr(s)) => s != ""
    case Some(_) => true
  }
}
