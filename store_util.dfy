/** `extractFields` (src/utils/store.ts): the column choices offered for a list of rows, taken
    from the keys of the first row. */
module StoreUtil {

  import opened Wrappers
  import opened Lists
  import opened Json

  /** `{label: key, value: true}` (`label` is a Dafny keyword, hence `caption`). */
  datatype FieldChoice = FieldChoice(caption: string, value: bool)

  /** The keys that are not offered. */
  predicate Offered(key: string)
  {
    key != "id" && key != "x" && key != "y"
  }

  /** `extractFields(data)`: `Err` for an empty list (`Object.keys(undefined)` throws), `None`
      when the first row has no offered key (the function falls off its end), otherwise one
      choice per offered key of the first row, in key order. */
  function ExtractFields(data: seq<Object>): (r: Result<Option<seq<FieldChoice>>>)
    ensures r.Err? <==> |data| == 0
    ensures r.Ok? ==> (r.value.None? <==> forall k :: k in Keys(data[0]) ==> !Offered(k))
    ensures r.Ok? && r.value.Some? ==>
      var keys := Filter(Keys(data[0]), Offered);
      |r.value.value| == |keys|
      && forall i :: 0 <= i < |keys| ==> r.value.value[i] == FieldChoice(keys[i], true)
  {
    if |data| == 0 then Err("TypeError")
    else
      var keys := Filter(Keys(data[0]), Offered);
      if |keys| > 0 then
        assert keys[0] in Keys(data[0]) && Offered(keys[0]);
        Ok(Some(seq(|keys|, i requires 0 <= i < |keys| => FieldChoice(keys[i], true))))
      else
        assert forall i :: 0 <= i < |Keys(data[0])| ==> !Offered(Keys(data[0])[i]);
        Ok(None)
  }

  /** Only the first row is looked at: the rows after it do not change the result. */
  lemma ExtractFieldsFirstRowOnly(data: seq<Object>, more: seq<Object>)
    requires |data| > 0
    ensures ExtractFields(data + more) == ExtractFields([data[0]])
  {
    assert (data + more)[0] == data[0];
  }

  /** Every key of the first row other than `id`, `x` and `y` is offered, and nothing else. */
  lemma ExtractFieldsOffersExactly(data: seq<Object>, k: string)
    requires ExtractFields(data).Ok? && ExtractFields(data).value.Some?
    ensures (exists i :: 0 <= i < |ExtractFields(data).value.value| && ExtractFields(data).value.value[i].caption == k)
            <==> k in Keys(data[0]) && Offered(k)
  {
    var keys := Filter(Keys(data[0]), Offered);
    var choices := ExtractFields(data).value.value;
    if k in Keys(data[0]) && Offered(k) {
      var j :| 0 <= j < |keys| && keys[j] == k;
      assert choices[j].caption == k;
    }
  }
}
