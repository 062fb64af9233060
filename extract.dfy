/** The loop `for e in items: out.append(e[key])` that both the catalog
    lookups (key `id`) and the error handling (key `reason`) run. */
module Extract {
  import opened Json

  /** `[e[key] for e in items]`; the first element that raises stops it. */
  function FieldOfEach(items: seq<Json>, key: string): (r: Result<seq<Json>>)
    ensures r.Success? <==> forall k :: 0 <= k < |items| ==> GetItem(items[k], key).Success?
    ensures r.Success? ==>
      |r.value| == |items| &&
      forall k :: 0 <= k < |items| ==> r.value[k] == GetItem(items[k], key).value
    decreases |items|
  {
    if items == [] then Success([])
    else
      match GetItem(items[0], key)
      case Failure(e) => Failure(e)
      case Success(v) =>
        var rest := FieldOfEach(items[1..], key);
        assert forall k :: 0 < k < |items| ==> items[k] == items[1..][k - 1];
        if rest.Failure? then rest else Success([v] + rest.value)
  }

  /** A failing collection carries the exception of the first element that
      raises; every element before it was read. */
  lemma {:induction false} FieldOfEachFails(items: seq<Json>, key: string)
    requires FieldOfEach(items, key).Failure?
    ensures exists j :: 0 <= j < |items| && GetItem(items[j], key) == Failure(FieldOfEach(items, key).error) &&
                      forall k :: 0 <= k < j ==> GetItem(items[k], key).Success?
    decreases |items|
  {
    var e := FieldOfEach(items, key).error;
    if GetItem(items[0], key).Failure? {
      assert GetItem(items[0], key) == Failure(e);
    } else {
      var tail := items[1..];
      FieldOfEachFails(tail, key);
      var j :| 0 <= j < |tail| && GetItem(tail[j], key) == Failure(e) &&
        forall k :: 0 <= k < j ==> GetItem(tail[k], key).Success?;
      assert tail[j] == items[j + 1];
      assert forall k :: 0 < k < j + 1 ==> items[k] == tail[k - 1];
    }
  }

  /** The appending loop; it gives exactly what `FieldOfEach` describes. */
  method CollectField(items: seq<Json>, key: string) returns (r: Result<seq<Json>>)
    ensures r == FieldOfEach(items, key)
  {
    var acc: seq<Json> := [];
    var i := 0;
    while i < |items|
      invariant 0 <= i <= |items|
      invariant |acc| == i
      invariant forall k :: 0 <= k < i ==>
        GetItem(items[k], key).Success? && acc[k] == GetItem(items[k], key).value
    {
      var v := GetItem(items[i], key);
      if v.Failure? {
        r := Failure(v.error);
        var spec := FieldOfEach(items, key);
        FieldOfEachFails(items, key);
        var j :| 0 <= j < |items| && GetItem(items[j], key) == Failure(spec.error) &&
          forall k :: 0 <= k < j ==> GetItem(items[k], key).Success?;
        assert j == i;
        return;
      }
      acc := acc + [v.value];
      i := i + 1;
    }
    var spec := FieldOfEach(items, key);
    assert spec.Success?;
    assert acc == spec.value;
    r := Success(acc);
  }
}
