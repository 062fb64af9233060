/** The module-level helpers: the public catalog lookups `getRegions`,
    `getTypes` and `getImages`, and `keyByValue`. */
module Api {
  import opened Json
  import opened Http
  import opened Extract

  const RegionsUrl := ApiRoot + "/regions"
  const TypesUrl := ApiRoot + "/linode/types"
  const ImagesUrl := ApiRoot + "/images"

  /** `getRegions()` asks for the region catalog without credentials. */
  const RegionsRequest := Request(GET, RegionsUrl, None, None, None)

  /** `getTypes()` asks for the plan catalog without credentials. */
  const TypesRequest := Request(GET, TypesUrl, None, None, None)

  /** The request `getImages(private, token)` issues. With `private` set and
      a falsy token neither branch binds `imagesRequest`, so the loop that
      reads it raises before anything is sent. */
  function ImagesRequest(private: bool, token: Option<string>): (r: Result<Request>)
    ensures r.Failure? <==> private && (token.None? || token.value == "")
    ensures r.Failure? ==> r.error == UnboundLocalError
    ensures r.Success? ==> r.value.verb == GET && r.value.url == ImagesUrl && r.value.json.None?
    ensures r.Success? ==> r.value.headers == if private then Some(BearerHeader(token.value)) else None
  {
    if private && token.Some? && token.value != "" then
      Success(Request(GET, ImagesUrl, None, None, Some(BearerHeader(token.value))))
    else if !private then
      Success(Request(GET, ImagesUrl, None, None, None))
    else
      Failure(UnboundLocalError)
  }

  /** `[i['id'] for i in body['data']]`, or the exception that stops it. */
  function Ids(body: Json): (r: Result<seq<Json>>)
    ensures GetItem(body, "data").Failure? ==> r == Failure(GetItem(body, "data").error)
    ensures body.JObj? && Get(body.fields, "data").Some? && Get(body.fields, "data").value.JArr? ==>
      r == FieldOfEach(Get(body.fields, "data").value.items, "id")
  {
    var data := GetItem(body, "data");
    if data.Failure? then Failure(data.error)
    else
      var items := Iterate(data.value);
      if items.Failure? then Failure(items.error)
      else FieldOfEach(items.value, "id")
  }

  /** The loop of `getRegions`, `getTypes`, `getImages` and `getLinodes`,
      run on the decoded reply. */
  method ExtractIds(body: Json) returns (r: Result<seq<Json>>)
    ensures r == Ids(body)
  {
    var data := GetItem(body, "data");
    if data.Failure? {
      return Failure(data.error);
    }
    var items := Iterate(data.value);
    if items.Failure? {
      return Failure(items.error);
    }
    r := CollectField(items.value, "id");
  }

  /** On a catalog reply of the shape `{"data": [{"id": ...}, ...]}` the
      ids come out one per entry, in order. */
  lemma IdsOfCatalog(body: Json, entries: seq<Json>)
    requires body.JObj? && Get(body.fields, "data") == Some(JArr(entries))
    ensures Ids(body).Success? <==>
      forall k :: 0 <= k < |entries| ==> entries[k].JObj? && "id" in Keys(entries[k].fields)
    ensures Ids(body).Success? ==>
      |Ids(body).value| == |entries| &&
      forall k :: 0 <= k < |entries| ==> Get(entries[k].fields, "id") == Some(Ids(body).value[k])
  {
    var r := Ids(body);
    if r.Success? {
      forall k | 0 <= k < |entries|
        ensures Get(entries[k].fields, "id") == Some(r.value[k])
      {
        assert GetItem(entries[k], "id").Success?;
      }
    }
  }

  /** The trailing part of the message `list.index` raises with; the
      leading `repr` of the missing value is not modelled. */
  const NotInList := "is not in list"

  /** `xs.index(v)`: the first position holding a value `==` to `v`. */
  function IndexOf(xs: seq<Json>, v: Json): (r: Result<nat>)
    ensures r.Success? <==> Member(xs, v)
    ensures r.Success? ==>
      r.value < |xs| && PyEq(xs[r.value], v) &&
      forall k :: 0 <= k < r.value ==> !PyEq(xs[k], v)
    ensures r.Failure? ==> r.error == ValueError(NotInList)
    decreases |xs|
  {
    if xs == [] then Failure(ValueError(NotInList))
    else if PyEq(xs[0], v) then Success(0)
    else
      var rest := IndexOf(xs[1..], v);
      assert forall k :: 0 < k < |xs| ==> xs[k] == xs[1..][k - 1];
      if rest.Failure? then
        forall k | 0 < k < |xs| ensures !PyEq(xs[k], v) {
          assert xs[k] == xs[1..][k - 1];
        }
        rest
      else
        assert Member(xs, v) by {
          assert PyEq(xs[rest.value + 1], v);
        }
        Success(rest.value + 1)
  }

  /** `keyByValue(dictionary, value)`: the first key, in insertion order,
      whose value is `==` to `value`; `ValueError` when there is none. */
  function KeyByValue(d: Dict, v: Json): (r: Result<string>)
    ensures r.Success? <==> exists i :: 0 <= i < |d| && PyEq(d[i].1, v)
    ensures r.Success? ==>
      exists i :: 0 <= i < |d| && d[i].0 == r.value && PyEq(d[i].1, v) &&
        forall k :: 0 <= k < i ==> !PyEq(d[k].1, v)
    ensures r.Failure? ==> r.error == ValueError(NotInList)
  {
    var keyList := seq(|d|, i requires 0 <= i < |d| => d[i].0);
    var valList := seq(|d|, i requires 0 <= i < |d| => d[i].1);
    var ind := IndexOf(valList, v);
    if ind.Failure? then
      forall i | 0 <= i < |d| ensures !PyEq(d[i].1, v) {
        assert valList[i] == d[i].1;
      }
      Failure(ind.error)
    else
      var i := ind.value;
      assert PyEq(d[i].1, v);
      assert forall k :: 0 <= k < i ==> !PyEq(d[k].1, v) by {
        forall k | 0 <= k < i ensures !PyEq(d[k].1, v) {
          assert valList[k] == d[k].1;
        }
      }
      Success(keyList[i])
  }

  /** In a dict whose values are pairwise unequal, `keyByValue` inverts the
      lookup: the value stored under a key leads back to that key. */
  lemma KeyByValueInverts(d: Dict, i: nat)
    requires DistinctKeys(d)
    requires i < |d|
    requires forall k :: 0 <= k < |d| ==> WellFormed(d[k].1)
    requires forall j, k :: 0 <= j < k < |d| ==> !PyEq(d[j].1, d[k].1)
    ensures KeyByValue(d, d[i].1) == Success(d[i].0)
  {
    PyEqReflexive(d[i].1);
    var r := KeyByValue(d, d[i].1);
    var j :| 0 <= j < |d| && d[j].0 == r.value && PyEq(d[j].1, d[i].1) &&
      forall k :: 0 <= k < j ==> !PyEq(d[k].1, d[i].1);
    assert j == i;
  }

  /** Whatever key `keyByValue` returns looks up a value `==` to the one
      searched for. */
  lemma KeyByValueFindsValue(d: Dict, v: Json)
    requires DistinctKeys(d)
    requires KeyByValue(d, v).Success?
    ensures Get(d, KeyByValue(d, v).value).Some?
    ensures PyEq(Get(d, KeyByValue(d, v).value).value, v)
  {
    var r := KeyByValue(d, v);
    var i :| 0 <= i < |d| && d[i].0 == r.value && PyEq(d[i].1, v) &&
      forall k :: 0 <= k < i ==> !PyEq(d[k].1, v);
    assert Get(d, d[i].0) == Some(d[i].1);
  }
}
