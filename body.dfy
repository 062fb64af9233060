/** Request-body assembly: a dict of required fields, then every keyword
    argument whose value is truthy, written in with `data[k] = v`. */
module Body {
  import opened Json

  /** The keyword arguments that pass `if v:`, in the caller's order. */
  function TruthyEntries(kwargs: Dict): (r: Dict)
    ensures Keys(r) <= Keys(kwargs)
    ensures forall k :: 0 <= k < |r| ==> Truthy(r[k].1) && r[k] in kwargs
    ensures forall k :: 0 <= k < |kwargs| && Truthy(kwargs[k].1) ==> kwargs[k] in r
    decreases |kwargs|
  {
    if kwargs == [] then []
    else
      var init := kwargs[..|kwargs| - 1];
      var last := kwargs[|kwargs| - 1];
      assert kwargs == init + [last];
      assert forall k :: 0 <= k < |init| ==> kwargs[k] == init[k];
      KeysConcat(init, [last]);
      var before := TruthyEntries(init);
      if Truthy(last.1) then
        KeysConcat(before, [last]);
        before + [last]
      else
        before
  }

  /** `data` after `for k, v in kwargs.items(): if v: data[k] = v`. */
  function Overlay(data: Dict, kwargs: Dict): Dict
    decreases |kwargs|
  {
    if kwargs == [] then data
    else
      var before := Overlay(data, kwargs[..|kwargs| - 1]);
      var (k, v) := kwargs[|kwargs| - 1];
      if Truthy(v) then Set(before, k, v) else before
  }

  /** The assembly loop; it builds exactly the dict `Overlay` describes. */
  method AssembleBody(required: Dict, kwargs: Dict) returns (data: Dict)
    ensures data == Overlay(required, kwargs)
  {
    data := required;
    var i := 0;
    while i < |kwargs|
      invariant 0 <= i <= |kwargs|
      invariant data == Overlay(required, kwargs[..i])
    {
      var (k, v) := kwargs[i];
      assert kwargs[..i + 1][..i] == kwargs[..i];
      if Truthy(v) {
        data := Set(data, k, v);
      }
      i := i + 1;
    }
    assert kwargs[..i] == kwargs;
  }

  /** A keyword argument with a truthy value appears in the body with exactly
      that value; any other key keeps what the required fields gave it, so a
      falsy argument is dropped. */
  lemma {:induction false} OverlayGet(data: Dict, kwargs: Dict, key: string)
    requires DistinctKeys(kwargs)
    ensures Get(Overlay(data, kwargs), key) ==
      if Get(kwargs, key).Some? && Truthy(Get(kwargs, key).value) then Get(kwargs, key)
      else Get(data, key)
    decreases |kwargs|
  {
    if kwargs != [] {
      var init := kwargs[..|kwargs| - 1];
      var (k, v) := kwargs[|kwargs| - 1];
      assert kwargs == init + [(k, v)];
      assert DistinctKeys(init);
      assert k !in Keys(init) by {
        forall j | 0 <= j < |init| ensures init[j].0 != k {
          assert init[j] == kwargs[j];
        }
      }
      OverlayGet(data, init, key);
      GetAppend(init, k, v, key);
    }
  }

  /** Assembly never duplicates a key. */
  lemma {:induction false} OverlayDistinct(data: Dict, kwargs: Dict)
    requires DistinctKeys(data)
    ensures DistinctKeys(Overlay(data, kwargs))
    decreases |kwargs|
  {
    if kwargs != [] {
      var init := kwargs[..|kwargs| - 1];
      var (k, v) := kwargs[|kwargs| - 1];
      OverlayDistinct(data, init);
      if Truthy(v) {
        SetDistinct(Overlay(data, init), k, v);
      }
    }
  }

  /** When no keyword argument names a required field, the body is the
      required fields, in their order, followed by the truthy arguments in
      the caller's order: nothing is removed or overwritten. */
  lemma {:induction false} OverlayAppends(data: Dict, kwargs: Dict)
    requires DistinctKeys(kwargs)
    requires Keys(data) !! Keys(kwargs)
    ensures Overlay(data, kwargs) == data + TruthyEntries(kwargs)
    decreases |kwargs|
  {
    if kwargs != [] {
      var init := kwargs[..|kwargs| - 1];
      var (k, v) := kwargs[|kwargs| - 1];
      assert kwargs == init + [(k, v)];
      KeysConcat(init, [(k, v)]);
      assert Keys([(k, v)]) == {k};
      assert DistinctKeys(init);
      OverlayAppends(data, init);
      if Truthy(v) {
        var before := data + TruthyEntries(init);
        assert k !in Keys(init) by {
          forall j | 0 <= j < |init| ensures init[j].0 != k {
            assert init[j] == kwargs[j];
          }
        }
        KeysConcat(data, TruthyEntries(init));
        assert k !in Keys(before);
        assert Set(before, k, v) == before + [(k, v)];
      }
    }
  }
}
