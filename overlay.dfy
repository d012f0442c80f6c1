/** The dictionary overlay that the optimizer adapter performs three times
    (objective, feasibility constraint, decoding the solver's answer) and the
    parameter table performs once (filling the session): copy a fixed
    assignment, then write `xs[i]` under `keys[i]` for i = 0, 1, ... in
    order. Dafny maps are values, so the copy leaves the caller's map as it
    was by construction. */
module Overlays {
  import opened Support

  /** Position `i` holds the last occurrence of its key in `keys`, so the
      write made there is the one that survives. */
  ghost predicate LastAt(keys: seq<string>, i: int)
    requires 0 <= i < |keys|
  {
    forall j | i < j < |keys| :: keys[j] != keys[i]
  }

  /** The assignment after writing `xs[0..|keys|)` under `keys` over `base`,
      left to right. */
  function Overlaid<V>(base: map<string, V>, keys: seq<string>, xs: seq<V>): (m: map<string, V>)
    requires |keys| <= |xs|
    decreases |keys|
  {
    if keys == [] then base
    else
      var n := |keys| - 1;
      Overlaid(base, keys[..n], xs)[keys[n] := xs[n]]
  }

  /** What an overlay changes and what it leaves alone: it has the fixed
      keys plus the written ones; a fixed key that is not written keeps its
      value; a written key holds the value of its last write. */
  ghost predicate Framed<V>(base: map<string, V>, keys: seq<string>, xs: seq<V>, m: map<string, V>)
    requires |keys| <= |xs|
  {
    && m.Keys == base.Keys + Elems(keys)
    && (forall k | k in base && k !in keys :: k in m && m[k] == base[k])
    && (forall i | 0 <= i < |keys| && LastAt(keys, i) :: keys[i] in m && m[keys[i]] == xs[i])
  }

  /** The written keys are added to the fixed ones. */
  lemma {:induction false} OverlaidKeys<V>(base: map<string, V>, keys: seq<string>, xs: seq<V>)
    requires |keys| <= |xs|
    ensures Overlaid(base, keys, xs).Keys == base.Keys + Elems(keys)
    decreases |keys|
  {
    if keys != [] {
      var n := |keys| - 1;
      var prefix := keys[..n];
      OverlaidKeys(base, prefix, xs);
      assert keys == prefix + [keys[n]];
      assert Elems(keys) == Elems(prefix) + {keys[n]};
    }
  }

  /** A fixed key that is never written keeps its value. */
  lemma {:induction false} OverlaidUnwritten<V>(base: map<string, V>, keys: seq<string>, xs: seq<V>, k: string)
    requires |keys| <= |xs|
    requires k in base && k !in keys
    ensures k in Overlaid(base, keys, xs) && Overlaid(base, keys, xs)[k] == base[k]
    decreases |keys|
  {
    if keys != [] {
      var n := |keys| - 1;
      var prefix := keys[..n];
      assert k != keys[n];
      assert k !in prefix by {
        assert keys == prefix + [keys[n]];
      }
      OverlaidUnwritten(base, prefix, xs, k);
    }
  }

  /** A written key holds the value of its last write. */
  lemma {:induction false} OverlaidLast<V>(base: map<string, V>, keys: seq<string>, xs: seq<V>, i: nat)
    requires |keys| <= |xs|
    requires i < |keys| && LastAt(keys, i)
    ensures keys[i] in Overlaid(base, keys, xs) && Overlaid(base, keys, xs)[keys[i]] == xs[i]
    decreases |keys|
  {
    var n := |keys| - 1;
    if i < n {
      var prefix := keys[..n];
      assert prefix[i] == keys[i];
      assert LastAt(prefix, i);
      assert keys[n] != keys[i];
      OverlaidLast(base, prefix, xs, i);
    }
  }

  lemma OverlaidFrame<V>(base: map<string, V>, keys: seq<string>, xs: seq<V>)
    requires |keys| <= |xs|
    ensures Framed(base, keys, xs, Overlaid(base, keys, xs))
  {
    OverlaidKeys(base, keys, xs);
    forall k | k in base && k !in keys
      ensures k in Overlaid(base, keys, xs) && Overlaid(base, keys, xs)[k] == base[k]
    {
      OverlaidUnwritten(base, keys, xs, k);
    }
    forall i | 0 <= i < |keys| && LastAt(keys, i)
      ensures keys[i] in Overlaid(base, keys, xs) && Overlaid(base, keys, xs)[keys[i]] == xs[i]
    {
      OverlaidLast(base, keys, xs, i);
    }
  }

  /** With distinct keys, every key ends up holding its own value. */
  lemma OverlaidDistinct<V>(base: map<string, V>, keys: seq<string>, xs: seq<V>)
    requires |keys| <= |xs|
    requires Distinct(keys)
    ensures forall i | 0 <= i < |keys| ::
      keys[i] in Overlaid(base, keys, xs) && Overlaid(base, keys, xs)[keys[i]] == xs[i]
  {
    OverlaidFrame(base, keys, xs);
    forall i | 0 <= i < |keys|
      ensures keys[i] in Overlaid(base, keys, xs) && Overlaid(base, keys, xs)[keys[i]] == xs[i]
    {
      assert LastAt(keys, i);
    }
  }

  /** The copy-then-write loop, as the source runs it. */
  method Overlay<V>(fixed: map<string, V>, keys: seq<string>, xs: seq<V>) returns (newVals: map<string, V>)
    requires |keys| <= |xs|
    ensures newVals == Overlaid(fixed, keys, xs)
    ensures Framed(fixed, keys, xs, newVals)
    ensures keys == [] ==> newVals == fixed
  {
    newVals := fixed;
    for i := 0 to |keys|
      invariant newVals == Overlaid(fixed, keys[..i], xs)
    {
      assert keys[..i + 1][..i] == keys[..i];
      newVals := newVals[keys[i] := xs[i]];
    }
    assert keys[..|keys|] == keys;
    OverlaidFrame(fixed, keys, xs);
  }
}
