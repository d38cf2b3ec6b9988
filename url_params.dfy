/**
 * `URLSearchParams` as the pages use it: an ordered list of name/value pairs
 * that `set` updates in place, with its `size` and its serialisation. The
 * percent-encoding of names and values is a parameter (`encode`).
 */
module UrlParams {
  import opened Js

  type Pair = (string, string)

  /** The names of the pairs, in order. */
  function Names(ps: seq<Pair>): (r: seq<string>)
    ensures |r| == |ps| && forall i :: 0 <= i < |ps| ==> r[i] == ps[i].0
  {
    if ps == [] then [] else [ps[0].0] + Names(ps[1..])
  }

  /** The value of the first pair called `name` (`get`). */
  function Lookup(ps: seq<Pair>, name: string): (r: Option<string>)
    ensures r.None? <==> name !in Names(ps)
  {
    if ps == [] then None
    else if ps[0].0 == name then Some(ps[0].1)
    else Lookup(ps[1..], name)
  }

  /** The pairs not called `name`, in order. */
  function RemoveName(ps: seq<Pair>, name: string): (r: seq<Pair>)
    ensures name !in Names(r)
    ensures forall other :: other != name ==> Lookup(r, other) == Lookup(ps, other)
    ensures name !in Names(ps) ==> r == ps
  {
    if ps == [] then []
    else if ps[0].0 == name then RemoveName(ps[1..], name)
    else [ps[0]] + RemoveName(ps[1..], name)
  }

  /** Deleting a name keeps the other pairs in their order. */
  lemma {:induction false} RemoveNameSubsequence(ps: seq<Pair>, name: string)
    ensures IsSubsequence(RemoveName(ps, name), ps)
    decreases |ps|
  {
    if ps != [] {
      RemoveNameSubsequence(ps[1..], name);
      var r := RemoveName(ps, name);
      if ps[0].0 != name {
        assert r[0] == ps[0] && r[1..] == RemoveName(ps[1..], name);
      }
    }
  }

  /** Deleting a name drops every pair of that name and keeps every other pair as often as it occurs. */
  lemma {:induction false} RemoveNameCounts(ps: seq<Pair>, name: string)
    ensures forall p :: multiset(RemoveName(ps, name))[p] == if p.0 == name then 0 else multiset(ps)[p]
    decreases |ps|
  {
    if ps != [] {
      RemoveNameCounts(ps[1..], name);
      assert ps == [ps[0]] + ps[1..];
    }
  }

  /**
   * `params.set(name, value)`: the first pair called `name` takes the new value
   * and later pairs of that name are dropped; with no such pair, one is appended.
   */
  function SetPair(ps: seq<Pair>, name: string, value: string): (r: seq<Pair>)
    ensures Lookup(r, name) == Some(value)
    ensures forall other :: other != name ==> Lookup(r, other) == Lookup(ps, other)
  {
    if ps == [] then [(name, value)]
    else if ps[0].0 == name then
      var rest := RemoveName(ps[1..], name);
      LookupCons((name, value), rest);
      [(name, value)] + rest
    else
      var rest := SetPair(ps[1..], name, value);
      LookupCons(ps[0], rest);
      LookupCons(ps[0], ps[1..]);
      assert [ps[0]] + ps[1..] == ps;
      [ps[0]] + rest
  }

  /**
   * `set` touches only the pairs of its own name: with those removed, the list
   * is the same before and after, order and repeats included; and afterwards
   * exactly one pair has that name.
   */
  lemma {:induction false} SetPairOthers(ps: seq<Pair>, name: string, value: string)
    ensures RemoveName(SetPair(ps, name, value), name) == RemoveName(ps, name)
    ensures multiset(Names(SetPair(ps, name, value)))[name] == 1
    decreases |ps|
  {
    var r := SetPair(ps, name, value);
    if ps == [] {
      assert r[1..] == [];
      assert Names(r) == [name];
    } else if ps[0].0 == name {
      var rest := RemoveName(ps[1..], name);
      assert r[0] == (name, value) && r[1..] == rest;
      assert Names(r) == [name] + Names(rest);
      assert name !in multiset(Names(rest));
    } else {
      SetPairOthers(ps[1..], name, value);
      var rest := SetPair(ps[1..], name, value);
      assert r[0] == ps[0] && r[1..] == rest;
      assert Names(r) == [ps[0].0] + Names(rest);
    }
  }

  /** Setting a name that is not present appends one pair. */
  lemma {:induction false} SetPairNew(ps: seq<Pair>, name: string, value: string)
    requires name !in Names(ps)
    ensures SetPair(ps, name, value) == ps + [(name, value)]
  {
    if ps != [] {
      assert ps[0].0 != name;
      assert name !in Names(ps[1..]);
      SetPairNew(ps[1..], name, value);
      calc {
        SetPair(ps, name, value);
        [ps[0]] + SetPair(ps[1..], name, value);
        [ps[0]] + (ps[1..] + [(name, value)]);
        { AppendAssoc([ps[0]], ps[1..], [(name, value)]); }
        ([ps[0]] + ps[1..]) + [(name, value)];
        { assert [ps[0]] + ps[1..] == ps; }
        ps + [(name, value)];
      }
    }
  }

  lemma AppendAssoc(a: seq<Pair>, b: seq<Pair>, c: seq<Pair>)
    ensures a + (b + c) == (a + b) + c
  {
  }

  /** Looking a name up in a list that starts with `p`. */
  lemma LookupCons(p: Pair, rest: seq<Pair>)
    ensures forall name :: Lookup([p] + rest, name) == if p.0 == name then Some(p.1) else Lookup(rest, name)
  {
    assert ([p] + rest)[1..] == rest;
  }

  /**
   * `params.set('lat', lat); params.set('lon', lon)`: both coordinates take the
   * given texts and every other name keeps its value.
   */
  function WithLatLon(ps: seq<Pair>, lat: string, lon: string): (r: seq<Pair>)
    ensures Lookup(r, "lat") == Some(lat) && Lookup(r, "lon") == Some(lon)
    ensures forall other :: other != "lat" && other != "lon" ==> Lookup(r, other) == Lookup(ps, other)
  {
    SetPair(SetPair(ps, "lat", lat), "lon", lon)
  }

  /**
   * `params.delete('lat'); params.delete('lon')`: neither coordinate remains
   * and every other name keeps its value.
   */
  function WithoutLatLon(ps: seq<Pair>): (r: seq<Pair>)
    ensures "lat" !in Names(r) && "lon" !in Names(r)
    ensures forall other :: other != "lat" && other != "lon" ==> Lookup(r, other) == Lookup(ps, other)
  {
    var noLat := RemoveName(ps, "lat");
    var r := RemoveName(noLat, "lon");
    assert Lookup(r, "lat") == Lookup(noLat, "lat") == None;
    r
  }

  /** `params.toString()`: `name=value` items joined by `&`. */
  function Serialize(ps: seq<Pair>, encode: string -> string): string {
    if ps == [] then ""
    else if |ps| == 1 then encode(ps[0].0) + "=" + encode(ps[0].1)
    else encode(ps[0].0) + "=" + encode(ps[0].1) + "&" + Serialize(ps[1..], encode)
  }

  /** The serialisation is empty exactly when there are no pairs: each pair brings its `=`. */
  lemma SerializeEmpty(ps: seq<Pair>, encode: string -> string)
    ensures Serialize(ps, encode) == "" <==> ps == []
  {
    if ps != [] {
      var head := encode(ps[0].0) + "=";
      assert |head| >= 1;
    }
  }

  /**
   * The reference for the links both pages build: one pair per truthy field,
   * in the order of the fields, each with the field's own text.
   */
  function TruthyPairs(fields: seq<(string, Option<string>)>): (r: seq<Pair>)
    ensures |r| <= |fields|
  {
    if fields == [] then []
    else TruthyPairs(fields[..|fields| - 1]) + FieldPair(fields[|fields| - 1])
  }

  /** The pair a single truthy field contributes. */
  function FieldPair(field: (string, Option<string>)): seq<Pair> {
    if TruthyText(field.1) then [(field.0, field.1.value)] else []
  }

  /** A field contributes its own name when truthy and nothing otherwise. */
  lemma FieldPairNames(field: (string, Option<string>))
    ensures Names(FieldPair(field)) == if TruthyText(field.1) then [field.0] else []
  {
  }

  /** The reference unrolled for four fields. */
  lemma TruthyPairsFour(fields: seq<(string, Option<string>)>)
    requires |fields| == 4
    ensures TruthyPairs(fields)
            == FieldPair(fields[0]) + FieldPair(fields[1]) + FieldPair(fields[2]) + FieldPair(fields[3])
  {
    assert fields[..3][..2] == fields[..2];
    assert fields[..2][..1] == fields[..1];
    assert fields[..1][..0] == [];
    assert TruthyPairs(fields[..1]) == FieldPair(fields[0]);
    assert TruthyPairs(fields[..2]) == FieldPair(fields[0]) + FieldPair(fields[1]);
    assert TruthyPairs(fields[..3]) == FieldPair(fields[0]) + FieldPair(fields[1]) + FieldPair(fields[2]);
    assert fields[..4] == fields;
  }

  /** No pair is produced exactly when no field is truthy. */
  lemma {:induction false} TruthyPairsEmpty(fields: seq<(string, Option<string>)>)
    ensures TruthyPairs(fields) == [] <==> forall i :: 0 <= i < |fields| ==> !TruthyText(fields[i].1)
  {
    if fields != [] {
      var init := fields[..|fields| - 1];
      TruthyPairsEmpty(init);
      assert forall i :: 0 <= i < |init| ==> init[i] == fields[i];
    }
  }

  /** The field names are pairwise distinct. */
  predicate DistinctFieldNames(fields: seq<(string, Option<string>)>) {
    forall i, j :: 0 <= i < j < |fields| ==> fields[i].0 != fields[j].0
  }

  /**
   * When the field names are distinct, a name is carried exactly when its field
   * is truthy, and then with the field's text.
   */
  lemma {:induction false} TruthyPairsLookup(fields: seq<(string, Option<string>)>, k: nat)
    requires DistinctFieldNames(fields) && k < |fields|
    ensures Lookup(TruthyPairs(fields), fields[k].0)
            == if TruthyText(fields[k].1) then Some(fields[k].1.value) else None
  {
    var n := |fields|;
    var init := fields[..n - 1];
    LookupAppend(TruthyPairs(init), FieldPair(fields[n - 1]), fields[k].0);
    if k < n - 1 {
      assert init[k] == fields[k];
      TruthyPairsLookup(init, k);
    } else {
      TruthyPairsMissing(init, fields[k].0);
    }
  }

  /** A name no field carries is never carried. */
  lemma {:induction false} TruthyPairsMissing(fields: seq<(string, Option<string>)>, name: string)
    requires forall i :: 0 <= i < |fields| ==> fields[i].0 != name
    ensures name !in Names(TruthyPairs(fields))
  {
    if fields != [] {
      var init := fields[..|fields| - 1];
      TruthyPairsMissing(init, name);
      NamesAppend(TruthyPairs(init), FieldPair(fields[|fields| - 1]));
    }
  }

  /**
   * Setting the next field, when it is truthy, extends the pairs of the fields
   * before it exactly as the reference does.
   */
  lemma TruthyPairsSet(fields: seq<(string, Option<string>)>, k: nat)
    requires k < |fields| && forall i :: 0 <= i < k ==> fields[i].0 != fields[k].0
    ensures TruthyPairs(fields[..k + 1])
            == if TruthyText(fields[k].1)
               then SetPair(TruthyPairs(fields[..k]), fields[k].0, fields[k].1.value)
               else TruthyPairs(fields[..k])
  {
    assert fields[..k + 1][..k] == fields[..k];
    TruthyPairsMissing(fields[..k], fields[k].0);
    if TruthyText(fields[k].1) {
      SetPairNew(TruthyPairs(fields[..k]), fields[k].0, fields[k].1.value);
    }
  }

  lemma {:induction false} NamesAppend(a: seq<Pair>, b: seq<Pair>)
    ensures Names(a + b) == Names(a) + Names(b)
  {
  }

  lemma {:induction false} LookupAppend(a: seq<Pair>, b: seq<Pair>, name: string)
    ensures Lookup(a + b, name) == Lookup(a, name).OrElse(Lookup(b, name))
  {
    if a == [] {
      assert a + b == b;
    } else {
      assert (a + b)[0] == a[0];
      assert (a + b)[1..] == a[1..] + b;
      if a[0].0 != name {
        LookupAppend(a[1..], b, name);
      }
    }
  }

  /** A `URLSearchParams` object built empty and filled with `set`. */
  class SearchParams {
    var pairs: seq<Pair>

    constructor ()
      ensures pairs == []
    {
      pairs := [];
    }

    /** `new URLSearchParams(current.toString())`: a copy of the current pairs. */
    constructor From(current: seq<Pair>)
      ensures pairs == current
    {
      pairs := current;
    }

    method Set(name: string, value: string)
      modifies this
      ensures pairs == SetPair(old(pairs), name, value)
    {
      pairs := SetPair(pairs, name, value);
    }

    /** `params.delete(name)`: every pair called `name` goes. */
    method Delete(name: string)
      modifies this
      ensures pairs == RemoveName(old(pairs), name)
    {
      pairs := RemoveName(pairs, name);
    }

    /** `if (value) params.set(name, value)`, for a name not yet present. */
    method SetIfTruthy(name: string, value: Option<string>)
      requires name !in Names(pairs)
      modifies this
      ensures pairs == old(pairs) + FieldPair((name, value))
      ensures Names(pairs) == Names(old(pairs)) + if TruthyText(value) then [name] else []
    {
      NamesAppend(pairs, FieldPair((name, value)));
      if TruthyText(value) {
        SetPairNew(pairs, name, value.value);
        Set(name, value.value);
      }
    }

    function Size(): nat
      reads this
    {
      |pairs|
    }

    function ToString(encode: string -> string): string
      reads this
    {
      Serialize(pairs, encode)
    }
  }
}
