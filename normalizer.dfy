/** The criteria normaliser: how `select`, `insert`, `update` and `delete`
    turn their argument into a list of models (`checkModels`). */
module Normalizer {
  import opened Wrappers
  import opened Values
  import opened PhpArray

  /** The argument as a list of models: an array is taken as the list
      itself (so the values of a raw map are the elements), any
      other value becomes the only element, under key 0. */
  function AsList(model: Value): seq<(string, Value)>
  {
    if model.Array? then model.entries else [("0", model)]
  }

  /** An object that is not a `DBScribe\Row`. */
  predicate Rejected(v: Value)
  {
    v.Object? && !v.row
  }

  /** The rebuilt map of one array element: every key `k` is stored under
      `camelTo(k)`, one entry after the other, as PHP assignments do. */
  function ConvertKeys(camelTo: string -> string, m: seq<(string, Value)>): seq<(string, Value)>
  {
    if m == [] then []
    else Put(ConvertKeys(camelTo, m[..|m| - 1]), camelTo(m[|m| - 1].0), m[|m| - 1].1)
  }

  /** One list element after normalisation: maps get their keys converted,
      rows and scalars are left as they are. */
  function Normal(camelTo: string -> string, v: Value): Value
  {
    if v.Array? then Array(ConvertKeys(camelTo, v.entries)) else v
  }

  /** The list `checkModels` leaves behind, or the error it throws. */
  function Normalized(camelTo: string -> string, models: seq<(string, Value)>): (r: Result<seq<(string, Value)>, Error>)
    ensures r.Ok? ==> |r.value| == |models|
  {
    if exists i :: 0 <= i < |models| && Rejected(models[i].1) then Err(NotAModel)
    else Ok(seq(|models|, i requires 0 <= i < |models| => (models[i].0, Normal(camelTo, models[i].1))))
  }

  /** `checkModels`: rewrites every element of the list, and throws on the
      first object that is not a row. */
  method CheckModels(camelTo: string -> string, models: seq<(string, Value)>)
    returns (r: Result<seq<(string, Value)>, Error>)
    ensures r == Normalized(camelTo, models)
    ensures r.Err? <==> exists i :: 0 <= i < |models| && Rejected(models[i].1)
    ensures r.Err? ==> r.error == NotAModel
    ensures r.Ok? ==> |r.value| == |models|
    ensures r.Ok? ==> forall i :: 0 <= i < |models| ==>
      r.value[i].0 == models[i].0 && r.value[i].1 == Normal(camelTo, models[i].1)
  {
    var done: seq<(string, Value)> := [];
    var i := 0;
    while i < |models|
      invariant 0 <= i <= |models|
      invariant |done| == i
      invariant forall j :: 0 <= j < i ==> !Rejected(models[j].1)
      invariant forall j :: 0 <= j < i ==> done[j] == (models[j].0, Normal(camelTo, models[j].1))
    {
      var (key, model) := models[i];
      if Rejected(model) {
        return Err(NotAModel);
      } else if model.Array? {
        var rebuilt := [];
        var n := 0;
        while n < |model.entries|
          invariant 0 <= n <= |model.entries|
          invariant rebuilt == ConvertKeys(camelTo, model.entries[..n])
        {
          assert model.entries[..n + 1][..n] == model.entries[..n];
          rebuilt := Put(rebuilt, camelTo(model.entries[n].0), model.entries[n].1);
          n := n + 1;
        }
        assert model.entries[..n] == model.entries;
        done := done + [(key, Array(rebuilt))];
      } else {
        done := done + [(key, model)];
      }
      i := i + 1;
    }
    assert done == seq(|models|, j requires 0 <= j < |models| => (models[j].0, Normal(camelTo, models[j].1)));
    r := Ok(done);
  }

  /** The rebuilt map never holds a key twice. */
  lemma {:induction false} ConvertKeysDistinct(camelTo: string -> string, m: seq<(string, Value)>)
    ensures DistinctKeys(ConvertKeys(camelTo, m))
  {
    if m != [] {
      ConvertKeysDistinct(camelTo, m[..|m| - 1]);
    }
  }

  /** Its keys are exactly the converted keys of the original. */
  lemma {:induction false} ConvertKeysKeys(camelTo: string -> string, m: seq<(string, Value)>, c: string)
    ensures HasKey(ConvertKeys(camelTo, m), c) <==> exists i :: 0 <= i < |m| && camelTo(m[i].0) == c
  {
    if m != [] {
      var init := m[..|m| - 1];
      var last := camelTo(m[|m| - 1].0);
      ConvertKeysKeys(camelTo, init, c);
      assert HasKey(ConvertKeys(camelTo, m), c) <==> HasKey(ConvertKeys(camelTo, init), c) || c == last by {
        if c != last {
          assert Get(ConvertKeys(camelTo, m), c) == Get(ConvertKeys(camelTo, init), c);
        }
      }
      if exists i :: 0 <= i < |init| && camelTo(init[i].0) == c {
        var i :| 0 <= i < |init| && camelTo(init[i].0) == c;
        assert m[i] == init[i];
      }
      if exists i :: 0 <= i < |m| && camelTo(m[i].0) == c {
        var i :| 0 <= i < |m| && camelTo(m[i].0) == c;
        if i < |m| - 1 {
          assert init[i] == m[i];
        }
      }
    }
  }

  /** Every value keeps the converted key of its entry; when two keys convert
      to the same column, the later entry's value wins. */
  lemma {:induction false} ConvertKeysValues(camelTo: string -> string, m: seq<(string, Value)>, i: nat)
    requires i < |m|
    requires forall j :: i < j < |m| ==> camelTo(m[j].0) != camelTo(m[i].0)
    ensures Get(ConvertKeys(camelTo, m), camelTo(m[i].0)) == Some(m[i].1)
  {
    if i < |m| - 1 {
      var init := m[..|m| - 1];
      assert init[i] == m[i];
      ConvertKeysValues(camelTo, init, i);
    }
  }

  /** When the conversion tells all keys apart, the rebuilt map is the
      original with each key converted, in the same order. */
  lemma {:induction false} ConvertKeysInjective(camelTo: string -> string, m: seq<(string, Value)>)
    requires forall i, j :: 0 <= i < j < |m| ==> camelTo(m[i].0) != camelTo(m[j].0)
    ensures |ConvertKeys(camelTo, m)| == |m|
    ensures forall i :: 0 <= i < |m| ==> ConvertKeys(camelTo, m)[i] == (camelTo(m[i].0), m[i].1)
  {
    if m != [] {
      var init := m[..|m| - 1];
      ConvertKeysInjective(camelTo, init);
      var last := camelTo(m[|m| - 1].0);
      ConvertKeysKeys(camelTo, init, last);
      assert !HasKey(ConvertKeys(camelTo, init), last);
      assert ConvertKeys(camelTo, m) == ConvertKeys(camelTo, init) + [(last, m[|m| - 1].1)];
    }
  }
}
