/** `Utils.mutate` (frontend/src/world/utils.ts): random jitter of a number, a
    `Vector3`, or a record of such values. Every `Math.random()` call is one
    element of `ds`, consumed front to back in the order the source makes the
    calls; the unused tail is returned with the new value. */
module Mutation {
  import opened Basics

  datatype Value = Num(n: real) | Vector(v: Vec3) | Record(fields: seq<Field>)
  datatype Field = Field(key: string, value: Value)

  /** The number of draws `mutate` makes on a value. */
  function Needed(v: Value): nat
  {
    match v
    case Num(_) => 2
    case Vector(_) => 6
    case Record(fs) => FieldsNeeded(fs)
  }

  function FieldsNeeded(fs: seq<Field>): nat
  {
    if fs == [] then 0 else Needed(fs[0].value) + FieldsNeeded(fs[1..])
  }

  /** The rate a record passes down to one of its fields: proportional for a
      numeric field, unchanged otherwise. */
  function FieldRate(v: Value, rate: real): real
  {
    if v.Num? then v.n * rate else rate
  }

  /** `b` is within the jitter of rate `rate` around `a`: strictly closer than
      |rate|, or equal when the rate is 0. */
  predicate Near(b: real, a: real, rate: real)
  {
    if rate == 0.0 then b == a else Abs(b - a) < Abs(rate)
  }

  /** `out` has the shape of `v` (same constructors, same keys in the same
      order, all the way down) and each number in it is Near the number at the
      same place in `v`, at the rate that place receives. */
  predicate Within(out: Value, v: Value, rate: real)
  {
    match v
    case Num(n) => out.Num? && Near(out.n, n, rate)
    case Vector(p) =>
      out.Vector? && Near(out.v.x, p.x, rate) && Near(out.v.y, p.y, rate) && Near(out.v.z, p.z, rate)
    case Record(fs) =>
      out.Record? && |out.fields| == |fs| &&
      forall i :: 0 <= i < |fs| ==>
        out.fields[i].key == fs[i].key && Within(out.fields[i].value, fs[i].value, FieldRate(fs[i].value, rate))
  }

  /** The scalar case: `sign` is -1 iff the first draw exceeds 0.5, the
      magnitude is the second draw times the rate. */
  function Jitter(x: real, rate: real, signDraw: real, sizeDraw: real): (r: real)
    requires IsDraw(sizeDraw)
    ensures Near(r, x, rate)
    ensures rate > 0.0 && sizeDraw > 0.0 ==> (r < x <==> signDraw > 0.5)
  {
    var magnitude := sizeDraw * rate;
    ScaledDraw(sizeDraw, rate);
    if signDraw > 0.5 then x - magnitude else x + magnitude
  }

  /** The scalar moves by exactly the second draw times the rate, down when the
      first draw exceeds 0.5 and up otherwise. */
  lemma JitterMagnitude(x: real, rate: real, signDraw: real, sizeDraw: real)
    requires IsDraw(sizeDraw)
    ensures signDraw > 0.5 ==> x - Jitter(x, rate, signDraw, sizeDraw) == sizeDraw * rate
    ensures signDraw <= 0.5 ==> Jitter(x, rate, signDraw, sizeDraw) - x == sizeDraw * rate
  {
  }

  function Mutate(v: Value, rate: real, ds: seq<real>): (r: (Value, seq<real>))
    requires AreDraws(ds) && Needed(v) <= |ds|
    ensures Within(r.0, v, rate)
    ensures r.1 == ds[Needed(v)..]
    decreases v, 1
  {
    match v
    case Num(n) => (Num(Jitter(n, rate, ds[0], ds[1])), ds[2..])
    case Vector(p) =>
      (Vector(Vec3(Jitter(p.x, rate, ds[0], ds[1]),
                   Jitter(p.y, rate, ds[2], ds[3]),
                   Jitter(p.z, rate, ds[4], ds[5]))), ds[6..])
    case Record(fs) =>
      var (gs, rest) := MutateFields(fs, rate, ds);
      (Record(gs), rest)
  }

  /** The `Object.keys(...).forEach` loop, one key after the other. */
  function MutateFields(fs: seq<Field>, rate: real, ds: seq<real>): (r: (seq<Field>, seq<real>))
    requires AreDraws(ds) && FieldsNeeded(fs) <= |ds|
    ensures |r.0| == |fs|
    ensures forall i :: 0 <= i < |fs| ==>
      r.0[i].key == fs[i].key && Within(r.0[i].value, fs[i].value, FieldRate(fs[i].value, rate))
    ensures r.1 == ds[FieldsNeeded(fs)..]
    decreases fs
  {
    if fs == [] then ([], ds)
    else
      var (v, ds') := Mutate(fs[0].value, FieldRate(fs[0].value, rate), ds);
      var (gs, rest) := MutateFields(fs[1..], rate, ds');
      assert ds' == ds[Needed(fs[0].value)..];
      ([Field(fs[0].key, v)] + gs, rest)
  }

  function Keys(fs: seq<Field>): seq<string>
  {
    if fs == [] then [] else [fs[0].key] + Keys(fs[1..])
  }

  /** A record comes back with exactly the keys it went in with, in order. */
  lemma {:induction false} MutateKeepsKeys(fs: seq<Field>, rate: real, ds: seq<real>)
    requires AreDraws(ds) && FieldsNeeded(fs) <= |ds|
    ensures var r := Mutate(Record(fs), rate, ds).0; r.Record? && Keys(r.fields) == Keys(fs)
  {
    var r := Mutate(Record(fs), rate, ds).0;
    SameKeys(r.fields, fs);
  }

  lemma {:induction false} SameKeys(gs: seq<Field>, fs: seq<Field>)
    requires |gs| == |fs| && forall i :: 0 <= i < |fs| ==> gs[i].key == fs[i].key
    ensures Keys(gs) == Keys(fs)
  {
    if fs != [] {
      SameKeys(gs[1..], fs[1..]);
    }
  }

  /** A numeric field `n` of a record moves by less than |n * rate| (not at
      all when n * rate is 0). */
  lemma {:induction false} NumericFieldBound(fs: seq<Field>, rate: real, ds: seq<real>, i: nat)
    requires AreDraws(ds) && FieldsNeeded(fs) <= |ds|
    requires i < |fs| && fs[i].value.Num?
    ensures var out := Mutate(Record(fs), rate, ds).0;
      out.Record? && |out.fields| == |fs| && out.fields[i].value.Num? &&
      Near(out.fields[i].value.n, fs[i].value.n, fs[i].value.n * rate)
  {
    var out := Mutate(Record(fs), rate, ds).0;
    FieldWithin(out, fs, rate, i);
  }

  lemma FieldWithin(out: Value, fs: seq<Field>, rate: real, i: nat)
    requires Within(out, Record(fs), rate)
    requires i < |fs| && fs[i].value.Num?
    ensures out.Record? && |out.fields| == |fs| && out.fields[i].value.Num?
    ensures Near(out.fields[i].value.n, fs[i].value.n, fs[i].value.n * rate)
  {
    var m := fs[i].value.n * rate;
    assert FieldRate(fs[i].value, rate) == m;
    assert Within(out.fields[i].value, fs[i].value, m);
  }

  /** A zero rate changes nothing, at any depth. */
  lemma {:induction false} ZeroRateIdentity(out: Value, v: Value)
    requires Within(out, v, 0.0)
    ensures out == v
    decreases v
  {
    match v
    case Num(_) =>
    case Vector(p) =>
    case Record(fs) =>
      forall i | 0 <= i < |fs|
        ensures out.fields[i] == fs[i]
      {
        assert FieldRate(fs[i].value, 0.0) == 0.0;
        ZeroRateIdentity(out.fields[i].value, fs[i].value);
      }
      assert out.fields == fs;
  }
}
