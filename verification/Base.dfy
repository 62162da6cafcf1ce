/** Small types shared by every other module. */
module Base {

  datatype Option<+T> = None | Some(value: T) {
    function GetOr(default: T): T {
      match this
      case Some(v) => v
      case None => default
    }
  }

  function Min(a: real, b: real): real {
    if a <= b then a else b
  }

  function Max(a: real, b: real): real {
    if a >= b then a else b
  }

  function Abs(a: real): real {
    if a >= 0.0 then a else -a
  }

  /** The value under a key, as a Python dict's get returns it. */
  function Get<K, V>(m: map<K, V>, key: K): Option<V> {
    if key in m then Some(m[key]) else None
  }

  /** The map with one key set, or removed where there is no value. */
  function Put<K(!new), V>(m: map<K, V>, key: K, value: Option<V>): (r: map<K, V>)
    ensures Get(r, key) == value
    ensures forall k :: k != key ==> Get(r, k) == Get(m, k)
  {
    match value
    case Some(v) => m[key := v]
    case None => m - {key}
  }

  /** How far a run of readings moves in all, starting from one. */
  function Variation(from: real, xs: seq<real>): (v: real)
    ensures v >= 0.0
    decreases |xs|
  {
    if xs == [] then 0.0 else Abs(xs[0] - from) + Variation(xs[0], xs[1..])
  }

  /** w taken n times, which the proofs add up where a product would be nonlinear. */
  function Scaled(w: real, n: nat): real
    decreases n
  {
    if n == 0 then 0.0 else w + Scaled(w, n - 1)
  }

  lemma {:induction false} ScaledIs(w: real, n: nat)
    ensures Scaled(w, n) == w * n as real
    decreases n
  {
    if n > 0 {
      ScaledIs(w, n - 1);
      var m := (n - 1) as real;
      assert n as real == m + 1.0;
      assert w * (m + 1.0) == w * m + w;
    }
  }
}
