/** Small vocabulary shared by the models of the desktop shell. */
module Common {

  datatype Option<+T> = None | Some(value: T)

  datatype Result<+T, +E> = Ok(value: T) | Err(error: E)

  type Byte = x: int | 0 <= x < 256

  /** A Go map read: the zero value (here `None`) for a missing key. */
  function Lookup<K, V>(m: map<K, V>, k: K): Option<V> {
    if k in m then Some(m[k]) else None
  }

  /** Go's clamp-from-below of a signed count. */
  function NonNegative(n: int): nat {
    if n < 0 then 0 else n
  }

  function Min(a: int, b: int): int {
    if a <= b then a else b
  }

  lemma Regroup<T>(a: seq<T>, b: seq<T>, c: seq<T>)
    ensures a + (b + c) == (a + b) + c
  {}

  predicate Distinct<T(==)>(xs: seq<T>) {
    forall i, j :: 0 <= i < j < |xs| ==> xs[i] != xs[j]
  }

  lemma DistinctConcat<T>(xs: seq<T>, ys: seq<T>)
    ensures Distinct(xs + ys) <==> Distinct(xs) && Distinct(ys) && forall x :: x in xs ==> x !in ys
  {
    var zs := xs + ys;
    if Distinct(xs) && Distinct(ys) && forall x :: x in xs ==> x !in ys {
      forall i, j | 0 <= i < j < |zs| ensures zs[i] != zs[j] {
        if i < |xs| <= j {
          assert xs[i] in xs && ys[j - |xs|] in ys;
        }
      }
    }
    if Distinct(zs) {
      forall x | x in xs ensures x !in ys {
        var i :| 0 <= i < |xs| && xs[i] == x;
        forall j | 0 <= j < |ys| ensures ys[j] != x {
          assert zs[|xs| + j] == ys[j] && zs[i] == x;
        }
      }
      forall i, j | 0 <= i < j < |xs| ensures xs[i] != xs[j] {
        assert zs[i] != zs[j];
      }
      forall i, j | 0 <= i < j < |ys| ensures ys[i] != ys[j] {
        assert zs[|xs| + i] != zs[|xs| + j];
      }
    }
  }
}
