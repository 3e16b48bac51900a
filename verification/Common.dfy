/** Types and small facts that every module uses. */
module Common {

  datatype Option<+T> = None | Some(value: T)

  type byte = n: nat | n < 0x100
  type u32 = n: nat | n < 0x1_0000_0000
  type u64 = n: nat | n < 0x1_0000_0000_0000_0000
  /** A UUID as the big-endian number of its sixteen bytes. */
  type Uuid = n: nat | n < 0x1_0000_0000_0000_0000_0000_0000_0000_0000

  lemma SubsetSize<T>(a: set<T>, b: set<T>)
    requires a <= b
    ensures |a| <= |b|
  {
    assert b == a + (b - a);
  }

  lemma OneMore<T>(before: seq<T>, frames: seq<T>, k: nat)
    requires 1 <= k < |frames|
    ensures before + frames[1..k + 1] == before + frames[1..k] + [frames[k]]
  {
  }

  lemma OnlyKey<K, V>(m: map<K, V>, k: K, v: V)
    requires m.Keys == {k}
    ensures m[k := v] == map[k := v]
  {
  }

  lemma Regrouped<T>(a: seq<T>, b: seq<T>, c: seq<T>)
    ensures a + (b + c) == a + b + c
  {
  }
}
