/**
 Machine types and small helpers shared by every component: bytes, 32-bit rounds with Rust's
 saturating operators, times in milliseconds, and the smallest and largest key of a map (what the
 source gets from a `BTreeMap`).
 */
module Primitives {

  type byte = x: int | 0 <= x < 0x100
  type u32 = x: int | 0 <= x < 0x1_0000_0000

  const U32_MAX: u32 := 0xFFFF_FFFF

  // Milliseconds on a monotonic clock.
  type Time = nat

  datatype Option<+T> = None | Some(value: T)

  function SatAdd(a: u32, b: u32): u32 {
    if a + b <= U32_MAX then a + b else U32_MAX
  }

  function SatSub(a: nat, b: nat): nat {
    if a >= b then a - b else 0
  }

  // `saturating_duration_since`: an earlier clock reading counts as no time at all.
  function Elapsed(now: Time, since: Time): nat {
    SatSub(now, since)
  }

  function Max(a: int, b: int): int {
    if a >= b then a else b
  }

  function Min(a: int, b: int): int {
    if a <= b then a else b
  }

  predicate StrictlyIncreasing(s: seq<int>) {
    forall i, j | 0 <= i < j < |s| :: s[i] < s[j]
  }

  predicate NoDuplicates<T(==)>(s: seq<T>) {
    forall i, j | 0 <= i < j < |s| :: s[i] != s[j]
  }

  // ---- ordered maps ----

  lemma {:induction false} Least(s: set<u32>) returns (lo: u32)
    requires s != {}
    ensures lo in s && forall k | k in s :: lo <= k
    decreases |s|
  {
    var x :| x in s;
    lo := x;
    var rest := s - {x};
    if rest != {} {
      var r := Least(rest);
      lo := if r < x then r else x;
      forall k | k in s ensures lo <= k {
        assert k == x || k in rest;
      }
    }
  }

  lemma {:induction false} Greatest(s: set<u32>) returns (hi: u32)
    requires s != {}
    ensures hi in s && forall k | k in s :: k <= hi
    decreases |s|
  {
    var x :| x in s;
    hi := x;
    var rest := s - {x};
    if rest != {} {
      var r := Greatest(rest);
      hi := if r > x then r else x;
      forall k | k in s ensures k <= hi {
        assert k == x || k in rest;
      }
    }
  }

  lemma LeastExists(s: set<u32>)
    requires s != {}
    ensures exists lo :: lo in s && forall k | k in s :: lo <= k
  {
    var lo := Least(s);
  }

  lemma GreatestExists(s: set<u32>)
    requires s != {}
    ensures exists hi :: hi in s && forall k | k in s :: k <= hi
  {
    var hi := Greatest(s);
  }

  function MinKey<V>(m: map<u32, V>): (r: u32)
    requires m != map[]
    ensures r in m && forall k | k in m :: r <= k
  {
    LeastExists(m.Keys);
    var r :| r in m.Keys && forall k | k in m.Keys :: r <= k;
    r
  }

  function MaxKey<V>(m: map<u32, V>): (r: u32)
    requires m != map[]
    ensures r in m && forall k | k in m :: k <= r
  {
    GreatestExists(m.Keys);
    var r :| r in m.Keys && forall k | k in m.Keys :: k <= r;
    r
  }

  // The entries of `m` at or above `lo`.
  function From<V>(m: map<u32, V>, lo: u32): map<u32, V> {
    map k | k in m && k >= lo :: m[k]
  }

  // The entries of `m` strictly above `floor`.
  function Above<V>(m: map<u32, V>, floor: u32): map<u32, V> {
    map k | k in m && k > floor :: m[k]
  }
}
