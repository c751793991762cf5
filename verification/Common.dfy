/** Constants of param.h, riscv.h and the machine's words that several modules use. */
module Params {
  const MAXOPBLOCKS: nat := 10
  const LOGSIZE: nat := MAXOPBLOCKS * 3
  const PGSIZE: nat := 4096
  const WORD: nat := 0x1_0000_0000    // the range of an unsigned int

  type Byte = x: int | 0 <= x < 256
}

module Options {
  datatype Option<T> = None | Some(value: T)
}

/** Facts about finite sets and sequences. */
module Collections {
  lemma SubsetSize<T>(a: set<T>, b: set<T>)
    requires a <= b
    ensures |a| <= |b|
  {
    assert b == a + (b - a);
  }

  lemma UnionSize<T>(a: set<T>, b: set<T>)
    ensures |a + b| <= |a| + |b|
  {
    assert |a + b| == |a| + |b| - |a * b|;
  }

  ghost function Indices(n: nat): (s: set<nat>)
    ensures |s| == n && forall i :: i in s <==> 0 <= i < n
  {
    if n == 0 then {} else Indices(n - 1) + {n - 1}
  }

  /** A set of fewer than n numbers leaves one below n out. */
  lemma OneLeft(held: set<nat>, n: nat)
    requires |held| < n
    ensures exists i :: 0 <= i < n && i !in held
  {
    var all := Indices(n);
    assert all == all * held + (all - held) && held == all * held + (held - all);
    assert all - held != {};
    var i :| i in all - held;
  }

  lemma {:induction false} ValuesSize<K, V>(m: map<K, V>)
    ensures |m.Values| <= |m|
    decreases |m|
  {
    if m != map[] {
      var k :| k in m;
      var rest := m - {k};
      assert rest.Keys == m.Keys - {k};
      ValuesSize(rest);
      forall v | v in m.Values ensures v in rest.Values + {m[k]} {
        var x :| x in m && m[x] == v;
        assert x != k ==> x in rest && rest[x] == v;
      }
      SubsetSize(m.Values, rest.Values + {m[k]});
      UnionSize(rest.Values, {m[k]});
    }
  }

  lemma {:induction false} ElementsSize<T>(s: seq<T>)
    ensures |set x | x in s| <= |s|
    decreases |s|
  {
    if s != [] {
      var init, last := s[..|s| - 1], s[|s| - 1];
      ElementsSize(init);
      assert (set x | x in s) == (set x | x in init) + {last};
      UnionSize(set x | x in init, {last});
    }
  }

  ghost predicate NoRepeats(s: seq<nat>) {
    forall i, j :: 0 <= i < j < |s| ==> s[i] != s[j]
  }
}
