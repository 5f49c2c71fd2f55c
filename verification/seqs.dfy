/**
 * Sequence and string helpers that stand for the Ruby core methods the
 * modelled code leans on: Array#select, Array#uniq, Set#|, Enumerable#each_slice,
 * Array#flatten, String#split, Array#join and Integer#to_s.
 */
module Seqs {

  predicate NoDuplicates<T(==,!new)>(s: seq<T>) {
    forall i, j :: 0 <= i < j < |s| ==> s[i] != s[j]
  }

  /** Array#select: the elements satisfying p, in their original order. */
  function Filter<T(==,!new)>(s: seq<T>, p: T -> bool): (r: seq<T>)
    ensures |r| <= |s|
    ensures forall x :: x in r <==> x in s && p(x)
    ensures NoDuplicates(s) ==> NoDuplicates(r)
  {
    if s == [] then []
    else if p(s[0]) then [s[0]] + Filter(s[1..], p)
    else Filter(s[1..], p)
  }

  lemma {:induction false} FilterAppend<T(!new)>(a: seq<T>, b: seq<T>, p: T -> bool)
    ensures Filter(a + b, p) == Filter(a, p) + Filter(b, p)
  {
    if a == [] {
      assert a + b == b;
    } else {
      assert (a + b)[0] == a[0];
      assert (a + b)[1..] == a[1..] + b;
      FilterAppend(a[1..], b, p);
    }
  }

  /** Selecting by a predicate every element satisfies keeps everything. */
  lemma {:induction false} FilterKeepsAll<T(!new)>(s: seq<T>, p: T -> bool)
    requires forall x :: x in s ==> p(x)
    ensures Filter(s, p) == s
  {
    if s != [] {
      assert forall x :: x in s[1..] ==> x in s;
      FilterKeepsAll(s[1..], p);
    }
  }

  /** Selecting by p and then by q is selecting by both at once. */
  lemma {:induction false} FilterFilter<T(!new)>(s: seq<T>, p: T -> bool, q: T -> bool, pq: T -> bool)
    requires forall x :: pq(x) == (p(x) && q(x))
    ensures Filter(Filter(s, p), q) == Filter(s, pq)
  {
    if s != [] {
      FilterFilter(s[1..], p, q, pq);
      if p(s[0]) {
        var t := [s[0]] + Filter(s[1..], p);
        assert t[0] == s[0] && t[1..] == Filter(s[1..], p);
      }
    }
  }

  /** Two sequences that agree on the predicate position by position keep equally many elements. */
  lemma {:induction false} FilterSameCount<A(!new), B(!new)>(a: seq<A>, b: seq<B>, p: A -> bool, q: B -> bool)
    requires |a| == |b|
    requires forall k :: 0 <= k < |a| ==> p(a[k]) == q(b[k])
    ensures |Filter(a, p)| == |Filter(b, q)|
  {
    if a != [] {
      assert forall k :: 0 <= k < |a| - 1 ==> a[1..][k] == a[k + 1] && b[1..][k] == b[k + 1];
      FilterSameCount(a[1..], b[1..], p, q);
    }
  }

  /** Array#uniq: keeps the first occurrence of every element, in order. */
  function Dedup<T(==,!new)>(s: seq<T>): (r: seq<T>)
    ensures NoDuplicates(r)
    ensures forall x :: x in r <==> x in s
    ensures |r| <= |s|
    decreases |s|
  {
    if s == [] then []
    else
      var prefix := Dedup(s[..|s| - 1]);
      assert forall x :: x in s <==> x in s[..|s| - 1] || x == s[|s| - 1];
      if s[|s| - 1] in prefix then prefix else prefix + [s[|s| - 1]]
  }

  /** uniq leaves a list that already has no duplicates as it is. */
  lemma {:induction false} DedupKeepsUnique<T(!new)>(s: seq<T>)
    requires NoDuplicates(s)
    ensures Dedup(s) == s
    decreases |s|
  {
    if s != [] {
      var init := s[..|s| - 1];
      assert NoDuplicates(init);
      DedupKeepsUnique(init);
      assert s[|s| - 1] !in init;
      assert init + [s[|s| - 1]] == s;
    }
  }

  /** uniq is idempotent. */
  lemma DedupIdempotent<T(!new)>(s: seq<T>)
    ensures Dedup(Dedup(s)) == Dedup(s)
  {
    DedupKeepsUnique(Dedup(s));
  }

  /** No two elements share a key. */
  predicate KeysDistinct<T, K(==)>(s: seq<T>, key: T -> K) {
    forall i, j :: 0 <= i < j < |s| ==> key(s[i]) != key(s[j])
  }

  /** Set#include? for elements whose == and hash go by `key`: some element has key k. */
  predicate HasKey<T(==,!new), K(==)>(s: seq<T>, key: T -> K, k: K) {
    exists x :: x in s && key(x) == k
  }

  /**
   * Array#uniq, and a Set built element by element, for elements whose ==
   * and hash go by `key`: the first element of each key, in order.
   */
  function DedupBy<T(==,!new), K(==,!new)>(s: seq<T>, key: T -> K): (r: seq<T>)
    ensures KeysDistinct(r, key)
    ensures forall x :: x in r ==> x in s
    ensures forall x :: x in s ==> HasKey(r, key, key(x))
    ensures |r| <= |s|
    decreases |s|
  {
    if s == [] then []
    else
      var prefix := DedupBy(s[..|s| - 1], key);
      var x := s[|s| - 1];
      assert forall y :: y in s <==> y in s[..|s| - 1] || y == x;
      if HasKey(prefix, key, key(x)) then prefix else prefix + [x]
  }

  /** A list whose keys are already distinct is left as it is. */
  lemma {:induction false} DedupByKeepsDistinct<T(!new), K(!new)>(s: seq<T>, key: T -> K)
    requires KeysDistinct(s, key)
    ensures DedupBy(s, key) == s
    decreases |s|
  {
    if s != [] {
      var init := s[..|s| - 1];
      DedupByKeepsDistinct(init, key);
      assert init + [s[|s| - 1]] == s;
    }
  }

  /** Removing repeats from a + b leaves the repeat-free a at the front. */
  lemma {:induction false} DedupByPrefix<T(!new), K(!new)>(a: seq<T>, b: seq<T>, key: T -> K)
    ensures |DedupBy(a, key)| <= |DedupBy(a + b, key)|
    ensures DedupBy(a + b, key)[..|DedupBy(a, key)|] == DedupBy(a, key)
    decreases |b|
  {
    if b == [] {
      assert a + b == a;
    } else {
      var b' := b[..|b| - 1];
      DedupByPrefix(a, b', key);
      assert (a + b)[..|a + b| - 1] == a + b';
    }
  }

  /**
   * When equal keys only come from equal elements, removing repeats by key
   * is Array#uniq.
   */
  lemma {:induction false} DedupByInjective<T(!new), K(!new)>(s: seq<T>, key: T -> K)
    requires forall x, y :: x in s && y in s && key(x) == key(y) ==> x == y
    ensures DedupBy(s, key) == Dedup(s)
    decreases |s|
  {
    if s != [] {
      var init := s[..|s| - 1];
      var x := s[|s| - 1];
      assert forall y :: y in init ==> y in s;
      DedupByInjective(init, key);
      assert HasKey(DedupBy(init, key), key, key(x)) <==> x in Dedup(init);
    }
  }

  /**
   * Set#| for elements whose == and hash go by `key`: a's elements, then
   * those of b whose key is new, each once.
   */
  function UnionBy<T(==,!new), K(==,!new)>(a: seq<T>, b: seq<T>, key: T -> K): (r: seq<T>)
    ensures KeysDistinct(r, key)
    ensures forall x :: x in r ==> x in a || x in b
    ensures forall x :: x in a || x in b ==> HasKey(r, key, key(x))
    ensures KeysDistinct(a, key) ==> |a| <= |r| && r[..|a|] == a
  {
    DedupByPrefix(a, b, key);
    if KeysDistinct(a, key) then DedupByKeepsDistinct(a, key); DedupBy(a + b, key)
    else DedupBy(a + b, key)
  }

  /** Array#map. */
  function MapSeq<A, B>(f: A -> B, s: seq<A>): (r: seq<B>)
    ensures |r| == |s|
    ensures forall k :: 0 <= k < |s| ==> r[k] == f(s[k])
  {
    seq(|s|, k requires 0 <= k < |s| => f(s[k]))
  }

  lemma MapSeqAppend<A, B>(f: A -> B, a: seq<A>, b: seq<A>)
    ensures MapSeq(f, a + b) == MapSeq(f, a) + MapSeq(f, b)
  {
    var l, r := MapSeq(f, a + b), MapSeq(f, a) + MapSeq(f, b);
    forall k | 0 <= k < |l|
      ensures l[k] == r[k]
    {
      if k < |a| {
        assert (a + b)[k] == a[k];
      } else {
        assert (a + b)[k] == b[k - |a|];
      }
    }
  }

  lemma AppendAssoc<T>(a: seq<T>, b: seq<T>, c: seq<T>)
    ensures (a + b) + c == a + (b + c)
  {
  }

  /** The first i + 1 elements are the first i followed by element i. */
  lemma TakeOneMore<T>(s: seq<T>, i: nat)
    requires i < |s|
    ensures s[..i + 1] == s[..i] + [s[i]]
  {
  }

  /** Array#flatten(1). */
  function Flatten<T>(ss: seq<seq<T>>): seq<T> {
    if ss == [] then [] else ss[0] + Flatten(ss[1..])
  }

  lemma {:induction false} FlattenAppend<T>(a: seq<seq<T>>, b: seq<seq<T>>)
    ensures Flatten(a + b) == Flatten(a) + Flatten(b)
  {
    if a == [] {
      assert a + b == b;
    } else {
      assert (a + b)[0] == a[0];
      assert (a + b)[1..] == a[1..] + b;
      FlattenAppend(a[1..], b);
    }
  }

  /** An element of a flattened list comes from one of the lists. */
  lemma {:induction false} FlattenContains<T>(ss: seq<seq<T>>, x: T)
    ensures x in Flatten(ss) <==> exists k :: 0 <= k < |ss| && x in ss[k]
  {
    if ss != [] {
      var tail := ss[1..];
      FlattenContains(tail, x);
      assert Flatten(ss) == ss[0] + Flatten(tail);
      if x in Flatten(ss) && x !in ss[0] {
        var k :| 0 <= k < |tail| && x in tail[k];
        assert x in ss[k + 1];
      }
      if exists k :: 0 <= k < |ss| && x in ss[k] {
        var k :| 0 <= k < |ss| && x in ss[k];
        if k > 0 {
          assert x in tail[k - 1];
        }
      }
    }
  }

  lemma FlattenMember<T>(ss: seq<seq<T>>)
    ensures forall x :: x in Flatten(ss) <==> exists k :: 0 <= k < |ss| && x in ss[k]
  {
    forall x {
      FlattenContains(ss, x);
    }
  }

  /**
   * Enumerable#each_slice(n): consecutive slices of n elements, the last one
   * possibly shorter, none empty.
   */
  function Chunks<T>(s: seq<T>, n: nat): (r: seq<seq<T>>)
    requires n > 0
    ensures Flatten(r) == s
    ensures forall i :: 0 <= i < |r| ==> 0 < |r[i]| <= n
    ensures forall i :: 0 <= i < |r| - 1 ==> |r[i]| == n
    decreases |s|
  {
    if s == [] then []
    else if |s| <= n then
      assert Flatten([s]) == s + Flatten([s][1..]);
      [s]
    else
      var rest := Chunks(s[n..], n);
      assert ([s[..n]] + rest)[1..] == rest;
      assert s[..n] + s[n..] == s;
      [s[..n]] + rest
  }

  /** each_slice(n) yields ceil(|s| / n) slices. */
  lemma {:induction false} ChunksCount<T>(s: seq<T>, n: nat)
    requires n > 0
    ensures |Chunks(s, n)| == (|s| + n - 1) / n
    decreases |s|
  {
    if s == [] {
      DivUnique(n - 1, n, 0, n - 1);
    } else if |s| <= n {
      DivUnique(|s| + n - 1, n, 1, |s| - 1);
    } else {
      var a := |s| - 1;
      ChunksCount(s[n..], n);
      assert |s[n..]| + n - 1 == a;
      DivShift(a, n);
      assert |s| + n - 1 == a + n;
    }
  }

  lemma DivShift(a: nat, n: nat)
    requires n > 0
    ensures (a + n) / n == a / n + 1
  {
    var q, r := a / n, a % n;
    assert a == q * n + r;
    assert a + n == (q + 1) * n + r;
    DivUnique(a + n, n, q + 1, r);
  }

  lemma DivUnique(x: int, n: int, q: int, r: int)
    requires n > 0 && 0 <= r < n && x == q * n + r
    ensures x / n == q
  {
    var d := x / n - q;
    assert d * n == r - x % n;
  }

  /** Array#join(sep). */
  function Join(parts: seq<string>, sep: string): string {
    if parts == [] then ""
    else if |parts| == 1 then parts[0]
    else parts[0] + sep + Join(parts[1..], sep)
  }

  ghost predicate InfixAt(x: string, s: string, k: int) {
    0 <= k <= |s| - |x| && s[k..k + |x|] == x
  }

  ghost predicate IsInfix(x: string, s: string) {
    exists k :: InfixAt(x, s, k)
  }

  /** Every part of a joined list can be found in the joined string. */
  lemma {:induction false} JoinHasEachPart(parts: seq<string>, sep: string, i: nat)
    requires i < |parts|
    ensures IsInfix(parts[i], Join(parts, sep))
  {
    var s := Join(parts, sep);
    if i == 0 {
      assert InfixAt(parts[0], s, 0);
    } else {
      JoinHasEachPart(parts[1..], sep, i - 1);
      var t := Join(parts[1..], sep);
      assert parts[1..][i - 1] == parts[i];
      var k :| InfixAt(parts[i], t, k);
      var off := |parts[0]| + |sep|;
      assert s == parts[0] + sep + t;
      assert s[off + k..off + k + |parts[i]|] == t[k..k + |parts[i]|];
      assert InfixAt(parts[i], s, off + k);
    }
  }

  /**
   * String#split(sep) before Ruby drops trailing empty fields: the fields
   * between separators, always at least one.
   */
  function SplitFields(s: string, sep: char): (parts: seq<string>)
    ensures |parts| >= 1
    ensures forall p :: p in parts ==> sep !in p
  {
    if s == [] then [""]
    else
      var rest := SplitFields(s[1..], sep);
      if s[0] == sep then [""] + rest
      else [[s[0]] + rest[0]] + rest[1..]
  }

  /** Joining the fields again with the separator gives back the string. */
  lemma {:induction false} SplitFieldsJoin(s: string, sep: char)
    ensures Join(SplitFields(s, sep), [sep]) == s
  {
    if s != [] {
      var rest := SplitFields(s[1..], sep);
      SplitFieldsJoin(s[1..], sep);
      if s[0] == sep {
        var parts := [""] + rest;
        assert parts[1..] == rest;
        assert Join(parts, [sep]) == "" + [sep] + Join(rest, [sep]);
        assert [s[0]] + s[1..] == s;
      } else {
        var parts := [[s[0]] + rest[0]] + rest[1..];
        assert parts[1..] == rest[1..];
        if |rest| == 1 {
          assert Join(rest, [sep]) == rest[0];
          assert Join(parts, [sep]) == [s[0]] + rest[0];
        } else {
          assert Join(rest, [sep]) == rest[0] + [sep] + Join(rest[1..], [sep]);
          assert Join(parts, [sep]) == ([s[0]] + rest[0]) + [sep] + Join(rest[1..], [sep]);
        }
        assert [s[0]] + s[1..] == s;
      }
    }
  }

  /** Splitting at one separator splits the two sides independently. */
  lemma {:induction false} SplitFieldsConcat(a: string, b: string, sep: char)
    ensures SplitFields(a + [sep] + b, sep) == SplitFields(a, sep) + SplitFields(b, sep)
  {
    if a == [] {
      assert a + [sep] + b == [sep] + b;
      assert ([sep] + b)[1..] == b;
    } else {
      var s := a + [sep] + b;
      assert s[0] == a[0];
      assert s[1..] == a[1..] + [sep] + b;
      SplitFieldsConcat(a[1..], b, sep);
      var fa, fb := SplitFields(a[1..], sep), SplitFields(b, sep);
      var rest := SplitFields(s[1..], sep);
      assert rest == fa + fb;
      if a[0] == sep {
        AppendAssoc([""], fa, fb);
      } else {
        assert rest[0] == fa[0];
        assert rest[1..] == fa[1..] + fb;
        AppendAssoc([[a[0]] + fa[0]], fa[1..], fb);
      }
    }
  }

  function DropTrailingEmpty(parts: seq<string>): (r: seq<string>)
    ensures r <= parts
    ensures r == [] || r[|r| - 1] != ""
    ensures forall k :: |r| <= k < |parts| ==> parts[k] == ""
  {
    if parts == [] then []
    else if parts[|parts| - 1] == "" then DropTrailingEmpty(parts[..|parts| - 1])
    else parts
  }

  /** String#split(sep): the fields, with trailing empty fields removed. */
  function RubySplit(s: string, sep: char): (parts: seq<string>)
    ensures forall p :: p in parts ==> sep !in p
    ensures forall t :: t != "" ==> (t in parts <==> t in SplitFields(s, sep))
  {
    var all := SplitFields(s, sep);
    var r := DropTrailingEmpty(all);
    assert forall k :: 0 <= k < |r| ==> r[k] == all[k];
    r
  }

  /** Integer#to_s. */
  function NatToString(n: nat): (s: string)
    ensures |s| >= 1
    ensures forall i :: 0 <= i < |s| ==> '0' <= s[i] <= '9'
  {
    if n < 10 then [DigitChar(n)] else NatToString(n / 10) + [DigitChar(n % 10)]
  }

  function DigitChar(d: nat): (c: char)
    requires d < 10
    ensures '0' <= c <= '9' && c as int - '0' as int == d
  {
    (d + '0' as int) as char
  }

  /** String#to_i on a string of decimal digits. */
  function ParseNat(s: string): nat
    requires forall i :: 0 <= i < |s| ==> '0' <= s[i] <= '9'
  {
    if s == [] then 0
    else
      ParseNat(s[..|s| - 1]) * 10 + (s[|s| - 1] as int - '0' as int)
  }

  /** Decimal printing round-trips through parsing, so it is injective. */
  lemma {:induction false} ParseNatToString(n: nat)
    ensures ParseNat(NatToString(n)) == n
  {
    if n >= 10 {
      var s := NatToString(n / 10) + [DigitChar(n % 10)];
      assert s[..|s| - 1] == NatToString(n / 10);
      ParseNatToString(n / 10);
    }
  }

  lemma NatToStringInjective(a: nat, b: nat)
    ensures NatToString(a) == NatToString(b) ==> a == b
  {
    ParseNatToString(a);
    ParseNatToString(b);
  }
}
