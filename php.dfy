/**
 * The few PHP built-ins the model relies on: `strtoupper`, `sprintf('%d')`,
 * `empty()` on a string, and PHP's ordered arrays with string keys
 * (`$a[$k] = $v`, `array_merge`).
 */
module Php {
  import opened Wrappers

  // ---------------------------------------------------------------------
  // strtoupper (ASCII only, as PHP 8.2 and later do)
  // ---------------------------------------------------------------------

  function UpperChar(c: char): char {
    if 'a' <= c <= 'z' then (c as int - 32) as char else c
  }

  function Upper(s: string): (r: string)
    ensures |r| == |s|
    ensures forall i :: 0 <= i < |s| ==> r[i] == UpperChar(s[i])
  {
    if s == [] then [] else [UpperChar(s[0])] + Upper(s[1..])
  }

  /** Upper-casing an upper-cased string changes nothing. */
  lemma UpperIdempotent(s: string)
    ensures Upper(Upper(s)) == Upper(s)
  {
    var u := Upper(s);
    assert forall i :: 0 <= i < |u| ==> Upper(u)[i] == u[i];
  }

  /** strtoupper works character by character, so it distributes over concatenation. */
  lemma UpperConcat(a: string, b: string)
    ensures Upper(a + b) == Upper(a) + Upper(b)
  {
    assert forall i :: 0 <= i < |a + b| ==> Upper(a + b)[i] == (Upper(a) + Upper(b))[i];
  }

  /** A string with no lower-case ASCII letter is its own upper case. */
  lemma UpperNoLower(s: string)
    requires forall i :: 0 <= i < |s| ==> !('a' <= s[i] <= 'z')
    ensures Upper(s) == s
  {
  }

  // ---------------------------------------------------------------------
  // sprintf('%d', n) for a non-negative n
  // ---------------------------------------------------------------------

  predicate IsDigit(c: char) { '0' <= c <= '9' }

  function DigitChar(d: nat): (c: char)
    requires d < 10
    ensures IsDigit(c)
  {
    (('0' as int) + d) as char
  }

  function DigitValue(c: char): nat
    requires IsDigit(c)
  {
    (c as int) - ('0' as int)
  }

  /** The decimal representation of `n`, most significant digit first, no leading zeros. */
  function DecimalString(n: nat): (s: string)
    ensures |s| >= 1
    ensures forall i :: 0 <= i < |s| ==> IsDigit(s[i])
    ensures n >= 10 <==> |s| >= 2
    decreases n
  {
    if n < 10 then [DigitChar(n)] else DecimalString(n / 10) + [DigitChar(n % 10)]
  }

  /** Reads a string of decimal digits back as a number. */
  function DecimalValue(s: string): nat
    requires forall i :: 0 <= i < |s| ==> IsDigit(s[i])
  {
    if s == [] then 0 else DecimalValue(s[..|s| - 1]) * 10 + DigitValue(s[|s| - 1])
  }

  lemma {:induction false} DecimalRoundTrip(n: nat)
    ensures DecimalValue(DecimalString(n)) == n
    decreases n
  {
    if n >= 10 {
      var s := DecimalString(n);
      assert s[..|s| - 1] == DecimalString(n / 10);
      DecimalRoundTrip(n / 10);
    }
  }

  /** Distinct numbers print differently. */
  lemma DecimalInjective(n: nat, m: nat)
    requires DecimalString(n) == DecimalString(m)
    ensures n == m
  {
    DecimalRoundTrip(n);
    DecimalRoundTrip(m);
  }

  /**
   * A string key PHP stores as an integer key: a non-empty run of decimal
   * digits without a leading zero (negative keys are not modelled).
   */
  predicate IsIntKey(k: string) {
    |k| >= 1 && (forall i :: 0 <= i < |k| ==> IsDigit(k[i])) && (k[0] == '0' ==> |k| == 1)
  }

  /** `sprintf('%d', n)` is always such a key. */
  lemma {:induction false} DecimalIsIntKey(n: nat)
    ensures IsIntKey(DecimalString(n))
    ensures n >= 1 ==> DecimalString(n)[0] != '0'
    decreases n
  {
    if n >= 10 {
      DecimalIsIntKey(n / 10);
      assert DecimalString(n)[0] == DecimalString(n / 10)[0];
    }
  }

  // ---------------------------------------------------------------------
  // empty() on a string: "" and "0" are both empty
  // ---------------------------------------------------------------------

  predicate IsEmptyString(s: string) {
    s == "" || s == "0"
  }

  // ---------------------------------------------------------------------
  // PHP ordered arrays, as a sequence of (key, value) entries in insertion order
  // ---------------------------------------------------------------------

  function Keys<K, V>(a: seq<(K, V)>): (ks: seq<K>)
    ensures |ks| == |a|
    ensures forall i :: 0 <= i < |a| ==> ks[i] == a[i].0
  {
    if a == [] then [] else [a[0].0] + Keys(a[1..])
  }

  /** PHP arrays never hold a key twice. */
  ghost predicate UniqueKeys<K, V>(a: seq<(K, V)>) {
    forall i, j :: 0 <= i < j < |a| ==> a[i].0 != a[j].0
  }

  /** `$a[$k] ?? null`: the value stored under `k`, if any. */
  function Lookup<K(==), V>(a: seq<(K, V)>, k: K): (r: Option<V>)
    ensures r.Some? <==> k in Keys(a)
    ensures r.Some? ==> (k, r.value) in a
  {
    if a == [] then None
    else
      assert Keys(a) == [a[0].0] + Keys(a[1..]);
      if a[0].0 == k then Some(a[0].1) else Lookup(a[1..], k)
  }

  /** Looking up in a concatenation finds the first part's entry when it has one. */
  lemma {:induction false} LookupConcat<K, V>(a: seq<(K, V)>, b: seq<(K, V)>, k: K)
    ensures Lookup(a + b, k) == if k in Keys(a) then Lookup(a, k) else Lookup(b, k)
  {
    if a == [] {
      assert a + b == b;
    } else {
      assert Keys(a) == [a[0].0] + Keys(a[1..]);
      assert (a + b)[1..] == a[1..] + b;
      LookupConcat(a[1..], b, k);
    }
  }

  /** `$a[$k] = $v`: overwrites in place when `k` is present, appends otherwise. */
  function Put<K(==), V>(a: seq<(K, V)>, k: K, v: V): (r: seq<(K, V)>)
    ensures |r| == if k in Keys(a) then |a| else |a| + 1
  {
    if a == [] then [(k, v)]
    else
      assert Keys(a) == [a[0].0] + Keys(a[1..]);
      if a[0].0 == k then [(k, v)] + a[1..] else [a[0]] + Put(a[1..], k, v)
  }

  /** After the write, `k` holds `v` and every other key holds what it held before. */
  lemma {:induction false} PutLookup<K, V>(a: seq<(K, V)>, k: K, v: V, k': K)
    ensures Lookup(Put(a, k, v), k') == if k' == k then Some(v) else Lookup(a, k')
  {
    if a != [] && a[0].0 != k {
      PutLookup(a[1..], k, v, k');
    }
  }

  /** The write keeps the key order, and a new key goes to the end. */
  lemma {:induction false} PutKeys<K, V>(a: seq<(K, V)>, k: K, v: V)
    ensures Keys(Put(a, k, v)) == if k in Keys(a) then Keys(a) else Keys(a) + [k]
  {
    if a != [] {
      assert Keys(a) == [a[0].0] + Keys(a[1..]);
      if a[0].0 != k {
        PutKeys(a[1..], k, v);
        assert Keys(Put(a, k, v)) == [a[0].0] + Keys(Put(a[1..], k, v));
      } else {
        assert Keys(Put(a, k, v)) == [k] + Keys(a[1..]);
      }
    }
  }

  /** Writing never creates a duplicate key. */
  lemma PutUnique<K, V>(a: seq<(K, V)>, k: K, v: V)
    requires UniqueKeys(a)
    ensures UniqueKeys(Put(a, k, v))
  {
    var r := Put(a, k, v);
    PutKeys(a, k, v);
    assert forall i :: 0 <= i < |r| ==> r[i].0 == Keys(r)[i];
  }

  /** `array_merge($a, $b)` for string keys: every entry of `b` is written into `a` in order. */
  function Merge<K(==), V>(a: seq<(K, V)>, b: seq<(K, V)>): (r: seq<(K, V)>)
    decreases |b|
  {
    if b == [] then a else Merge(Put(a, b[0].0, b[0].1), b[1..])
  }

  /** When no key of `b` occurs in `a`, `array_merge` simply concatenates. */
  lemma {:induction false} MergeDisjoint<K, V>(a: seq<(K, V)>, b: seq<(K, V)>)
    requires UniqueKeys(b)
    requires forall i, j :: 0 <= i < |a| && 0 <= j < |b| ==> a[i].0 != b[j].0
    ensures Merge(a, b) == a + b
    decreases |b|
  {
    if b != [] {
      var a', b' := a + [b[0]], b[1..];
      PutAppend(a, b[0].0, b[0].1);
      MergeDisjoint(a', b');
      calc {
        Merge(a, b);
        Merge(a', b');
        a' + b';
        { assert b == [b[0]] + b'; }
        a + b;
      }
    }
  }

  /** Writing an absent key appends it. */
  lemma {:induction false} PutAppend<K, V>(a: seq<(K, V)>, k: K, v: V)
    requires forall i :: 0 <= i < |a| ==> a[i].0 != k
    ensures Put(a, k, v) == a + [(k, v)]
  {
    if a != [] {
      assert Keys(a) == [a[0].0] + Keys(a[1..]);
      PutAppend(a[1..], k, v);
      assert [a[0]] + (a[1..] + [(k, v)]) == a + [(k, v)];
    }
  }

  /**
   * The key `$a[] = $v` uses: one more than the largest integer key, or 0
   * when the array has none.
   */
  function NextIntKey<V>(a: seq<(string, V)>): (n: nat)
    ensures forall i :: 0 <= i < |a| && IsIntKey(a[i].0) ==> DecimalValue(a[i].0) < n
    ensures n > 0 ==> exists i :: 0 <= i < |a| && IsIntKey(a[i].0) && DecimalValue(a[i].0) + 1 == n
  {
    if a == [] then 0
    else
      var rest := NextIntKey(a[1..]);
      if IsIntKey(a[0].0) && DecimalValue(a[0].0) + 1 > rest then DecimalValue(a[0].0) + 1 else rest
  }

  /** The next integer key is not yet taken. */
  lemma NextIntKeyFresh<V>(a: seq<(string, V)>)
    ensures DecimalString(NextIntKey(a)) !in Keys(a)
  {
    var n := NextIntKey(a);
    if DecimalString(n) in Keys(a) {
      var i :| 0 <= i < |a| && a[i].0 == DecimalString(n);
      DecimalIsIntKey(n);
      DecimalRoundTrip(n);
      assert false;
    }
  }

  /** `$a[] = $v`: the value goes to the end under the next integer key. */
  function Append<V>(a: seq<(string, V)>, v: V): (r: seq<(string, V)>)
    ensures |r| == |a| + 1 && r[..|a|] == a && r[|a|].1 == v
    ensures Keys(r) == Keys(a) + [DecimalString(NextIntKey(a))]
    ensures DecimalString(NextIntKey(a)) !in Keys(a)
    ensures UniqueKeys(a) ==> UniqueKeys(r)
  {
    NextIntKeyFresh(a);
    var r := a + [(DecimalString(NextIntKey(a)), v)];
    assert Keys(r) == Keys(a) + [DecimalString(NextIntKey(a))];
    r
  }

  /** Appending is writing to the next integer key. */
  lemma AppendIsPut<V>(a: seq<(string, V)>, v: V)
    ensures Append(a, v) == Put(a, DecimalString(NextIntKey(a)), v)
  {
    NextIntKeyFresh(a);
    PutAppend(a, DecimalString(NextIntKey(a)), v);
  }

  /** After `$a[] = $v`, the new key holds `v` and every other key holds what it held before. */
  lemma AppendLookup<V>(a: seq<(string, V)>, v: V, k: string)
    ensures Lookup(Append(a, v), k) == if k == DecimalString(NextIntKey(a)) then Some(v) else Lookup(a, k)
  {
    AppendIsPut(a, v);
    PutLookup(a, DecimalString(NextIntKey(a)), v, k);
  }
}
