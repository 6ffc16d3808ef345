/** PHP values as the plugin reads them from its settings and from post
    metadata, PHP's boolean conversion, and PHP arrays with string keys seen
    as ordered maps. */
module Php {

  datatype Option<T> = None | Some(value: T)

  /** A PHP value. Floats and objects never occur in the settings the plugin
      reads, so they are not represented. */
  datatype Value =
    | Null
    | Bool(b: bool)
    | Int(i: int)
    | Str(s: string)
    | Arr(entries: seq<(string, Value)>)

  /** PHP's conversion of a string to boolean: only "" and "0" are false. */
  predicate TruthyString(s: string) {
    s != "" && s != "0"
  }

  /** PHP's conversion of a value to boolean (`if ( $v )`, `$v ? a : b`). */
  predicate Truthy(v: Value) {
    match v
    case Null => false
    case Bool(b) => b
    case Int(i) => i != 0
    case Str(s) => TruthyString(s)
    case Arr(e) => |e| > 0
  }

  /** The keys of an ordered map, in order. */
  function Keys<V>(m: seq<(string, V)>): (ks: seq<string>)
    ensures |ks| == |m|
    ensures forall i :: 0 <= i < |m| ==> ks[i] == m[i].0
  {
    if m == [] then [] else [m[0].0] + Keys(m[1..])
  }

  /** A PHP array never holds the same key twice. */
  predicate UniqueKeys<V>(m: seq<(string, V)>) {
    forall i, j :: 0 <= i < j < |m| ==> m[i].0 != m[j].0
  }

  /** `$m[$k]`, with None for a missing key. */
  function Lookup<V>(m: seq<(string, V)>, k: string): (r: Option<V>)
    ensures r.None? <==> k !in Keys(m)
    ensures r.Some? ==> (k, r.value) in m
  {
    if m == [] then None
    else if m[0].0 == k then Some(m[0].1)
    else Lookup(m[1..], k)
  }

  /** `isset( $v[$k] )`: $v is an array holding key $k with a non-null value. */
  predicate Isset(v: Value, k: string) {
    v.Arr? && Lookup(v.entries, k).Some? && Lookup(v.entries, k).value != Null
  }

  /** The effect of `unset( $m[$k] )` for every key $k in ks. */
  function RemoveKeys<V(!new)>(m: seq<(string, V)>, ks: set<string>): (r: seq<(string, V)>)
    ensures |r| <= |m|
    ensures forall e :: e in r <==> e in m && e.0 !in ks
  {
    if m == [] then []
    else (if m[0].0 in ks then [] else [m[0]]) + RemoveKeys(m[1..], ks)
  }

  /** a is obtained from b by dropping elements: the relative order of what
      is left is the order in b. */
  ghost predicate Subsequence<T>(a: seq<T>, b: seq<T>)
    decreases |b|
  {
    if a == [] then true
    else if b == [] then false
    else if a[0] == b[0] then Subsequence(a[1..], b[1..])
    else Subsequence(a, b[1..])
  }

  /** A subsequence of the tail is a subsequence of the whole. */
  lemma {:induction false} SubsequenceOfTail<T>(a: seq<T>, b: seq<T>)
    requires b != [] && Subsequence(a, b[1..])
    ensures Subsequence(a, b)
    decreases |b|, 0
  {
    if a != [] && a[0] == b[0] {
      SubsequenceOfDrop(a, b[1..]);
    }
  }

  /** Dropping the first element of a subsequence leaves a subsequence. */
  lemma {:induction false} SubsequenceOfDrop<T>(a: seq<T>, b: seq<T>)
    requires a != [] && Subsequence(a, b)
    ensures Subsequence(a[1..], b)
    decreases |b|, 1
  {
    if a[0] == b[0] {
      if a[1..] != [] {
        SubsequenceOfTail(a[1..], b);
      }
    } else {
      SubsequenceOfDrop(a, b[1..]);
      if a[1..] != [] {
        SubsequenceOfTail(a[1..], b);
      }
    }
  }

  /** Removing keys keeps the remaining entries in their relative order. */
  lemma {:induction false} RemoveKeysKeepsOrder<V(!new)>(m: seq<(string, V)>, ks: set<string>)
    ensures Subsequence(RemoveKeys(m, ks), m)
    decreases |m|
  {
    if m != [] {
      RemoveKeysKeepsOrder(m[1..], ks);
      var rest := RemoveKeys(m[1..], ks);
      if m[0].0 in ks {
        assert RemoveKeys(m, ks) == rest;
        if rest != [] {
          SubsequenceOfTail(rest, m);
        }
      } else {
        assert RemoveKeys(m, ks) == [m[0]] + rest;
        assert ([m[0]] + rest)[1..] == rest;
      }
    }
  }

  /** Two successive rounds of unset are one round over both key sets. */
  lemma {:induction false} RemoveKeysTwice<V(!new)>(m: seq<(string, V)>, a: set<string>, b: set<string>)
    ensures RemoveKeys(RemoveKeys(m, a), b) == RemoveKeys(m, a + b)
    decreases |m|
  {
    if m != [] {
      RemoveKeysTwice(m[1..], a, b);
      var once := RemoveKeys(m, a);
      if m[0].0 in a {
        assert once == RemoveKeys(m[1..], a);
      } else {
        assert once == [m[0]] + RemoveKeys(m[1..], a);
        assert once[1..] == RemoveKeys(m[1..], a);
      }
    }
  }

  /** Removing nothing changes nothing. */
  lemma {:induction false} RemoveNoKeys<V(!new)>(m: seq<(string, V)>)
    ensures RemoveKeys(m, {}) == m
    decreases |m|
  {
    if m != [] {
      RemoveNoKeys(m[1..]);
      assert [m[0]] + m[1..] == m;
    }
  }

  /** A key keeps its first entry, value included, unless it is removed. */
  lemma {:induction false} LookupRemoveKeys<V(!new)>(m: seq<(string, V)>, ks: set<string>, k: string)
    ensures Lookup(RemoveKeys(m, ks), k) == if k in ks then None else Lookup(m, k)
    decreases |m|
  {
    if m != [] {
      LookupRemoveKeys(m[1..], ks, k);
      var rest := RemoveKeys(m[1..], ks);
      if m[0].0 in ks {
        assert RemoveKeys(m, ks) == rest;
      } else {
        assert RemoveKeys(m, ks) == [m[0]] + rest;
        assert ([m[0]] + rest)[1..] == rest;
      }
    }
  }
}
