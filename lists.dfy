/** Removing every element with a given id from a list, as the source does with
    `list.filter(x => x.id !== id)` for cart lines, products and team members. */
module Lists {

  /** No two elements of `s` share a key. */
  ghost predicate KeysDistinct<T>(s: seq<T>, key: T -> string) {
    forall i, j :: 0 <= i < j < |s| ==> key(s[i]) != key(s[j])
  }

  /** The elements of `s` whose key differs from `k`, in their original order. */
  function Without<T(!new)>(s: seq<T>, key: T -> string, k: string): (r: seq<T>)
    ensures |r| <= |s|
    ensures forall x :: x in r <==> x in s && key(x) != k
  {
    if s == [] then []
    else
      var rest := Without(s[1..], key, k);
      assert forall x :: x in s <==> x == s[0] || x in s[1..];
      if key(s[0]) != k then [s[0]] + rest else rest
  }

  /** Filtering distributes over concatenation: the survivors keep their relative order. */
  lemma {:induction false} WithoutAppend<T(!new)>(a: seq<T>, b: seq<T>, key: T -> string, k: string)
    ensures Without(a + b, key, k) == Without(a, key, k) + Without(b, key, k)
  {
    if a == [] {
      assert a + b == b;
    } else {
      assert (a + b)[0] == a[0];
      assert (a + b)[1..] == a[1..] + b;
      WithoutAppend(a[1..], b, key, k);
    }
  }

  /** A list is its prefix before `i`, its element at `i` and the rest. */
  lemma Split<T>(s: seq<T>, i: nat)
    requires i < |s|
    ensures s == s[..i] + ([s[i]] + s[i + 1..])
  {
    assert s[i..] == [s[i]] + s[i + 1..];
    assert s == s[..i] + s[i..];
  }

  /** Filtering an element put in front of a list. */
  lemma WithoutCons<T(!new)>(x: T, b: seq<T>, key: T -> string, k: string)
    ensures Without([x] + b, key, k) == if key(x) != k then [x] + Without(b, key, k) else Without(b, key, k)
  {
    assert ([x] + b)[0] == x;
    assert ([x] + b)[1..] == b;
  }

  /** Removing a key nobody has changes nothing. */
  lemma {:induction false} WithoutAbsent<T(!new)>(s: seq<T>, key: T -> string, k: string)
    requires forall i :: 0 <= i < |s| ==> key(s[i]) != k
    ensures Without(s, key, k) == s
  {
    if s != [] {
      assert key(s[0]) != k;
      WithoutAbsent(s[1..], key, k);
      assert [s[0]] + s[1..] == s;
    }
  }

  /** In a list with distinct keys, removing a present key drops exactly the one
      element that has it. */
  lemma WithoutUnique<T(!new)>(s: seq<T>, key: T -> string, i: nat)
    requires KeysDistinct(s, key)
    requires i < |s|
    ensures Without(s, key, key(s[i])) == s[..i] + s[i + 1..]
  {
    var k, a, b := key(s[i]), s[..i], s[i + 1..];
    Split(s, i);
    WithoutCons(s[i], b, key, k);
    forall j | 0 <= j < |a| ensures key(a[j]) != k {
      assert a[j] == s[j];
    }
    forall j | 0 <= j < |b| ensures key(b[j]) != k {
      assert b[j] == s[i + 1 + j];
    }
    WithoutAppend(a, [s[i]] + b, key, k);
    WithoutAbsent(a, key, k);
    WithoutAbsent(b, key, k);
  }

  /** Filtering keeps keys distinct. */
  lemma {:induction false} WithoutKeepsDistinct<T(!new)>(s: seq<T>, key: T -> string, k: string)
    requires KeysDistinct(s, key)
    ensures KeysDistinct(Without(s, key, k), key)
  {
    if s != [] {
      WithoutKeepsDistinct(s[1..], key, k);
      var rest := Without(s[1..], key, k);
      if key(s[0]) != k {
        forall x | x in rest ensures key(x) != key(s[0]) {
          var j :| 0 <= j < |s[1..]| && s[1..][j] == x;
          assert s[j + 1] == x;
        }
        var r := [s[0]] + rest;
        forall i, j | 0 <= i < j < |r| ensures key(r[i]) != key(r[j]) {
          if i == 0 {
            assert r[j] == rest[j - 1];
            assert r[j] in rest;
          } else {
            assert r[i] == rest[i - 1] && r[j] == rest[j - 1];
          }
        }
      }
    }
  }
}
