/** Small value types shared by the toolkit model: Rust's `Option` and `Result`,
    and `Vec::retain`, which the toolkit uses to drop seats and outputs. */
module Util {

  datatype Option<+T> = None | Some(value: T)

  datatype Result<+R, +E> = Ok(value: R) | Err(error: E)

  /** A protocol object bound from the registry: the name of the advertised
      global it was bound from and the version it was bound at. */
  datatype Bound = Bound(name: nat, version: nat)

  function Min(a: nat, b: nat): nat { if a < b then a else b }

  function Max(a: nat, b: nat): nat { if a < b then b else a }

  /** `Vec::retain(keep)`: the elements of `s` that satisfy `keep`, in their order. */
  function Retain<T>(s: seq<T>, keep: T -> bool): (r: seq<T>)
    ensures |r| <= |s|
    ensures forall i :: 0 <= i < |r| ==> keep(r[i])
  {
    if s == [] then []
    else
      var rest := Retain(s[1..], keep);
      if keep(s[0]) then [s[0]] + rest else rest
  }

  /** An element survives retaining exactly when it was there and is kept. */
  lemma {:induction false} RetainMembers<T>(s: seq<T>, keep: T -> bool, x: T)
    ensures x in Retain(s, keep) <==> x in s && keep(x)
  {
    if s != [] {
      RetainMembers(s[1..], keep, x);
      assert s == [s[0]] + s[1..];
    }
  }

  /** Retaining what is all kept changes nothing. */
  lemma {:induction false} RetainAll<T>(s: seq<T>, keep: T -> bool)
    requires forall i :: 0 <= i < |s| ==> keep(s[i])
    ensures Retain(s, keep) == s
  {
    if s != [] {
      RetainAll(s[1..], keep);
      assert s == [s[0]] + s[1..];
    }
  }

  /** Retaining distributes over concatenation: what is kept keeps its relative order. */
  lemma {:induction false} RetainConcat<T>(a: seq<T>, b: seq<T>, keep: T -> bool)
    ensures Retain(a + b, keep) == Retain(a, keep) + Retain(b, keep)
  {
    if a == [] {
      assert a + b == b;
    } else {
      var ab := a + b;
      assert ab[0] == a[0] && ab[1..] == a[1..] + b;
      RetainConcat(a[1..], b, keep);
    }
  }

  /** Retaining keeps every copy of an element it keeps. */
  lemma {:induction false} RetainCounts<T>(s: seq<T>, keep: T -> bool, x: T)
    requires keep(x)
    ensures multiset(Retain(s, keep))[x] == multiset(s)[x]
  {
    if s != [] {
      RetainCounts(s[1..], keep, x);
      assert s == [s[0]] + s[1..];
    }
  }

  /** `v.retain(|y| y != x)`: every occurrence of `x` removed, the rest kept in order. */
  function RemoveAll<T(==,!new)>(s: seq<T>, x: T): (r: seq<T>)
    ensures x !in r
    ensures forall y :: y in r <==> y in s && y != x
    ensures x !in s ==> r == s
    ensures NoDuplicates(s) ==> NoDuplicates(r)
  {
    var keep := y => y != x;
    var r := Retain(s, keep);
    assert forall y :: y in r <==> y in s && y != x by {
      forall y ensures y in r <==> y in s && y != x {
        RetainMembers(s, keep, y);
      }
    }
    assert x !in s ==> r == s by {
      if x !in s {
        RetainAll(s, keep);
      }
    }
    assert NoDuplicates(s) ==> NoDuplicates(r) by {
      if NoDuplicates(s) {
        RetainKeepsNoDuplicates(s, keep);
      }
    }
    r
  }

  /** No element occurs twice. */
  predicate NoDuplicates<T(==)>(s: seq<T>)
  {
    forall i, j :: 0 <= i < j < |s| ==> s[i] != s[j]
  }

  /** Removing elements from a sequence without duplicates leaves none. */
  lemma {:induction false} RetainKeepsNoDuplicates<T>(s: seq<T>, keep: T -> bool)
    requires NoDuplicates(s)
    ensures NoDuplicates(Retain(s, keep))
  {
    if s != [] {
      RetainKeepsNoDuplicates(s[1..], keep);
      var rest := Retain(s[1..], keep);
      RetainMembers(s[1..], keep, s[0]);
      assert s[0] !in s[1..] by {
        forall j | 0 <= j < |s[1..]| ensures s[1..][j] != s[0] {
          assert s[1..][j] == s[j + 1];
        }
      }
      assert s[0] !in rest;
    }
  }
}
