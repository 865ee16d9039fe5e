/** Duplicate-free lists of job ids: the `retain` of a deque and selection by a set. */
module Seqs {

  ghost predicate Distinct<T>(s: seq<T>) {
    forall i, j :: 0 <= i < j < |s| ==> s[i] != s[j]
  }

  ghost function Elems<T>(s: seq<T>): set<T> { set x | x in s }

  lemma ElemsSnoc<T>(s: seq<T>)
    requires s != []
    ensures Elems(s) == Elems(s[..|s| - 1]) + {s[|s| - 1]}
    ensures Distinct(s) ==> Distinct(s[..|s| - 1]) && s[|s| - 1] !in s[..|s| - 1]
  {
  }

  /** `s.retain(|y| y != x)`. */
  function Retain<T(==)>(s: seq<T>, x: T): seq<T> {
    if s == [] then []
    else (if s[0] == x then [] else [s[0]]) + Retain(s[1..], x)
  }

  /** The elements of `s` that lie in `keep`, in the same order. */
  ghost function Only<T>(s: seq<T>, keep: set<T>): seq<T> {
    if s == [] then []
    else (if s[0] in keep then [s[0]] else []) + Only(s[1..], keep)
  }

  lemma {:induction false} RetainMembers<T>(s: seq<T>, x: T)
    ensures forall y :: y in Retain(s, x) <==> y in s && y != x
    ensures Distinct(s) ==> Distinct(Retain(s, x))
    ensures x !in s ==> Retain(s, x) == s
  {
    if s != [] {
      RetainMembers(s[1..], x);
      assert Distinct(s) ==> s[0] !in s[1..];
    }
  }

  lemma {:induction false} OnlyMembers<T>(s: seq<T>, keep: set<T>)
    ensures forall y :: y in Only(s, keep) <==> y in s && y in keep
    ensures Distinct(s) ==> Distinct(Only(s, keep))
  {
    if s != [] {
      OnlyMembers(s[1..], keep);
      assert Distinct(s) ==> s[0] !in s[1..];
    }
  }

  lemma {:induction false} OnlyConcat<T>(a: seq<T>, b: seq<T>, keep: set<T>)
    ensures Only(a + b, keep) == Only(a, keep) + Only(b, keep)
  {
    if a == [] {
      assert a + b == b;
    } else {
      OnlyConcat(a[1..], b, keep);
      var head := if a[0] in keep then [a[0]] else [];
      assert (a + b)[0] == a[0] && (a + b)[1..] == a[1..] + b;
      assert head + (Only(a[1..], keep) + Only(b, keep)) == (head + Only(a[1..], keep)) + Only(b, keep);
    }
  }

  lemma {:induction false} OnlyAgree<T>(s: seq<T>, k: set<T>, k': set<T>)
    requires forall y :: y in s ==> (y in k <==> y in k')
    ensures Only(s, k) == Only(s, k')
  {
    if s != [] { OnlyAgree(s[1..], k, k'); }
  }

  lemma {:induction false} OnlyAll<T>(s: seq<T>, k: set<T>)
    requires forall y :: y in s ==> y in k
    ensures Only(s, k) == s
  {
    if s != [] { OnlyAll(s[1..], k); }
  }

  /** Selecting and dropping one element commute, and dropping is selecting with one element less. */
  lemma {:induction false} RetainOnly<T>(s: seq<T>, keep: set<T>, x: T)
    ensures Retain(Only(s, keep), x) == Only(Retain(s, x), keep) == Only(s, keep - {x})
  {
    if s != [] {
      RetainOnly(s[1..], keep, x);
      var t := Only(s[1..], keep);
      if s[0] in keep {
        assert ([s[0]] + t)[1..] == t;
      } else {
        assert [] + t == t;
      }
      var u := Retain(s[1..], x);
      if s[0] != x {
        assert ([s[0]] + u)[1..] == u;
      } else {
        assert [] + u == u;
      }
    }
  }

  /** Nothing that `keep` selects stands before the first selected element. */
  lemma {:induction false} OnlyFirst<T>(s: seq<T>, keep: set<T>, i: nat, j: nat)
    requires Distinct(s) && i < j < |s|
    requires Only(s, keep) != [] && Only(s, keep)[0] == s[j]
    ensures s[i] !in keep
  {
    if i != 0 {
      OnlyFirst(s[1..], keep, i - 1, j - 1);
    }
  }
}
