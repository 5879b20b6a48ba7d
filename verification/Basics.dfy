/** Options, and sequences without duplicates as the kernel's lists are on values. */
module Basics {
  datatype Option<T> = None | Some(value: T)

  predicate NoDup<T(==)>(q: seq<T>) {
    forall i, j :: 0 <= i < j < |q| ==> q[i] != q[j]
  }

  /** The sequence without the first occurrence of x, as elem_find and list_remove leave it. */
  function Without<T(==)>(q: seq<T>, x: T): seq<T> {
    if q == [] then [] else if q[0] == x then q[1..] else [q[0]] + Without(q[1..], x)
  }

  lemma {:induction false} TailOf<T>(q: seq<T>)
    requires NoDup(q) && q != []
    ensures NoDup(q[1..]) && forall x :: x in q[1..] <==> x in q && x != q[0]
  {
    forall x | x in q && x != q[0] ensures x in q[1..] {
      var i :| 0 <= i < |q| && q[i] == x;
      assert q[1..][i - 1] == x;
    }
  }

  lemma NoDupConcat<T>(q: seq<T>, n: seq<T>)
    requires NoDup(q) && NoDup(n) && forall x :: x in q ==> x !in n
    ensures NoDup(q + n)
  {
    forall i, j | 0 <= i < j < |q + n| ensures (q + n)[i] != (q + n)[j] {
      if i < |q| <= j { assert q[i] in q && n[j - |q|] in n; }
    }
  }

  lemma {:induction false} WithoutIs<T>(q: seq<T>, x: T)
    requires NoDup(q)
    ensures NoDup(Without(q, x)) && forall y :: y in Without(q, x) <==> y in q && y != x
  {
    if q != [] {
      TailOf(q);
      if q[0] != x {
        WithoutIs(q[1..], x);
        assert q[0] !in Without(q[1..], x);
      }
    }
  }

  /** elem_find followed by list_remove. */
  method Unlink<T(==)>(q: seq<T>, x: T) returns (r: seq<T>)
    ensures r == Without(q, x)
  {
    var i := 0;
    while i < |q| && q[i] != x
      invariant i <= |q| && Without(q, x) == q[..i] + Without(q[i..], x)
    {
      i := i + 1;
    }
    r := if i < |q| then q[..i] + q[i + 1..] else q;
  }
}
