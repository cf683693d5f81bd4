/** Counting over the rows of a table. */
module Tables {
  // Rows of a table that satisfy p.
  function CountIf<T>(p: T -> bool, rows: seq<T>): nat {
    if rows == [] then 0 else CountIf(p, rows[..|rows|-1]) + (if p(rows[|rows|-1]) then 1 else 0)
  }

  lemma {:induction false} NoneCounted<T>(p: T -> bool, rows: seq<T>)
    ensures CountIf(p, rows) == 0 <==> forall i :: 0 <= i < |rows| ==> !p(rows[i])
  {
    if rows != [] {
      var n := |rows| - 1;
      NoneCounted(p, rows[..n]);
      assert forall i :: 0 <= i < n ==> rows[..n][i] == rows[i];
    }
  }

  // Positions below n at which two tables differ.
  function CountChanged<T(==)>(a: seq<T>, b: seq<T>, n: nat): nat
    requires n <= |a| && n <= |b|
  {
    if n == 0 then 0 else CountChanged(a, b, n - 1) + (if a[n-1] != b[n-1] then 1 else 0)
  }

  lemma {:induction false} NoneChanged<T>(a: seq<T>, b: seq<T>, n: nat)
    requires n <= |a| && n <= |b|
    ensures CountChanged(a, b, n) == 0 <==> forall i :: 0 <= i < n ==> a[i] == b[i]
  {
    if n > 0 { NoneChanged(a, b, n - 1); }
  }

  // What comes later in a table does not count.
  lemma {:induction false} CountOnlyBelow<T>(a: seq<T>, b: seq<T>, c: seq<T>, n: nat)
    requires n <= |a| && n <= |b| && n <= |c| && forall i :: 0 <= i < n ==> b[i] == c[i]
    ensures CountChanged(a, b, n) == CountChanged(a, c, n)
  {
    if n > 0 { CountOnlyBelow(a, b, c, n - 1); }
  }

  lemma CountOneMore<T>(a: seq<T>, b: seq<T>, c: seq<T>, n: nat)
    requires n < |a| && n < |b| && n < |c| && forall i :: 0 <= i < n ==> b[i] == c[i]
    ensures CountChanged(a, c, n + 1) == CountChanged(a, b, n) + (if a[n] != c[n] then 1 else 0)
  {
    CountOnlyBelow(a, b, c, n);
  }

  lemma OneMore(n: int, k: int)
    ensures (n + 1) * k == n * k + k
  {}

  // The count is the number of places that satisfy p.
  lemma {:induction false} CountIsNumber<T>(p: T -> bool, rows: seq<T>, places: set<nat>)
    requires forall i: nat :: i in places <==> i < |rows| && p(rows[i])
    ensures CountIf(p, rows) == |places|
  {
    if rows == [] {
      assert places == {};
    } else {
      var n: nat := |rows| - 1;
      CountIsNumber(p, rows[..n], places - {n});
      assert places == (places - {n}) + (if p(rows[n]) then {n} else {});
    }
  }
}
