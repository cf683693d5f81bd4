/** Text as the services compare it. */
module Texts {
  // Lower case within ASCII.
  function LowerChar(c: char): char {
    if 'A' <= c <= 'Z' then ((c as int) + 32) as char else c
  }

  function Lower(s: string): string { seq(|s|, i requires 0 <= i < |s| => LowerChar(s[i])) }

  const CAPITALS: string := "ABCDEFGHIJKLMNOPQRSTUVWXYZ"
  const SMALL: string := "abcdefghijklmnopqrstuvwxyz"

  // Each capital becomes its small letter and every other character stays.
  lemma LowerIsSmall(c: char)
    ensures forall i :: 0 <= i < 26 && CAPITALS[i] == c ==> LowerChar(c) == SMALL[i]
    ensures c !in CAPITALS ==> LowerChar(c) == c
  {
    if 'A' <= c <= 'Z' { assert CAPITALS[(c as int) - 65] == c; }
  }

  predicate Contains(s: string, t: string) {
    t <= s || (s != "" && Contains(s[1..], t))
  }

  lemma {:induction false} ContainsIff(s: string, t: string)
    ensures Contains(s, t) <==> exists a: string, b: string :: s == a + t + b
  {
    if t <= s {
      assert s == "" + t + s[|t|..];
    } else {
      if s != "" {
        ContainsIff(s[1..], t);
        if Contains(s[1..], t) {
          var a: string, b: string :| s[1..] == a + t + b;
          assert s == ([s[0]] + a) + t + b;
        }
      }
      if exists a: string, b: string :: s == a + t + b {
        var a: string, b: string :| s == a + t + b;
        assert s == a + (t + b);
        assert a == "" ==> s == t + b;
        assert s[1..] == a[1..] + t + b;
      }
    }
  }
}
