/**
 What every module uses: the optional value, and the members of a sequence that pass a test.
 Filters, lookups and removals all come down to the latter: Kept keeps the order and the number of
 times each member occurs, is the same for tests that agree on the sequence, and two tests in turn
 keep what both accept.  The source walks its arrays in a loop for each of these; those loops are
 compared with Kept where they are modelled.
*/
module Lists {

  datatype Option<+T> = None | Some(value: T)

  /** Concatenations, taken apart at their end. */
  lemma ConcatLast<T>(a: seq<T>, b: seq<T>)
    ensures b == [] ==> a + b == a
    ensures b != [] ==> (a + b)[..|a + b| - 1] == a + b[..|b| - 1] && (a + b)[|a + b| - 1] == b[|b| - 1]
  {
  }

  lemma OneMore<T>(s: seq<T>, i: nat)
    requires i < |s|
    ensures s[..i + 1] == s[..i] + [s[i]]
  {
  }

  lemma AllOfIt<T>(s: seq<T>)
    ensures s[..|s|] == s
  {
  }

  /** The members of s that satisfy f, in order. */
  function Kept<T>(s: seq<T>, f: T -> bool): seq<T> {
    if s == [] then []
    else Kept(s[..|s| - 1], f) + (if f(s[|s| - 1]) then [s[|s| - 1]] else [])
  }

  lemma {:induction false} KeptAppend<T>(s: seq<T>, s': seq<T>, f: T -> bool)
    ensures Kept(s + s', f) == Kept(s, f) + Kept(s', f)
  {
    if s' == [] {
      assert s + s' == s;
    } else {
      var n := |s'| - 1;
      KeptAppend(s, s'[..n], f);
      assert (s + s')[..|s| + n] == s + s'[..n];
    }
  }

  lemma {:induction false} KeptSame<T>(s: seq<T>, f: T -> bool, g: T -> bool)
    requires forall x :: x in s ==> f(x) == g(x)
    ensures Kept(s, f) == Kept(s, g)
  {
    if s != [] { KeptSame(s[..|s| - 1], f, g); }
  }

  lemma {:induction false} KeptTwice<T>(s: seq<T>, f: T -> bool, g: T -> bool, both: T -> bool)
    requires forall x :: x in s ==> both(x) == (f(x) && g(x))
    ensures Kept(Kept(s, f), g) == Kept(s, both)
  {
    if s != [] {
      var n := |s| - 1;
      KeptTwice(s[..n], f, g, both);
      var tail := if f(s[n]) then [s[n]] else [];
      KeptAppend(Kept(s[..n], f), tail, g);
      assert Kept(tail, g) == if f(s[n]) && g(s[n]) then [s[n]] else [] by {
        if f(s[n]) { assert tail[..0] == []; }
      }
    }
  }

  lemma {:induction false} KeptIn<T>(s: seq<T>, f: T -> bool, x: T)
    ensures x in Kept(s, f) <==> x in s && f(x)
  {
    if s != [] {
      KeptIn(s[..|s| - 1], f, x);
      assert s == s[..|s| - 1] + [s[|s| - 1]];
    }
  }
}
