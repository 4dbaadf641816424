/** Facts about sequences of any kind, stated apart so that proofs need not look inside the elements. */
module Seqs {
  lemma Associates<T>(a: seq<T>, b: seq<T>, c: seq<T>)
    ensures a + (b + c) == (a + b) + c
  {
  }

  lemma EmptyFirst<T>(s: seq<T>)
    ensures [] + s == s
  {
  }

  lemma SplitFirst<T>(s: seq<T>)
    requires s != []
    ensures s == [s[0]] + s[1..]
  {
  }

  lemma SplitLast<T>(s: seq<T>)
    requires s != []
    ensures s == s[..|s| - 1] + [s[|s| - 1]]
  {
  }

  lemma RestOfConcat<T>(a: seq<T>, c: seq<T>)
    requires a != []
    ensures (a + c)[0] == a[0] && (a + c)[1..] == a[1..] + c
  {
  }

  lemma SplitAfter<T>(front: seq<T>, s: seq<T>)
    requires |front| < |s| && s[..|front|] == front
    ensures s == front + ([s[|front|]] + s[|front| + 1..])
  {
  }

  lemma SnocAt<T>(s: seq<T>, x: T, i: nat)
    ensures i < |s| ==> (s + [x])[i] == s[i]
    ensures (s + [x])[|s|] == x
  {
  }

  lemma TakeAt<T>(s: seq<T>, k: nat, i: nat)
    ensures i < k <= |s| ==> s[..k][i] == s[i]
  {
  }

  lemma SnocsEqual<T>(a: seq<T>, x: T, c: seq<T>, y: T)
    ensures a + [x] == c + [y] <==> a == c && x == y
  {
    if a + [x] == c + [y] {
      assert |a| == |c| && a == (a + [x])[..|a|] && c == (c + [y])[..|c|];
      assert x == (a + [x])[|a|] && y == (c + [y])[|c|];
    }
  }
}
