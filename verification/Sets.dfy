/** Two facts about the sizes of finite sets. */
module Sets {
  /** If every element of t is the image of one of s, then t is no larger than s. */
  lemma {:induction false} ImageBound<A, B>(s: set<A>, t: set<B>, f: A -> B)
    requires forall y | y in t :: exists x | x in s :: f(x) == y
    ensures |t| <= |s|
  {
    if |t| > 0 {
      var y :| y in t;
      var x :| x in s && f(x) == y;
      forall z | z in t - {y} ensures exists w | w in s - {x} :: f(w) == z {
        var w :| w in s && f(w) == z;
        assert w in s - {x};
      }
      ImageBound(s - {x}, t - {y}, f);
    }
  }

  lemma {:induction false} SubsetBound<A>(t: set<A>, s: set<A>)
    requires t <= s
    ensures |t| <= |s|
  {
    assert s == t + (s - t);
  }
}
