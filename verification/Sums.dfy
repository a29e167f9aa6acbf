/** Sums of a weight over a finite set of ids. */
module Sums {

  ghost function Sum(f: string -> real, s: set<string>): real
    decreases |s|
  {
    if s == {} then 0.0
    else
      var x :| x in s;
      f(x) + Sum(f, s - {x})
  }

  /** Any member may be taken out first. */
  lemma {:induction false} SumPick(f: string -> real, s: set<string>, x: string)
    requires x in s
    ensures Sum(f, s) == f(x) + Sum(f, s - {x})
    decreases |s|
  {
    var y :| y in s && Sum(f, s) == f(y) + Sum(f, s - {y});
    if y != x {
      SumPick(f, s - {y}, x);
      SumPick(f, s - {x}, y);
      assert s - {y} - {x} == s - {x} - {y};
    }
  }

  lemma {:induction false} SumSplit(f: string -> real, s: set<string>, t: set<string>)
    requires s !! t
    ensures Sum(f, s + t) == Sum(f, s) + Sum(f, t)
    decreases |t|
  {
    if t == {} {
      assert s + t == s;
    } else {
      var x :| x in t;
      SumPick(f, t, x);
      SumPick(f, s + t, x);
      assert s + t - {x} == s + (t - {x});
      SumSplit(f, s, t - {x});
    }
  }

  lemma {:induction false} SumAgree(f: string -> real, g: string -> real, s: set<string>)
    requires forall x :: x in s ==> f(x) == g(x)
    ensures Sum(f, s) == Sum(g, s)
    decreases |s|
  {
    if s != {} {
      var x :| x in s;
      SumPick(f, s, x);
      SumPick(g, s, x);
      SumAgree(f, g, s - {x});
    }
  }

  lemma {:induction false} SumNonNegative(f: string -> real, s: set<string>)
    requires forall x :: x in s ==> f(x) >= 0.0
    ensures Sum(f, s) >= 0.0
    decreases |s|
  {
    if s != {} {
      var x :| x in s;
      SumPick(f, s, x);
      SumNonNegative(f, s - {x});
    }
  }

  /** Weights of at least one count the members. */
  lemma {:induction false} SumCounts(f: string -> real, s: set<string>)
    requires forall x :: x in s ==> f(x) >= 1.0
    ensures Sum(f, s) >= |s| as real
    decreases |s|
  {
    if s != {} {
      var x :| x in s;
      SumPick(f, s, x);
      SumCounts(f, s - {x});
    }
  }

  lemma SumMonotone(f: string -> real, s: set<string>, t: set<string>)
    requires s <= t
    requires forall x :: x in t ==> f(x) >= 0.0
    ensures Sum(f, s) <= Sum(f, t)
  {
    assert t == s + (t - s);
    SumSplit(f, s, t - s);
    SumNonNegative(f, t - s);
  }
}
