/** Order of first occurrence. */
module FirstOccurrence {
  import opened Collections

  /** Adds the values that are new, in order. */
  ghost function FirstSeen<T>(order: seq<T>, targets: seq<Option<T>>): seq<T> {
    if targets == [] then order
    else
      var n := |targets| - 1;
      var before := FirstSeen(order, targets[..n]);
      if targets[n].None? || targets[n].value in before then before else before + [targets[n].value]
  }

  /** a occurs, and b does not occur before it. */
  ghost predicate Before<T>(s: seq<T>, a: T, b: T) {
    exists i :: 0 <= i < |s| && s[i] == a && b !in s[..i + 1]
  }

  lemma BeforeInLonger<T>(x: seq<T>, s: seq<T>, y: seq<T>, a: T, b: T)
    requires Before(s, a, b) && b !in x
    ensures Before(x + s + y, a, b)
  {
    var i :| 0 <= i < |s| && s[i] == a && b !in s[..i + 1];
    var whole := x + s + y;
    assert whole[|x| + i] == a && whole[..|x| + i + 1] == x + s[..i + 1];
  }

  /** What is in a prefix and b is not comes before b. */
  lemma BeforeByPrefix<T>(x: seq<T>, y: seq<T>, a: T, b: T)
    requires a in x && b !in x
    ensures Before(x + y, a, b)
  {
    var i :| 0 <= i < |x| && x[i] == a;
    assert (x + y)[i] == a && (x + y)[..i + 1] == x[..i + 1];
  }

  lemma {:induction false} FirstSeenAppend<T>(order: seq<T>, a: seq<Option<T>>, b: seq<Option<T>>)
    ensures FirstSeen(order, a + b) == FirstSeen(FirstSeen(order, a), b)
  {
    if b == [] {
      assert a + b == a;
    } else {
      FirstSeenAppend(order, a, b[..|b| - 1]);
      assert (a + b)[..|a + b| - 1] == a + b[..|b| - 1];
    }
  }

  lemma {:induction false} FirstSeenSame<T>(targets: seq<Option<T>>, t: T)
    ensures t in FirstSeen([], targets) <==> Some(t) in targets
  {
    if targets != [] {
      var n := |targets| - 1;
      FirstSeenSame(targets[..n], t);
      assert targets == targets[..n] + [targets[n]];
    }
  }

  /** Taking first sights keeps the order of first occurrences. */
  lemma {:induction false} FirstSeenInOrder<T>(targets: seq<Option<T>>, t: T, u: T)
    ensures Before(FirstSeen([], targets), t, u) <==> Before(targets, Some(t), Some(u))
  {
    hide Before;
    if targets == [] {
      OccursSomewhere(FirstSeen([], targets), t, u);
      OccursSomewhere(targets, Some(t), Some(u));
    } else {
      var n := |targets| - 1;
      FirstSeenInOrder(targets[..n], t, u);
      FirstSeenSame(targets[..n], t);
      FirstSeenSame(targets[..n], u);
      assert targets == targets[..n] + [targets[n]];
      var before := FirstSeen([], targets[..n]);
      BeforeSnoc(targets[..n], targets[n], Some(t), Some(u));
      if targets[n].Some? { BeforeSnoc(before, targets[n].value, t, u); }
      if t in before && u !in before { EitherFirst(before, t, u); }
    }
  }

  /** What occurs comes before what does not. */
  lemma EitherFirst<T>(s: seq<T>, a: T, b: T)
    requires a in s && b !in s
    ensures Before(s, a, b)
  {
    assert s + [] == s;
    BeforeByPrefix(s, [], a, b);
  }

  lemma OccursSomewhere<T>(s: seq<T>, a: T, b: T)
    ensures Before(s, a, b) ==> a in s
  {}

  lemma BeforeSnoc<T>(s: seq<T>, x: T, a: T, b: T)
    ensures Before(s + [x], a, b) <==> Before(s, a, b) || (x == a && a != b && b !in s)
  {
    var longer := s + [x];
    if i :| 0 <= i < |longer| && longer[i] == a && b !in longer[..i + 1] {
      if i < |s| {
        assert longer[..i + 1] == s[..i + 1];
      } else {
        assert longer[..i + 1] == longer;
        assert b !in s && x != b;
      }
    }
    if i :| 0 <= i < |s| && s[i] == a && b !in s[..i + 1] {
      assert longer[i] == a && longer[..i + 1] == s[..i + 1];
    }
    if x == a && a != b && b !in s {
      assert longer[|s|] == a && longer[..|s| + 1] == longer;
    }
  }
}
