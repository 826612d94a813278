/** Members and extremes of finite sets. */
module IntSets {

  /** A set that is not empty has a member. */
  lemma SomeMember<T>(s: set<T>) returns (c: T)
    requires s != {}
    ensures c in s
  {
    assert (forall k :: k !in s) ==> s == {};
    c :| c in s;
  }

  lemma {:induction false} SmallestOf(s: set<int>) returns (m: int)
    requires s != {}
    ensures m in s && forall k :: k in s ==> m <= k
  {
    var c := SomeMember(s);
    m := c;
    var others := s - {c};
    assert forall k :: k in s ==> k == c || k in others;
    if others != {} {
      var rest := SmallestOf(others);
      if rest < c { m := rest; }
    }
  }

  lemma {:induction false} LargestOf(s: set<int>) returns (m: int)
    requires s != {}
    ensures m in s && forall k :: k in s ==> k <= m
  {
    var c := SomeMember(s);
    m := c;
    var others := s - {c};
    assert forall k :: k in s ==> k == c || k in others;
    if others != {} {
      var rest := LargestOf(others);
      if rest > c { m := rest; }
    }
  }
}
