/** Generic facts about finite sets. */
module Collections {
  lemma Element<T>(s: set<T>) returns (e: T)
    requires s != {}
    ensures e in s
  {
    e :| e in s;
  }

  /** A number above all the values that `f` has on a set. */
  lemma {:induction false} Above<T>(s: set<T>, f: T -> int) returns (bound: int)
    ensures forall e :: e in s ==> f(e) < bound
    decreases s
  {
    bound := 0;
    if s != {} {
      var one := Element(s);
      var rest := Above(s - {one}, f);
      bound := if f(one) < rest then rest else f(one) + 1;
    }
  }
}
