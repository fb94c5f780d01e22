/** Counting finite sets. */
module FiniteSets {
  lemma {:induction false} SubsetCount<T>(s: set<T>, t: set<T>)
    requires s <= t
    ensures |s| <= |t|
    ensures s != t ==> |s| < |t|
  {
    if s != {} {
      var x :| x in s;
      SubsetCount(s - {x}, t - {x});
      assert s - {x} == t - {x} ==> s == t;
    }
  }
}
