/** A name not in use, for lemmas about steps that no process takes. */
module FreshIds {
  lemma {:induction false} UnusedExists(ids: set<nat>)
    ensures exists n: nat :: n !in ids && forall m :: m in ids ==> m < n
  {
    if ids == {} {
      assert 0 !in ids;
    } else {
      var x :| x in ids;
      UnusedExists(ids - {x});
      var n: nat :| n !in ids - {x} && forall m :: m in ids - {x} ==> m < n;
      var top := if n > x then n else x + 1;
      assert forall m :: m in ids ==> m == x || m in ids - {x};
      assert top !in ids && forall m :: m in ids ==> m < top;
    }
  }

  ghost function Unused(ids: set<nat>): (n: nat)
    ensures n !in ids
  {
    UnusedExists(ids);
    var n: nat :| n !in ids;
    n
  }
}
