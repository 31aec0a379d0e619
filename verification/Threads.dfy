/** Names for threads and calls: there is always another one. */
module Threads {

  lemma {:induction false} Newcomer(used: set<nat>) returns (t: nat)
    ensures t !in used && forall u <- used :: u < t
  {
    t := 0;
    if used != {} {
      var u :| u in used;
      var v := Newcomer(used - {u});
      t := if u < v then v else u + 1;
      forall w | w in used ensures w < t {
        assert w == u || w in used - {u};
      }
    }
  }
}
