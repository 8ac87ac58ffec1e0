/** Iteration over the keys of an ordered map, smallest first. */
module KeyOrder {
  lemma MinExists(keys: set<nat>, k: nat)
    requires k in keys
    ensures exists m :: m in keys && forall j :: j in keys ==> m <= j
    decreases k
  {
    if j :| j in keys && j < k {
      MinExists(keys, j);
    }
  }

  function Least(keys: set<nat>): (k: nat)
    requires keys != {}
    ensures k in keys && forall j :: j in keys ==> k <= j
  {
    MinExists(keys, var k :| k in keys; k);
    var k :| k in keys && forall j :: j in keys ==> k <= j;
    k
  }
}
