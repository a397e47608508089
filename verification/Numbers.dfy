/** New objects: an address or handle that no object of a finite set has. */
module Numbers {
  lemma {:induction false} AboveAll(used: set<nat>) returns (n: nat)
    ensures forall m :: m in used ==> m < n
    decreases |used|
  {
    if used == {} {
      n := 0;
    } else {
      var k :| k in used;
      var rest := AboveAll(used - {k});
      n := if k < rest then rest else k + 1;
      forall m | m in used ensures m < n {
        assert m == k || m in used - {k};
      }
    }
  }
}
