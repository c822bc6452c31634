/** The optional value and the choice of an unused number shared by the models. */
module Common {
  datatype Option<+T> = None | Some(value: T)

  lemma FreshId(ids: set<nat>) returns (n: nat)
    ensures forall i :: i in ids ==> i < n
    decreases ids
  {
    n := 0;
    if ids != {} {
      var i :| i in ids;
      var rest := FreshId(ids - {i});
      n := if i < rest then rest else i + 1;
      forall j | j in ids ensures j < n {
        assert j == i || j in ids - {i};
      }
    }
  }
}
