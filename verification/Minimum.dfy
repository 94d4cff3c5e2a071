/** The least element of a set of identifiers, which an ascending query returns first. */
module Minimum {
  predicate Inhabited(s: set<int>) { exists x :: x in s }

  lemma {:induction false} LeastExists(s: set<int>)
    requires Inhabited(s)
    ensures exists m :: m in s && forall x | x in s :: m <= x
    decreases |s|
  {
    var m :| m in s;
    var rest := s - {m};
    assert forall x | x in s :: x == m || x in rest;
    if Inhabited(rest) {
      LeastExists(rest);
      var r :| r in rest && forall x | x in rest :: r <= x;
      var least := if r < m then r else m;
      assert least in s;
      forall x | x in s ensures least <= x {
        assert x == m || x in rest;
      }
    } else {
      forall x | x in s ensures m <= x {
        assert x == m || x in rest;
      }
    }
  }

  function Least(s: set<int>): (m: int)
    requires Inhabited(s)
    ensures m in s && forall x | x in s :: m <= x
  {
    LeastExists(s);
    var m :| m in s && forall x | x in s :: m <= x;
    m
  }
}
