/** Finitely many addresses are in use, so there is always another one. */
module Addresses {

  lemma {:induction false} Unused(s: set<int>, floor: int) returns (x: int)
    ensures x > floor && forall y :: y in s ==> y < x
  {
    if y: int :| y in s {
      x := Unused(s - {y}, floor);
      x := if y < x then x else y + 1;
      assert forall z :: z in s ==> z == y || z in s - {y};
    } else {
      x := floor + 1;
    }
  }
}
