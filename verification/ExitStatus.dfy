/** Exit statuses of processes; several are combined by a bitwise or. */
module ExitStatus {
  type Status = nat

  // a | b
  function Or(a: Status, b: Status): (r: Status)
    ensures r == 0 <==> a == 0 && b == 0
  {
    if a == 0 && b == 0 then 0 else 2 * Or(a / 2, b / 2) + (if a % 2 == 1 || b % 2 == 1 then 1 else 0)
  }

  // The k-th bit, the lowest being the one at 0.
  predicate Bit(a: Status, k: nat) {
    if k == 0 then a % 2 == 1 else Bit(a / 2, k - 1)
  }

  // A bit is set exactly if it is in one of the two.
  lemma {:induction false} OrBits(a: Status, b: Status, k: nat)
    ensures Bit(Or(a, b), k) <==> Bit(a, k) || Bit(b, k)
  {
    if a == 0 && b == 0 {
      NoBits(k);
    } else if k > 0 {
      assert Or(a, b) / 2 == Or(a / 2, b / 2);
      OrBits(a / 2, b / 2, k - 1);
    }
  }

  lemma {:induction false} NoBits(k: nat)
    ensures !Bit(0, k)
  {
    if k > 0 { NoBits(k - 1); }
  }
}
