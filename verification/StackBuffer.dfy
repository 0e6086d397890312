/** The payload buffer of the UEFI agent library, aligned within an array on the stack. */
module StackBuffer {
  import opened NyxApi
  import opened Agents

  /** (a + 0x1000) & 0xfffffffffffff000, in 64-bit arithmetic */
  function Aligned(b: uint64): uint64 {
    var a := (b + 0x1000) % TWO_64;
    a - a % 0x1000
  }

  /** The payload buffer behind b lies within an array at b of the payload's size and some slack. */
  ghost predicate Fits(b: uint64, slack: nat) {
    b <= Aligned(b) && Aligned(b) + PAYLOAD_MAX <= b + PAYLOAD_MAX + slack
  }

  lemma AlignedIs(b: uint64)
    requires b + PAYLOAD_MAX + 0x1000 <= TWO_64
    ensures var a := Aligned(b);
            && a % PAGE_SIZE == 0 && b < a <= b + 0x1000
            && (a == b + 0x1000 <==> b % PAGE_SIZE == 0)
  {
    assert (b + 0x1000) % TWO_64 == b + 0x1000;
  }

  /** The array's slack of one page is enough wherever the array lies, and no smaller one is: a
      page-aligned array is not used from its start, but from its second page. */
  lemma SlackIffPage(slack: nat)
    ensures (forall b: uint64 :: b + PAYLOAD_MAX + 0x1000 <= TWO_64 ==> Fits(b, slack)) <==> slack >= 0x1000
  {
    forall b: uint64 | b + PAYLOAD_MAX + 0x1000 <= TWO_64 && slack >= 0x1000
      ensures Fits(b, slack)
    {
      AlignedIs(b);
    }
    if slack < 0x1000 {
      AlignedIs(0);
      assert !Fits(0, slack);
    }
  }
}
