/** Powers of two. */
module Powers {

  function Power2(n: nat): nat { if n == 0 then 1 else 2 * Power2(n - 1) }

  lemma {:induction false} Power2Grows(d: nat, e: nat)
    requires d <= e
    ensures 1 <= Power2(d) <= Power2(e)
  {
    if e > 0 {
      Power2Grows(if d < e then d else d - 1, e - 1);
    }
  }
}
