/** Decimal numbers, `strconv.FormatInt`. */
module Decimals {
  function Decimal(n: nat): (t: string)
    ensures t != "" && forall c :: c in t ==> '0' <= c <= '9'
  {
    var last := ('0' as int + n % 10) as char;
    if n < 10 then [last] else Decimal(n / 10) + [last]
  }

  function Ten(k: nat): nat { if k == 0 then 1 else 10 * Ten(k - 1) }

  lemma {:induction false} DecimalLength(n: nat, k: nat)
    requires k > 0
    ensures |Decimal(n)| <= k <==> n < Ten(k)
    decreases k
  {
    if n < 10 {
      TenGrows(k);
    } else if k > 1 {
      DecimalLength(n / 10, k - 1);
    }
  }

  lemma TenGrows(k: nat)
    requires k > 0
    ensures Ten(k) >= 10
  {
    if k > 1 {
      TenGrows(k - 1);
    }
  }

  lemma Tens()
    ensures Ten(13) == 10000000000000 && Ten(19) == 10000000000000000000
  {
    assert Ten(4) == 10000;
    assert Ten(8) == 10000 * Ten(4);
    assert Ten(12) == 10000 * Ten(8);
    assert Ten(16) == 10000 * Ten(12);
  }
}
