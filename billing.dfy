/**
 * The hour-ceiling fee schedule (hitung_biaya in models.py): 2000 for the first hour or any
 * part of it, 1000 for every further started hour.
 */
module Billing {

  const BaseFee := 2000
  const HourlyFee := 1000

  /** ceil(minutes / 60), written as the source writes it: (minutes + 59) // 60. */
  function BilledHours(minutes: int): (h: int)
    ensures 60 * (h - 1) < minutes <= 60 * h
  {
    (minutes + 59) / 60
  }

  /** hitung_biaya(menit) */
  function ComputeFee(minutes: int): (fee: int)
    ensures fee >= BaseFee
    ensures (fee - BaseFee) % HourlyFee == 0
    ensures minutes <= 60 ==> fee == BaseFee
    ensures minutes > 60 ==>
      var extra := (fee - BaseFee) / HourlyFee;
      extra >= 1 && 60 * extra < minutes <= 60 * (extra + 1)
  {
    var hours := BilledHours(minutes);
    if hours <= 1 then BaseFee else BaseFee + (hours - 1) * HourlyFee
  }

  /** The fee charged for a stay of `seconds`: whole minutes, rounded down, then the schedule. */
  function FeeForDuration(seconds: int): (fee: int)
    ensures fee >= BaseFee
    ensures seconds < 61 * 60 ==> fee == BaseFee
  {
    ComputeFee(seconds / 60)
  }

  /** A longer stay never costs less. */
  lemma FeeMonotone(m1: int, m2: int)
    requires m1 <= m2
    ensures ComputeFee(m1) <= ComputeFee(m2)
  {
    var h1, h2 := BilledHours(m1), BilledHours(m2);
    assert h1 <= h2;
  }

  /** The schedule of models.py:116: 2000 for the first hour, then 1000 per started hour. */
  lemma FeeExamples()
    ensures ComputeFee(0) == 2000
    ensures ComputeFee(30) == 2000
    ensures ComputeFee(60) == 2000
    ensures ComputeFee(61) == 3000
    ensures ComputeFee(125) == 4000
  {
  }
}
