/**
 * The Android client's flat-fee billing (BillingConfig.kt): one fee for a stay
 * within two hours, a larger one that replaces it beyond.
 */
module BillingConfig {
  const BASE_RATE: real := 25.0
  const OVERTIME_RATE: real := 100.0
  const OVERTIME_THRESHOLD_MINUTES: int := 120

  datatype BillingResult = BillingResult(amount: real, isOvertime: bool)

  /** calculateBilling: overtime strictly beyond the threshold, and then the overtime fee instead of the base fee. */
  function CalculateBilling(minutesParked: int): (b: BillingResult)
    ensures b.isOvertime <==> minutesParked > OVERTIME_THRESHOLD_MINUTES
    ensures b.amount == BASE_RATE || b.amount == OVERTIME_RATE
    ensures b.amount == OVERTIME_RATE <==> b.isOvertime
  {
    var isOvertime := minutesParked > OVERTIME_THRESHOLD_MINUTES;
    BillingResult(if isOvertime then OVERTIME_RATE else BASE_RATE, isOvertime)
  }

  /** Two hours exactly is the base fee; one minute more is the overtime fee. */
  lemma CalculateBillingBoundary()
    ensures CalculateBilling(120) == BillingResult(25.0, false)
    ensures CalculateBilling(121) == BillingResult(100.0, true)
  {
  }

  /** A longer stay never costs less. */
  lemma CalculateBillingMonotone(m1: int, m2: int)
    requires m1 <= m2
    ensures CalculateBilling(m1).amount <= CalculateBilling(m2).amount
  {
  }

  /** Zero or negative minutes are billed the base fee, with no error. */
  lemma CalculateBillingNonPositive(minutesParked: int)
    requires minutesParked <= 0
    ensures CalculateBilling(minutesParked) == BillingResult(25.0, false)
  {
  }
}
