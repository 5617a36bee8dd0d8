/** The amount and period form: the clamping steppers, the advisory
    validation messages, and the change handlers that forward every value
    to the parent and log it. */
module InputForm {
  import opened Types

  const MinAmount: int := 200
  const MaxAmount: int := 150000
  const MinPeriod: int := 1
  const MaxPeriod: int := 60
  /** What one press of an amount stepper adds or takes away. */
  const AmountStep: int := 500

  // ---------------------------------------------------------------- steppers

  function Min(a: int, b: int): (m: int)
    ensures m <= a && m <= b && (m == a || m == b)
  {
    if a <= b then a else b
  }

  function Max(a: int, b: int): (m: int)
    ensures m >= a && m >= b && (m == a || m == b)
  {
    if a >= b then a else b
  }

  predicate AmountInRange(amount: int) {
    MinAmount <= amount <= MaxAmount
  }

  predicate PeriodInRange(period: int) {
    MinPeriod <= period <= MaxPeriod
  }

  /** `Math.min(amount + 500, MAX_AMOUNT)`: up a step, but never above the
      maximum (so from above the maximum it goes down to it). */
  function IncrementAmount(amount: int): (r: int)
    ensures r <= MaxAmount
    ensures r == amount + AmountStep || r == MaxAmount
    ensures amount + AmountStep <= MaxAmount ==> r == amount + AmountStep
  {
    Min(amount + AmountStep, MaxAmount)
  }

  /** `Math.max(amount - 500, MIN_AMOUNT)`. */
  function DecrementAmount(amount: int): (r: int)
    ensures r >= MinAmount
    ensures r == amount - AmountStep || r == MinAmount
    ensures amount - AmountStep >= MinAmount ==> r == amount - AmountStep
  {
    Max(amount - AmountStep, MinAmount)
  }

  /** `Math.min(period + 1, MAX_PERIOD)`. */
  function IncrementPeriod(period: int): (r: int)
    ensures r <= MaxPeriod
    ensures r == period + 1 || r == MaxPeriod
    ensures period + 1 <= MaxPeriod ==> r == period + 1
  {
    Min(period + 1, MaxPeriod)
  }

  /** `Math.max(period - 1, MIN_PERIOD)`. */
  function DecrementPeriod(period: int): (r: int)
    ensures r >= MinPeriod
    ensures r == period - 1 || r == MinPeriod
    ensures period - 1 >= MinPeriod ==> r == period - 1
  {
    Max(period - 1, MinPeriod)
  }

  /** From a valid value the steppers only reach valid values, and they move
      by at most one step. */
  lemma SteppersKeepRange(amount: int, period: int)
    ensures AmountInRange(amount) ==> AmountInRange(IncrementAmount(amount)) && AmountInRange(DecrementAmount(amount))
    ensures PeriodInRange(period) ==> PeriodInRange(IncrementPeriod(period)) && PeriodInRange(DecrementPeriod(period))
    ensures AmountInRange(amount) ==> amount <= IncrementAmount(amount) <= amount + AmountStep
    ensures AmountInRange(amount) ==> amount - AmountStep <= DecrementAmount(amount) <= amount
  {
  }

  /** Away from the bounds, one step down undoes one step up and back. */
  lemma SteppersUndo(amount: int, period: int)
    ensures MinAmount <= amount && amount + AmountStep <= MaxAmount ==> DecrementAmount(IncrementAmount(amount)) == amount
    ensures MinAmount <= amount - AmountStep && amount <= MaxAmount ==> IncrementAmount(DecrementAmount(amount)) == amount
    ensures MinPeriod <= period < MaxPeriod ==> DecrementPeriod(IncrementPeriod(period)) == period
    ensures MinPeriod < period <= MaxPeriod ==> IncrementPeriod(DecrementPeriod(period)) == period
  {
  }

  /** Pressing a stepper at its bound changes nothing. */
  lemma SteppersStickAtBounds()
    ensures IncrementAmount(MaxAmount) == MaxAmount && DecrementAmount(MinAmount) == MinAmount
    ensures IncrementPeriod(MaxPeriod) == MaxPeriod && DecrementPeriod(MinPeriod) == MinPeriod
  {
  }

  // ------------------------------------------------------------- validation

  const AmountTooLow: string := "Minimalna kwota to 200 zł"
  const AmountTooHigh: string := "Maksymalna kwota to 150000 zł"
  const PeriodTooLow: string := "Minimalny okres to 1 miesiąc"
  const PeriodTooHigh: string := "Maksymalny okres to 60 miesięcy"

  /** The amount effect: which message, if any, is shown under the field. */
  function AmountError(amount: int): (msg: string)
    ensures msg == AmountTooLow <==> amount < MinAmount
    ensures msg == AmountTooHigh <==> amount > MaxAmount
    ensures msg == "" <==> AmountInRange(amount)
  {
    if amount < MinAmount then AmountTooLow
    else if amount > MaxAmount then AmountTooHigh
    else ""
  }

  /** The period effect, the same three-way rule on months. */
  function PeriodError(period: int): (msg: string)
    ensures msg == PeriodTooLow <==> period < MinPeriod
    ensures msg == PeriodTooHigh <==> period > MaxPeriod
    ensures msg == "" <==> PeriodInRange(period)
  {
    if period < MinPeriod then PeriodTooLow
    else if period > MaxPeriod then PeriodTooHigh
    else ""
  }

  // -------------------------------------------------------------- component

  /** One mounted `InputForm`: the `amount` and `period` props, the two
      error messages the effects keep, the values passed to
      `onAmountChange` and `onPeriodChange`, and the analytics log. */
  class Form {
    var amount: int
    var period: int
    var amountError: string
    var periodError: string
    var amountChanges: seq<int>
    var periodChanges: seq<int>
    const log: EventLog

    /** After the effects have run, each message is the one its value calls for. */
    ghost predicate Valid()
      reads this
    {
      amountError == AmountError(amount) && periodError == PeriodError(period)
    }

    /** Mount: the two validation effects run on the initial props. */
    constructor (amount: int, period: int, log: EventLog)
      ensures Valid()
      ensures this.amount == amount && this.period == period && this.log == log
      ensures amountChanges == [] && periodChanges == []
    {
      this.amount := amount;
      this.period := period;
      this.log := log;
      amountError := AmountError(amount);
      periodError := PeriodError(period);
      amountChanges := [];
      periodChanges := [];
    }

    /** The parent passes new props and the validation effects run again. */
    method Rerender(amount: int, period: int)
      modifies this
      ensures Valid()
      ensures this.amount == amount && this.period == period
      ensures amountChanges == old(amountChanges) && periodChanges == old(periodChanges)
    {
      this.amount := amount;
      this.period := period;
      amountError := AmountError(amount);
      periodError := PeriodError(period);
    }

    /** `handleAmountChange`: forwards `value` whatever its validity and
        logs it with the current period. */
    method HandleAmountChange(value: int)
      modifies this, log
      ensures amountChanges == old(amountChanges) + [value]
      ensures log.events == old(log.events) + [FilterChangeEvent(value, old(period), None)]
      ensures periodChanges == old(periodChanges)
      ensures amount == old(amount) && period == old(period)
      ensures amountError == old(amountError) && periodError == old(periodError)
    {
      amountChanges := amountChanges + [value];
      log.LogEvent(FilterChangeEvent(value, period, None));
    }

    /** `handlePeriodChange`: forwards `value` and logs it with the current
        amount. */
    method HandlePeriodChange(value: int)
      modifies this, log
      ensures periodChanges == old(periodChanges) + [value]
      ensures log.events == old(log.events) + [FilterChangeEvent(old(amount), value, None)]
      ensures amountChanges == old(amountChanges)
      ensures amount == old(amount) && period == old(period)
      ensures amountError == old(amountError) && periodError == old(periodError)
    {
      periodChanges := periodChanges + [value];
      log.LogEvent(FilterChangeEvent(amount, value, None));
    }

    method IncrementAmountClick()
      modifies this, log
      ensures amountChanges == old(amountChanges) + [IncrementAmount(old(amount))]
      ensures log.events == old(log.events) + [FilterChangeEvent(IncrementAmount(old(amount)), old(period), None)]
      ensures periodChanges == old(periodChanges)
      ensures amount == old(amount) && period == old(period)
      ensures amountError == old(amountError) && periodError == old(periodError)
    {
      HandleAmountChange(IncrementAmount(amount));
    }

    method DecrementAmountClick()
      modifies this, log
      ensures amountChanges == old(amountChanges) + [DecrementAmount(old(amount))]
      ensures log.events == old(log.events) + [FilterChangeEvent(DecrementAmount(old(amount)), old(period), None)]
      ensures periodChanges == old(periodChanges)
      ensures amount == old(amount) && period == old(period)
      ensures amountError == old(amountError) && periodError == old(periodError)
    {
      HandleAmountChange(DecrementAmount(amount));
    }

    method IncrementPeriodClick()
      modifies this, log
      ensures periodChanges == old(periodChanges) + [IncrementPeriod(old(period))]
      ensures log.events == old(log.events) + [FilterChangeEvent(old(amount), IncrementPeriod(old(period)), None)]
      ensures amountChanges == old(amountChanges)
      ensures amount == old(amount) && period == old(period)
      ensures amountError == old(amountError) && periodError == old(periodError)
    {
      HandlePeriodChange(IncrementPeriod(period));
    }

    method DecrementPeriodClick()
      modifies this, log
      ensures periodChanges == old(periodChanges) + [DecrementPeriod(old(period))]
      ensures log.events == old(log.events) + [FilterChangeEvent(old(amount), DecrementPeriod(old(period)), None)]
      ensures amountChanges == old(amountChanges)
      ensures amount == old(amount) && period == old(period)
      ensures amountError == old(amountError) && periodError == old(periodError)
    {
      HandlePeriodChange(DecrementPeriod(period));
    }
  }
}
