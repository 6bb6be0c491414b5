/** The earlier draft of the bank account. It differs from the later one
    in four ways: a negative opening balance is clamped to zero rather than
    refused, the time zone is not type-checked, `set_interest` reports
    failure as `false` instead of raising, and `withdraw`/`deposit` make no
    sign check and turn a non-number into a rejected ('X') transaction. */
module BankAccountDraft {
  import opened Wrappers
  import opened AccountCommon

  /** `withdraw` as the draft writes it: a non-number is rejected, as is a
      result below zero; anything else is made, whatever the amount's
      sign. The result is the code and the new balance. */
  function DraftWithdrawOutcome(balance: int, value: Amount): (r: (string, int))
    ensures value.NotNumber? ==> r == (Rejected, balance)
    ensures r.0 == Withdrawal || r == (Rejected, balance)
  {
    match value
    case NotNumber => (Rejected, balance)
    case Cents(c) => if balance - c >= 0 then (Withdrawal, balance - c) else (Rejected, balance)
  }

  /** `deposit` as the draft writes it. */
  function DraftDepositOutcome(balance: int, value: Amount): (r: (string, int))
    ensures value.NotNumber? ==> r == (Rejected, balance)
    ensures r.0 == Deposit || r == (Rejected, balance)
  {
    match value
    case NotNumber => (Rejected, balance)
    case Cents(c) => if balance + c >= 0 then (Deposit, balance + c) else (Rejected, balance)
  }

  /** Whatever is asked, the balance stays non-negative; a transaction is
      made exactly when its result would not be negative, and then moves
      the balance by exactly the amount. */
  lemma DraftOutcomesKeepBalance(balance: int, c: int)
    requires 0 <= balance
    ensures DraftWithdrawOutcome(balance, Cents(c)).1 >= 0 && DraftDepositOutcome(balance, Cents(c)).1 >= 0
    ensures DraftWithdrawOutcome(balance, Cents(c)).0 == Withdrawal <==> c <= balance
    ensures DraftWithdrawOutcome(balance, Cents(c)).0 == Withdrawal ==> DraftWithdrawOutcome(balance, Cents(c)).1 == balance - c
    ensures DraftDepositOutcome(balance, Cents(c)).0 == Deposit <==> -c <= balance
    ensures DraftDepositOutcome(balance, Cents(c)).0 == Deposit ==> DraftDepositOutcome(balance, Cents(c)).1 == balance + c
  {
  }

  /** Without a sign check, withdrawing a negative amount is reported as a
      withdrawal and raises the balance. */
  lemma NegativeWithdrawalRaisesBalance(balance: int, c: int)
    requires 0 <= balance && c < 0
    ensures DraftWithdrawOutcome(balance, Cents(c)) == (Withdrawal, balance - c)
    ensures DraftWithdrawOutcome(balance, Cents(c)).1 > balance
  {
  }

  class DraftAccount {
    const cls: ClassState
    const number: int
    const firstName: string
    const lastName: string
    /** In cents. */
    var balance: int
    const timezone: TimeZone

    ghost predicate Valid() reads this {
      balance >= 0
    }

    constructor Make(cls: ClassState, number: int, firstName: string, lastName: string, balance: int, timezone: TimeZone)
      requires balance >= 0
      ensures this.cls == cls && this.number == number && this.firstName == firstName && this.lastName == lastName
      ensures this.balance == balance && this.timezone == timezone && Valid()
    {
      this.cls := cls;
      this.number := number;
      this.firstName := firstName;
      this.lastName := lastName;
      this.balance := balance;
      this.timezone := timezone;
    }

    /** `withdraw` at the time `stamp`: every call produces a transaction
        string with the next id. */
    method Withdraw(value: Amount, stamp: string) returns (s: string)
      requires Valid()
      modifies this, cls
      ensures Valid() && cls.interest == old(cls.interest)
      ensures var (code, nb) := DraftWithdrawOutcome(old(balance), value);
        && balance == nb
        && s == TransactionString(code, number, stamp, old(cls.nextTransactionId))
        && cls.nextTransactionId == old(cls.nextTransactionId) + 1
    {
      var (code, nb) := DraftWithdrawOutcome(balance, value);
      balance := nb;
      var tid := cls.NextTransactionId();
      s := TransactionString(code, number, stamp, tid);
    }

    /** `deposit` at the time `stamp`. */
    method MakeDeposit(value: Amount, stamp: string) returns (s: string)
      requires Valid()
      modifies this, cls
      ensures Valid() && cls.interest == old(cls.interest)
      ensures var (code, nb) := DraftDepositOutcome(old(balance), value);
        && balance == nb
        && s == TransactionString(code, number, stamp, old(cls.nextTransactionId))
        && cls.nextTransactionId == old(cls.nextTransactionId) + 1
    {
      var (code, nb) := DraftDepositOutcome(balance, value);
      balance := nb;
      var tid := cls.NextTransactionId();
      s := TransactionString(code, number, stamp, tid);
    }
  }

  /** The draft's `Account(...)`: the names are checked, a negative balance
      becomes zero, and no time zone means UTC. */
  method OpenDraft(cls: ClassState, number: int, firstName: string, lastName: string, balance: int, tz: Option<TimeZone>)
    returns (r: Result<DraftAccount, AccountError>)
    ensures CheckName(firstName).Err? || CheckName(lastName).Err? ==> r == Err(ValueError)
    ensures CheckName(firstName).Ok? && CheckName(lastName).Ok? ==>
      && r.Ok? && fresh(r.value) && r.value.Valid()
      && r.value.cls == cls && r.value.number == number
      && r.value.firstName == CheckName(firstName).value && r.value.lastName == CheckName(lastName).value
      && r.value.balance == (if balance >= 0 then balance else 0)
      && r.value.timezone == (if tz.None? then Utc else tz.value)
  {
    var first := CheckName(firstName);
    if first.Err? {
      return Err(first.error);
    }
    var last := CheckName(lastName);
    if last.Err? {
      return Err(last.error);
    }
    var a := new DraftAccount.Make(cls, number, first.value, last.value,
      if balance >= 0 then balance else 0, if tz.None? then Utc else tz.value);
    return Ok(a);
  }

  /** The draft's `set_interest`: `true` after storing a convertible rate,
      `false` with the rate unchanged otherwise. */
  method SetInterestDraft(cls: ClassState, interest: Option<real>) returns (stored: bool)
    modifies cls
    ensures stored <==> interest.Some?
    ensures cls.interest == (if interest.Some? then interest.value else old(cls.interest))
    ensures cls.nextTransactionId == old(cls.nextTransactionId)
  {
    if interest.None? {
      return false;
    }
    cls.interest := interest.value;
    return true;
  }
}
