/** A bank account: number, owner names, a balance that never goes below
    zero, and a time zone. Every withdrawal or deposit attempt that gets
    past the argument checks produces a transaction string carrying the
    next id from the class-wide counter. */
module BankAccount {
  import opened Wrappers
  import opened AccountCommon

  /** The `tz` argument: none, a time zone, or something else. */
  datatype TzArg = NoTz | Tz(zone: TimeZone) | NotTz

  /** The timezone setter: none means UTC; anything but a time zone is a
      TypeError. */
  function ZoneOf(tz: TzArg): (r: Result<TimeZone, AccountError>)
    ensures r.Err? <==> tz.NotTz?
    ensures r.Err? ==> r.error == TypeError
  {
    match tz
    case NoTz => Ok(Utc)
    case Tz(z) => Ok(z)
    case NotTz => Err(TypeError)
  }

  /** `withdraw`: a non-number fails the sign comparison (TypeError), a
      negative amount is a ValueError; otherwise a withdrawal beyond the
      balance is rejected ('X') and leaves it, and any other is made ('W').
      The result is the code and the new balance. */
  function WithdrawOutcome(balance: int, value: Amount): (r: Result<(string, int), AccountError>)
    ensures value.NotNumber? ==> r == Err(TypeError)
    ensures value.Cents? && value.cents < 0 ==> r == Err(ValueError)
    ensures value.Cents? && 0 <= value.cents ==> r.Ok?
  {
    match value
    case NotNumber => Err(TypeError)
    case Cents(c) =>
      if c < 0 then Err(ValueError)
      else if balance - c < 0 then Ok((Rejected, balance))
      else Ok((Withdrawal, balance - c))
  }

  /** `deposit`: the same argument checks; a deposit is always made. */
  function DepositOutcome(balance: int, value: Amount): (r: Result<(string, int), AccountError>)
    ensures value.NotNumber? ==> r == Err(TypeError)
    ensures value.Cents? && value.cents < 0 ==> r == Err(ValueError)
    ensures value.Cents? && 0 <= value.cents ==> r.Ok?
  {
    match value
    case NotNumber => Err(TypeError)
    case Cents(c) =>
      if c < 0 then Err(ValueError)
      else Ok((Deposit, balance + c))
  }

  /** A withdrawal is made exactly when the funds cover it, and then takes
      exactly the amount; a rejected one leaves the balance. The balance
      never rises, and never falls below zero. */
  lemma WithdrawOutcomeFacts(balance: int, c: int)
    requires 0 <= balance && 0 <= c
    ensures var (code, nb) := WithdrawOutcome(balance, Cents(c)).value;
      && (code == Withdrawal <==> c <= balance)
      && (code == Withdrawal ==> nb == balance - c)
      && (code != Withdrawal ==> code == Rejected && nb == balance)
      && 0 <= nb <= balance
  {
  }

  /** A deposit adds exactly the amount, so the balance never falls. */
  lemma DepositOutcomeFacts(balance: int, c: int)
    requires 0 <= balance && 0 <= c
    ensures DepositOutcome(balance, Cents(c)) == Ok((Deposit, balance + c))
    ensures balance <= DepositOutcome(balance, Cents(c)).value.1
  {
  }

  /** Depositing an amount and then withdrawing it restores the balance. */
  lemma DepositThenWithdraw(balance: int, c: int)
    requires 0 <= balance && 0 <= c
    ensures WithdrawOutcome(DepositOutcome(balance, Cents(c)).value.1, Cents(c)) == Ok((Withdrawal, balance))
  {
  }

  class Account {
    /** The class-level state every account shares. */
    const cls: ClassState
    const number: int
    var firstName: string
    var lastName: string
    /** In cents. */
    var balance: int
    var timezone: TimeZone

    ghost predicate Valid() reads this {
      balance >= 0 && firstName != [] && lastName != []
    }

    /** The fields as `__init__` leaves them once every check passed. */
    constructor Make(cls: ClassState, number: int, firstName: string, lastName: string, balance: int, timezone: TimeZone)
      requires firstName != [] && lastName != [] && balance >= 0
      ensures this.cls == cls && this.number == number && this.firstName == firstName && this.lastName == lastName
      ensures this.balance == balance && this.timezone == timezone && Valid()
    {
      this.cls := cls;
      this.number := number;
      this.firstName := firstName;
      this.lastName := lastName;
      this.balance := balance;
      this.timezone := timezone;
    }

    /** The `first_name` setter. */
    method SetFirstName(name: string) returns (r: Result<(), AccountError>)
      requires Valid()
      modifies this
      ensures Valid() && lastName == old(lastName) && balance == old(balance) && timezone == old(timezone)
      ensures CheckName(name).Err? ==> r == Err(ValueError) && firstName == old(firstName)
      ensures CheckName(name).Ok? ==> r.Ok? && firstName == CheckName(name).value
    {
      var checked := CheckName(name);
      if checked.Err? {
        return Err(checked.error);
      }
      firstName := checked.value;
      return Ok(());
    }

    /** The `last_name` setter. */
    method SetLastName(name: string) returns (r: Result<(), AccountError>)
      requires Valid()
      modifies this
      ensures Valid() && firstName == old(firstName) && balance == old(balance) && timezone == old(timezone)
      ensures CheckName(name).Err? ==> r == Err(ValueError) && lastName == old(lastName)
      ensures CheckName(name).Ok? ==> r.Ok? && lastName == CheckName(name).value
    {
      var checked := CheckName(name);
      if checked.Err? {
        return Err(checked.error);
      }
      lastName := checked.value;
      return Ok(());
    }

    /** The `timezone` setter. */
    method SetTimezone(tz: TzArg) returns (r: Result<(), AccountError>)
      modifies this
      ensures firstName == old(firstName) && lastName == old(lastName) && balance == old(balance)
      ensures ZoneOf(tz).Err? ==> r == Err(TypeError) && timezone == old(timezone)
      ensures ZoneOf(tz).Ok? ==> r.Ok? && timezone == ZoneOf(tz).value
    {
      var z := ZoneOf(tz);
      if z.Err? {
        return Err(z.error);
      }
      timezone := z.value;
      return Ok(());
    }

    /** The `timezone` deleter: back to UTC. */
    method DeleteTimezone()
      modifies this
      ensures timezone == Utc
      ensures firstName == old(firstName) && lastName == old(lastName) && balance == old(balance)
    {
      timezone := Utc;
    }

    /** `_generate_transaction_string`, at the time `stamp`. */
    method TransactionFor(code: string, stamp: string) returns (s: string)
      modifies cls
      ensures s == TransactionString(code, number, stamp, old(cls.nextTransactionId))
      ensures cls.nextTransactionId == old(cls.nextTransactionId) + 1 && cls.interest == old(cls.interest)
    {
      var tid := cls.NextTransactionId();
      s := TransactionString(code, number, stamp, tid);
    }

    /** `withdraw` at the time `stamp`. A string it returns parses back to
        its code, the account number and its id when the number is not
        negative. */
    method Withdraw(value: Amount, stamp: string) returns (r: Result<string, AccountError>)
      requires Valid()
      modifies this, cls
      ensures Valid() && firstName == old(firstName) && lastName == old(lastName) && timezone == old(timezone)
      ensures WithdrawOutcome(old(balance), value).Err? ==>
        && r == Err(WithdrawOutcome(old(balance), value).error)
        && balance == old(balance) && cls.nextTransactionId == old(cls.nextTransactionId)
      ensures WithdrawOutcome(old(balance), value).Ok? ==>
        var (code, nb) := WithdrawOutcome(old(balance), value).value;
        && balance == nb
        && r == Ok(TransactionString(code, number, stamp, old(cls.nextTransactionId)))
        && cls.nextTransactionId == old(cls.nextTransactionId) + 1
        && (number >= 0 && '-' !in stamp ==>
              ParseTransaction(r.value) == Some(Transaction(number, code, old(cls.nextTransactionId), stamp)))
      ensures cls.interest == old(cls.interest)
    {
      var outcome := WithdrawOutcome(balance, value);
      if outcome.Err? {
        return Err(outcome.error);
      }
      var (code, nb) := outcome.value;
      if value.cents <= balance {
        balance := nb;
      }
      var s := TransactionFor(code, stamp);
      if number >= 0 && '-' !in stamp {
        ParseGenerated(code, number, stamp, old(cls.nextTransactionId));
      }
      return Ok(s);
    }

    /** `deposit` at the time `stamp`. */
    method MakeDeposit(value: Amount, stamp: string) returns (r: Result<string, AccountError>)
      requires Valid()
      modifies this, cls
      ensures Valid() && firstName == old(firstName) && lastName == old(lastName) && timezone == old(timezone)
      ensures DepositOutcome(old(balance), value).Err? ==>
        && r == Err(DepositOutcome(old(balance), value).error)
        && balance == old(balance) && cls.nextTransactionId == old(cls.nextTransactionId)
      ensures DepositOutcome(old(balance), value).Ok? ==>
        var (code, nb) := DepositOutcome(old(balance), value).value;
        && balance == nb
        && r == Ok(TransactionString(code, number, stamp, old(cls.nextTransactionId)))
        && cls.nextTransactionId == old(cls.nextTransactionId) + 1
        && (number >= 0 && '-' !in stamp ==>
              ParseTransaction(r.value) == Some(Transaction(number, code, old(cls.nextTransactionId), stamp)))
      ensures cls.interest == old(cls.interest)
    {
      var outcome := DepositOutcome(balance, value);
      if outcome.Err? {
        return Err(outcome.error);
      }
      var (code, nb) := outcome.value;
      balance := nb;
      var s := TransactionFor(code, stamp);
      if number >= 0 && '-' !in stamp {
        ParseGenerated(code, number, stamp, old(cls.nextTransactionId));
      }
      return Ok(s);
    }
  }

  /** `Account(...)`: the names are checked first, then the balance (no
      negative balance), then the time zone. */
  method Open(cls: ClassState, number: int, firstName: string, lastName: string, balance: int, tz: TzArg)
    returns (r: Result<Account, AccountError>)
    ensures CheckName(firstName).Err? || CheckName(lastName).Err? ==> r == Err(ValueError)
    ensures CheckName(firstName).Ok? && CheckName(lastName).Ok? && balance < 0 ==> r == Err(ValueError)
    ensures CheckName(firstName).Ok? && CheckName(lastName).Ok? && balance >= 0 && tz.NotTz? ==> r == Err(TypeError)
    ensures CheckName(firstName).Ok? && CheckName(lastName).Ok? && balance >= 0 && !tz.NotTz? ==>
      && r.Ok? && fresh(r.value) && r.value.Valid()
      && r.value.cls == cls && r.value.number == number && r.value.balance == balance
      && r.value.firstName == CheckName(firstName).value && r.value.lastName == CheckName(lastName).value
      && r.value.timezone == ZoneOf(tz).value
  {
    var first := CheckName(firstName);
    if first.Err? {
      return Err(first.error);
    }
    var last := CheckName(lastName);
    if last.Err? {
      return Err(last.error);
    }
    if balance < 0 {
      return Err(ValueError);
    }
    var zone := ZoneOf(tz);
    if zone.Err? {
      return Err(zone.error);
    }
    var a := new Account.Make(cls, number, first.value, last.value, balance, zone.value);
    return Ok(a);
  }

  /** An interest argument: a value `float` converts, or one it rejects
      with the given error. */
  datatype InterestArg = Convertible(rate: real) | Unconvertible(error: AccountError)

  /** `set_interest`: the class-wide rate; an unconvertible value raises. */
  method SetInterest(cls: ClassState, interest: InterestArg) returns (r: Result<(), AccountError>)
    modifies cls
    ensures cls.nextTransactionId == old(cls.nextTransactionId)
    ensures interest.Convertible? ==> r.Ok? && cls.interest == interest.rate
    ensures interest.Unconvertible? ==> r == Err(interest.error) && cls.interest == old(cls.interest)
  {
    if interest.Unconvertible? {
      return Err(interest.error);
    }
    cls.interest := interest.rate;
    return Ok(());
  }
}
