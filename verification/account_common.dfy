/** What the two bank-account drafts share: the name check, the
    transaction string format and its parser, and the state kept on the
    class rather than on each account (the next transaction id and the
    interest rate). Money is counted in integer cents. */
module AccountCommon {
  import opened Wrappers
  import opened Text

  datatype AccountError = ValueError | TypeError

  /** `_check_name`: whitespace runs collapse to one space, ends trimmed;
      a name left empty is a ValueError. */
  function CheckName(name: string): (r: Result<string, AccountError>)
    ensures r.Err? ==> r.error == ValueError
    ensures r.Ok? ==> r.value != []
  {
    var collapsed := Collapse(name);
    if collapsed == [] then Err(ValueError) else Ok(collapsed)
  }

  /** A name passes exactly when it has a non-whitespace character; what is
      kept has the same words, and checking it again changes nothing. */
  lemma CheckNameFacts(name: string)
    ensures CheckName(name).Ok? <==> exists i :: 0 <= i < |name| && !IsSpace(name[i])
    ensures CheckName(name).Ok? ==> Words(CheckName(name).value) == Words(name)
    ensures CheckName(name).Ok? ==> CheckName(CheckName(name).value) == CheckName(name)
  {
    CollapseEmpty(name);
    WordsAreWords(name);
    WordsOfJoin(Words(name));
    CollapseIdempotent(name);
  }

  /** The transaction codes: withdrawal, deposit, interest, rejected. */
  const Withdrawal := "W"
  const Deposit := "D"
  const Interest := "I"
  const Rejected := "X"

  /** `_generate_transaction_string`: code, account number, timestamp and
      transaction id, joined by '-'. */
  function TransactionString(code: string, number: int, stamp: string, id: nat): string {
    code + "-" + IntToString(number) + "-" + stamp + "-" + IntToString(id)
  }

  /** The fields `parse_transaction_string` recovers. The timestamp is kept
      as the text the string carries. */
  datatype Transaction = Transaction(accountNumber: int, code: string, id: int, stamp: string)

  /** `parse_transaction_string`: split on '-'; the first four pieces are
      the code, the number, the timestamp and the id, the last two read as
      integers. Too few pieces or a piece that is not an integer raise
      (`None`). */
  function ParseTransaction(s: string): (r: Option<Transaction>)
    ensures r.Some? ==> '-' !in r.value.code && '-' !in r.value.stamp
    ensures r.Some? ==> |SplitOn(s, '-')| >= 4
  {
    var parts := SplitOn(s, '-');
    SplitOnJoin(s, '-');
    if |parts| < 4 then None
    else
      var number, id := ParseInt(parts[1]), ParseInt(parts[3]);
      if number.None? || id.None? then None
      else Some(Transaction(number.value, parts[0], id.value, parts[2]))
  }

  lemma NoDashInNat(n: nat)
    ensures '-' !in NatToString(n)
  {
  }

  /** Parsing a generated string gives back its code, number, timestamp and
      id, provided the account number is not negative and neither the code
      nor the timestamp contains '-'. */
  lemma ParseGenerated(code: string, number: int, stamp: string, id: nat)
    requires '-' !in code && '-' !in stamp && number >= 0
    ensures ParseTransaction(TransactionString(code, number, stamp, id)) == Some(Transaction(number, code, id, stamp))
  {
    SplitGenerated(code, number, stamp, id);
    IntRoundTrip(number);
    IntRoundTrip(id);
    ParsePieces(TransactionString(code, number, stamp, id), code, IntToString(number), stamp, IntToString(id));
  }

  /** A string whose four pieces carry integers in the second and the
      fourth place parses to those pieces. */
  lemma ParsePieces(s: string, code: string, n: string, stamp: string, i: string)
    requires SplitOn(s, '-') == [code, n, stamp, i]
    requires ParseInt(n).Some? && ParseInt(i).Some?
    ensures ParseTransaction(s) == Some(Transaction(ParseInt(n).value, code, ParseInt(i).value, stamp))
  {
  }

  /** The four pieces of a generated string with a non-negative number. */
  lemma SplitGenerated(code: string, number: nat, stamp: string, id: nat)
    requires '-' !in code && '-' !in stamp
    ensures SplitOn(TransactionString(code, number, stamp, id), '-') == [code, IntToString(number), stamp, IntToString(id)]
  {
    var n, i := NatToString(number), NatToString(id);
    NoDashInNat(number);
    NoDashInNat(id);
    var s := TransactionString(code, number, stamp, id);
    assert s == code + ['-'] + (n + ['-'] + (stamp + ['-'] + i));
    SplitOnFirst(code, '-', n + ['-'] + (stamp + ['-'] + i));
    SplitOnFirst(n, '-', stamp + ['-'] + i);
    SplitOnFirst(stamp, '-', i);
    SplitOnAbsent(i, '-');
  }

  /** A negative account number puts a second '-' after the code, so the
      string it generates cannot be parsed back. */
  lemma NegativeNumberUnparsable(code: string, number: int, stamp: string, id: nat)
    requires '-' !in code && number < 0
    ensures ParseTransaction(TransactionString(code, number, stamp, id)).None?
  {
    var rest := NatToString(-number) + "-" + stamp + "-" + IntToString(id);
    var s := TransactionString(code, number, stamp, id);
    NegativeShape(code, number, stamp, id);
    SplitOnFirst(code, '-', [] + ['-'] + rest);
    SplitOnFirst([], '-', rest);
    EmptyNumberUnparsable(s);
  }

  /** With a negative number the code is followed by two '-' in a row. */
  lemma NegativeShape(code: string, number: int, stamp: string, id: nat)
    requires number < 0
    ensures TransactionString(code, number, stamp, id)
      == code + ['-'] + ([] + ['-'] + (NatToString(-number) + "-" + stamp + "-" + IntToString(id)))
  {
  }

  /** An empty second piece is not a number. */
  lemma EmptyNumberUnparsable(s: string)
    requires |SplitOn(s, '-')| >= 2 && SplitOn(s, '-')[1] == []
    ensures ParseTransaction(s).None?
  {
  }

  /** The state the `Account` class itself holds, shared by every account:
      the next transaction id and the interest rate. */
  class ClassState {
    var nextTransactionId: nat
    var interest: real

    constructor ()
      ensures nextTransactionId == 0 && interest == 0.0
    {
      nextTransactionId := 0;
      interest := 0.0;
    }

    /** `_get_transaction_id`: the current id, then the counter moves on. */
    method NextTransactionId() returns (tid: nat)
      modifies this
      ensures tid == old(nextTransactionId) && nextTransactionId == tid + 1
      ensures interest == old(interest)
    {
      tid := nextTransactionId;
      nextTransactionId := nextTransactionId + 1;
    }
  }

  /** An amount handed to `withdraw` or `deposit`: a number of cents, or a
      value that is not a number. */
  datatype Amount = Cents(cents: int) | NotNumber

  /** A time zone, as its offset from UTC in seconds. */
  datatype TimeZone = TimeZone(offsetSeconds: int)

  const Utc := TimeZone(0)
}
