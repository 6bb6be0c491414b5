/** An enumeration of error kinds. Each member carries a numeric code (its
    enum value), the exception class it raises and a default message, and
    `throw` raises that class with the code and a message. */
module ExceptionsEnum {
  import opened Wrappers

  datatype Member =
    | InvalidArgument | NotAInteger | NotANumber | NotAFloat | NotASequence | NotAMapping
    | AccessDenied | ReadOnlyAttribute | WriteOnlyAttribute

  datatype ExceptionClass = ValueError | AttributeError

  /** The members in definition order. */
  const Members: seq<Member> := [
    InvalidArgument, NotAInteger, NotANumber, NotAFloat, NotASequence, NotAMapping,
    AccessDenied, ReadOnlyAttribute, WriteOnlyAttribute]

  function Code(m: Member): nat {
    match m
    case InvalidArgument => 100
    case NotAInteger => 110
    case NotANumber => 120
    case NotAFloat => 130
    case NotASequence => 140
    case NotAMapping => 150
    case AccessDenied => 200
    case ReadOnlyAttribute => 210
    case WriteOnlyAttribute => 220
  }

  function Exception(m: Member): ExceptionClass {
    match m
    case InvalidArgument => ValueError
    case NotAInteger => ValueError
    case NotANumber => ValueError
    case NotAFloat => ValueError
    case NotASequence => ValueError
    case NotAMapping => ValueError
    case AccessDenied => AttributeError
    case ReadOnlyAttribute => AttributeError
    case WriteOnlyAttribute => AttributeError
  }

  function DefaultMessage(m: Member): string {
    match m
    case InvalidArgument => "Invalid argument supplied"
    case NotAInteger => "Integer value was expected"
    case NotANumber => "Number value was expected"
    case NotAFloat => "Floating point value was expected"
    case NotASequence => "Sequence object was expected"
    case NotAMapping => "Mapping object was expected"
    case AccessDenied => "Cannot access this attribute"
    case ReadOnlyAttribute => "Read only attribute"
    case WriteOnlyAttribute => "Write only attribute"
  }

  /** The member list names every member once, in increasing code order,
      so no two members share a code (`@enum.unique`). */
  lemma MembersOrdered()
    ensures forall m: Member :: m in Members
    ensures forall i, j :: 0 <= i < j < |Members| ==> Code(Members[i]) < Code(Members[j])
    ensures forall m, n :: Code(m) == Code(n) ==> m == n
  {
    forall m: Member ensures m in Members {
      assert Members[Index(m)] == m;
    }
  }

  /** A member's place in the member list. */
  function Index(m: Member): (i: nat)
    ensures i < |Members| && Members[i] == m
  {
    var i := Code(m) / 10 - 10;
    if i < 6 then i else i - 4
  }

  /** ValueError members use codes 100 to 150, AttributeError members 200
      to 220; every code is a multiple of ten. */
  lemma CodeRanges(m: Member)
    ensures Exception(m) == ValueError <==> 100 <= Code(m) <= 150
    ensures Exception(m) == AttributeError <==> 200 <= Code(m) <= 220
    ensures Code(m) % 10 == 0
  {
  }

  /** The member with a code, found by scanning a member list: the enum's
      lookup by value. */
  function FindCode(ms: seq<Member>, code: int): (r: Option<Member>)
    ensures r.Some? ==> r.value in ms && Code(r.value) == code
    ensures r.None? ==> forall i :: 0 <= i < |ms| ==> Code(ms[i]) != code
  {
    if ms == [] then None
    else if Code(ms[0]) == code then Some(ms[0])
    else FindCode(ms[1..], code)
  }

  /** `ExceptionsEnum(code)`. */
  function FromValue(code: int): Option<Member> {
    FindCode(Members, code)
  }

  /** Looking a member up by its code gives the member back, and only
      codes of members are found. */
  lemma FromValueRoundTrip(m: Member, code: int)
    ensures FromValue(Code(m)) == Some(m)
    ensures FromValue(code).Some? <==> exists n: Member :: Code(n) == code
  {
    var i := Index(m);
    assert forall j :: 0 <= j < i ==> Code(Members[j]) != Code(Members[i]) by {
      MembersOrdered();
    }
    FindCodeAt(Members, i);
    if FromValue(code).None? {
      forall n: Member ensures Code(n) != code {
        assert Members[Index(n)] == n;
      }
    }
  }

  /** The scan stops at the first member with the code. */
  lemma {:induction false} FindCodeAt(ms: seq<Member>, i: nat)
    requires i < |ms|
    requires forall j :: 0 <= j < i ==> Code(ms[j]) != Code(ms[i])
    ensures FindCode(ms, Code(ms[i])) == Some(ms[i])
  {
    if i > 0 {
      assert ms[1..][i - 1] == ms[i];
      FindCodeAt(ms[1..], i - 1);
    }
  }

  /** A raised exception: its class, its arguments and its cause. */
  datatype Raised = Raised(cls: ExceptionClass, code: int, message: string, cause: Option<Raised>)

  /** `throw`: the member's class, raised with the code and the given
      message or, without one, the default message, chained from the given
      exception. */
  function Throw(m: Member, message: Option<string>, fromException: Option<Raised>): (r: Raised)
    ensures r.cls == Exception(m) && r.code == Code(m) && r.cause == fromException
    ensures message.None? ==> r.message == DefaultMessage(m)
    ensures message.Some? ==> r.message == message.value
  {
    Raised(Exception(m), Code(m), if message.None? then DefaultMessage(m) else message.value, fromException)
  }

  /** The raised exception identifies its member: the code alone finds it. */
  lemma ThrowIdentifiesMember(m: Member, message: Option<string>, fromException: Option<Raised>)
    ensures FromValue(Throw(m, message, fromException).code) == Some(m)
    ensures Throw(m, None, None) == Raised(Exception(m), Code(m), DefaultMessage(m), None)
  {
    FromValueRoundTrip(m, Code(m));
  }
}
