/**
 * actions/quiz-actions.ts, `getQuizById`: the check of the optional `takeValue` and `skipValue`
 * strings and the three outcomes of the lookup. The database query is a parameter `find`, given
 * the quiz id and the `take` and `skip` numbers it is asked with.
 */
module QuizActions {
  import opened Wrappers
  import opened JsText

  /** What the query gives back: a quiz, nothing (`null`), or a thrown error. */
  datatype Lookup<Q> = Found(quiz: Q) | NotFound | LookupFailed

  /** The value returned: `{ quiz }` or `{ error }`. */
  datatype QuizResponse<Q> = QuizOk(quiz: Q) | QuizError(error: string)

  const InvalidArgsMessage := "Invalid takeValue or skipValue"
  const NotFoundMessage := "Quiz not found"
  const FetchFailedMessage := "Failed to fetch quiz"

  /** A JavaScript-truthy string argument: present and not empty. */
  predicate Given(v: Option<string>) {
    v.Some? && v.value != ""
  }

  /** `v && isNaN(parseInt(v))`. */
  predicate Invalid(v: Option<string>) {
    Given(v) && ParseInt(v.value).None?
  }

  /** `v ? parseInt(v) : undefined`, for an argument that passed the check. */
  function Window(v: Option<string>): (n: Option<int>)
    requires !Invalid(v)
    ensures n.None? <==> !Given(v)
    ensures Given(v) ==> n == ParseInt(v.value)
  {
    if Given(v) then ParseInt(v.value) else None
  }

  /** `getQuizById(id, { takeValue, skipValue })`. */
  function GetQuizById<Q>(id: string, take: Option<string>, skip: Option<string>,
                          find: (string, Option<int>, Option<int>) -> Lookup<Q>): (r: QuizResponse<Q>)
    ensures Invalid(take) || Invalid(skip) ==> r == QuizError(InvalidArgsMessage)
    ensures !Invalid(take) && !Invalid(skip) ==>
      match find(id, Window(take), Window(skip))
      case Found(q) => r == QuizOk(q)
      case NotFound => r == QuizError(NotFoundMessage)
      case LookupFailed => r == QuizError(FetchFailedMessage)
  {
    if Invalid(take) || Invalid(skip) then QuizError(InvalidArgsMessage)
    else
      match find(id, Window(take), Window(skip))
      case Found(q) => QuizOk(q)
      case NotFound => QuizError(NotFoundMessage)
      case LookupFailed => QuizError(FetchFailedMessage)
  }

  /** A rejected argument is rejected before the database is asked: the answer is the same whatever `find` does. */
  lemma RejectedBeforeLookup<Q>(id: string, take: Option<string>, skip: Option<string>,
                                find1: (string, Option<int>, Option<int>) -> Lookup<Q>,
                                find2: (string, Option<int>, Option<int>) -> Lookup<Q>)
    requires Invalid(take) || Invalid(skip)
    ensures GetQuizById(id, take, skip, find1) == GetQuizById(id, take, skip, find2) == QuizError(InvalidArgsMessage)
  {
  }

  /** An absent or empty argument is never rejected and means no limit or offset. */
  lemma EmptyMeansUnlimited(v: Option<string>)
    requires v.None? || v == Some("")
    ensures !Invalid(v) && Window(v).None?
  {
  }

  /** A numeric prefix is accepted and read on its own: `"5abc"` takes 5 questions. */
  lemma NumericPrefixAccepted(n: nat, rest: string)
    requires rest == [] || DigitValue(rest[0], 10).None?
    requires !(n == 0 && rest != [] && (rest[0] == 'x' || rest[0] == 'X'))
    ensures !Invalid(Some(NatToString(n) + rest))
    ensures Window(Some(NatToString(n) + rest)) == Some(n)
  {
    var ds := NatToString(n);
    if |ds| == 1 && ds[0] == '0' {
      assert n == 0;
    }
    ParseIntOfDigitsThen(ds, rest);
    DigitsOfNatToString(n);
  }

  /** A negative number passes the check too and is handed on as it is. */
  lemma NegativeAccepted(n: int)
    requires n > 0
    ensures !Invalid(Some(IntToString(-n)))
    ensures Window(Some(IntToString(-n))) == Some(-n)
  {
    NegativeRoundTrip(n);
  }

  /** A string with no leading integer, such as one starting with a letter, is rejected. */
  lemma NoDigitsRejected(s: string)
    requires s != [] && 'a' <= s[0] <= 'z'
    ensures Invalid(Some(s))
  {
    TrimStartOfNonWhitespace(s);
    assert ParseSigned(s) == ParseUnsigned(s) by {
      UnsignedOfUnsigned(s);
    }
    DecimalOfUnprefixed(s);
    assert LeadingDigits(s, 10) == [];
  }
}
