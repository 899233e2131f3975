/**
 * The booking-form validator of process_booking.php: ten independent rules,
 * each appending at most one message to the error list in a fixed order.
 */
module Validation {
  import opened Wrappers
  import opened Php
  import opened Reference

  /** The POSTed booking form after `filter_input`; a missing field is None. */
  datatype BookingForm = BookingForm(
    fullName: Option<string>,
    email: Option<string>,
    phone: Option<string>,
    participants: Option<int>,
    destination: Option<string>,
    tourPackage: Option<string>,
    departureDate: Option<string>,
    returnDate: Option<string>,
    specialRequirements: Option<string>)

  /**
   * A submission as the validator sees it: the form, the day numbers its two
   * dates parse to, today's midnight, and the FILTER_VALIDATE_EMAIL grammar.
   */
  datatype Submission = Submission(
    form: BookingForm,
    departureDay: int,
    returnDay: int,
    today: int,
    isEmail: string -> bool)

  datatype Rule =
    | FullNameRule | EmailRule | PhoneRule | ParticipantsRule | DestinationRule
    | PackageRule | DepartureRule | ReturnRule | FutureDateRule | DateOrderRule

  const FullNameMissing: string := "Full name is required"
  const EmailInvalid: string := "Valid email is required"
  const PhoneMissing: string := "Phone number is required"
  const ParticipantsOutOfRange: string := "Number of participants must be between 1 and 20"
  const DestinationMissing: string := "Destination is required"
  const PackageMissing: string := "Tour package is required"
  const DepartureMissing: string := "Departure date is required"
  const ReturnMissing: string := "Return date is required"
  const DepartureInPast: string := "Departure date must be in the future"
  const ReturnNotAfterDeparture: string := "Return date must be after departure date"

  function Message(r: Rule): string {
    match r
    case FullNameRule => FullNameMissing
    case EmailRule => EmailInvalid
    case PhoneRule => PhoneMissing
    case ParticipantsRule => ParticipantsOutOfRange
    case DestinationRule => DestinationMissing
    case PackageRule => PackageMissing
    case DepartureRule => DepartureMissing
    case ReturnRule => ReturnMissing
    case FutureDateRule => DepartureInPast
    case DateOrderRule => ReturnNotAfterDeparture
  }

  /** `empty($participants) || $participants < 1 || $participants > 20` */
  predicate BadParticipants(p: Option<int>) {
    EmptyInt(p) || p.value < 1 || p.value > 20
  }

  /** Whether rule `r` rejects the submission. */
  predicate Violated(r: Rule, s: Submission) {
    match r
    case FullNameRule => Empty(s.form.fullName)
    case EmailRule => Empty(s.form.email) || !s.isEmail(s.form.email.value)
    case PhoneRule => Empty(s.form.phone)
    case ParticipantsRule => BadParticipants(s.form.participants)
    case DestinationRule => Empty(s.form.destination)
    case PackageRule => Empty(s.form.tourPackage)
    case DepartureRule => Empty(s.form.departureDate)
    case ReturnRule => Empty(s.form.returnDate)
    case FutureDateRule => s.departureDay < s.today
    case DateOrderRule => s.returnDay <= s.departureDay
  }

  /** What one rule contributes to the error list. */
  function Outcome(r: Rule, s: Submission): seq<string> {
    if Violated(r, s) then [Message(r)] else []
  }

  /** How many rules the handler checks. */
  const RuleCount: nat := 10

  /** The rule the handler checks in position `i`, counting from 0. */
  function RuleAt(i: nat): (r: Rule)
    requires i < RuleCount
  {
    match i
    case 0 => FullNameRule
    case 1 => EmailRule
    case 2 => PhoneRule
    case 3 => ParticipantsRule
    case 4 => DestinationRule
    case 5 => PackageRule
    case 6 => DepartureRule
    case 7 => ReturnRule
    case 8 => FutureDateRule
    case _ => DateOrderRule
  }

  /** Where a rule stands in the order of the checks. */
  function Position(r: Rule): (i: nat)
    ensures i < RuleCount && RuleAt(i) == r
  {
    match r
    case FullNameRule => 0
    case EmailRule => 1
    case PhoneRule => 2
    case ParticipantsRule => 3
    case DestinationRule => 4
    case PackageRule => 5
    case DepartureRule => 6
    case ReturnRule => 7
    case FutureDateRule => 8
    case DateOrderRule => 9
  }

  /** The error list after the first `k` checks: the earlier list with the k-th rule's outcome appended. */
  function ErrorsAfter(k: nat, s: Submission): seq<string>
    requires k <= RuleCount
  {
    if k == 0 then []
    else if Violated(RuleAt(k - 1), s) then ErrorsAfter(k - 1, s) + [Message(RuleAt(k - 1))]
    else ErrorsAfter(k - 1, s)
  }

  /** The error list the handler builds once all ten checks have run. */
  function Errors(s: Submission): seq<string> {
    ErrorsAfter(RuleCount, s)
  }

  /** A field that was sent with a value other than "" and "0". */
  predicate Filled(f: Option<string>) {
    f.Some? && f.value != "" && f.value != "0"
  }

  /** A submission every rule accepts, stated field by field. */
  predicate Acceptable(s: Submission) {
    && Filled(s.form.fullName)
    && Filled(s.form.email) && s.isEmail(s.form.email.value)
    && Filled(s.form.phone)
    && s.form.participants.Some? && 1 <= s.form.participants.value <= 20
    && Filled(s.form.destination)
    && Filled(s.form.tourPackage)
    && Filled(s.form.departureDate)
    && Filled(s.form.returnDate)
    && s.today <= s.departureDay < s.returnDay
  }

  /** The required-field checks of the POST handler: the first eight rules. */
  method RequiredFieldErrors(s: Submission) returns (errors: seq<string>)
    ensures errors == ErrorsAfter(8, s)
  {
    var form := s.form;
    errors := [];
    if Empty(form.fullName) {
      errors := errors + [FullNameMissing];
    }
    assert errors == ErrorsAfter(1, s);
    if Empty(form.email) || !s.isEmail(form.email.value) {
      errors := errors + [EmailInvalid];
    }
    assert errors == ErrorsAfter(2, s);
    if Empty(form.phone) {
      errors := errors + [PhoneMissing];
    }
    assert errors == ErrorsAfter(3, s);
    if EmptyInt(form.participants) || form.participants.value < 1 || form.participants.value > 20 {
      errors := errors + [ParticipantsOutOfRange];
    }
    assert errors == ErrorsAfter(4, s);
    if Empty(form.destination) {
      errors := errors + [DestinationMissing];
    }
    assert errors == ErrorsAfter(5, s);
    if Empty(form.tourPackage) {
      errors := errors + [PackageMissing];
    }
    assert errors == ErrorsAfter(6, s);
    if Empty(form.departureDate) {
      errors := errors + [DepartureMissing];
    }
    assert errors == ErrorsAfter(7, s);
    if Empty(form.returnDate) {
      errors := errors + [ReturnMissing];
    }
  }

  /** The whole validation block: the required fields, then the two date checks. */
  method Validate(s: Submission) returns (errors: seq<string>)
    ensures errors == Errors(s)
  {
    errors := RequiredFieldErrors(s);
    if s.departureDay < s.today {
      errors := errors + [DepartureInPast];
    }
    assert errors == ErrorsAfter(9, s);
    if s.returnDay <= s.departureDay {
      errors := errors + [ReturnNotAfterDeparture];
    }
  }

  lemma {:induction false} ErrorsAfterLength(k: nat, s: Submission)
    requires k <= RuleCount
    ensures |ErrorsAfter(k, s)| <= k
  {
    if k > 0 {
      ErrorsAfterLength(k - 1, s);
    }
  }

  /** The checks at two positions report the same message only when they are the same check. */
  lemma MessageAtInjective(i: nat, j: nat)
    requires i < RuleCount && j < RuleCount
    ensures Message(RuleAt(i)) == Message(RuleAt(j)) ==> i == j
  {
  }

  /** After k checks, the message of the check at position i occurs once if i < k and that check failed, else never. */
  lemma {:induction false} ErrorsAfterCount(k: nat, s: Submission, i: nat)
    requires k <= RuleCount && i < RuleCount
    ensures multiset(ErrorsAfter(k, s))[Message(RuleAt(i))] == if i < k && Violated(RuleAt(i), s) then 1 else 0
  {
    if k > 0 {
      ErrorsAfterCount(k - 1, s, i);
      MessageAtInjective(k - 1, i);
    }
  }

  /** A message occurs after k checks only as the message of a violated rule among the first k. */
  lemma {:induction false} ErrorsAfterMember(k: nat, s: Submission, m: string)
    requires k <= RuleCount
    ensures m in ErrorsAfter(k, s) ==> exists r :: Violated(r, s) && Message(r) == m
  {
    if k > 0 {
      ErrorsAfterMember(k - 1, s, m);
      if m in Outcome(RuleAt(k - 1), s) {
        assert Violated(RuleAt(k - 1), s) && Message(RuleAt(k - 1)) == m;
      }
    }
  }

  /** At most one message per rule: never more than ten errors. */
  lemma ErrorsAtMostTen(s: Submission)
    ensures |Errors(s)| <= 10
  {
    ErrorsAfterLength(RuleCount, s);
  }

  /** Each rule adds its own message exactly once when violated and never otherwise. */
  lemma ErrorsCount(s: Submission, r: Rule)
    ensures multiset(Errors(s))[Message(r)] == if Violated(r, s) then 1 else 0
  {
    ErrorsAfterCount(RuleCount, s, Position(r));
  }

  /** Every error is the message of a violated rule, and every violated rule's message is an error. */
  lemma ErrorsExplained(s: Submission, m: string)
    ensures m in Errors(s) <==> exists r :: Violated(r, s) && Message(r) == m
  {
    ErrorsAfterMember(RuleCount, s, m);
    if exists r :: Violated(r, s) && Message(r) == m {
      var r :| Violated(r, s) && Message(r) == m;
      ErrorsCount(s, r);
      assert m in multiset(Errors(s));
    }
  }

  /** Acceptable is exactly "no rule is violated". */
  lemma AcceptableIffNoViolation(s: Submission)
    ensures Acceptable(s) <==> forall r :: !Violated(r, s)
  {
    if forall r :: !Violated(r, s) {
      assert !Violated(FullNameRule, s) && !Violated(EmailRule, s) && !Violated(PhoneRule, s);
      assert !Violated(ParticipantsRule, s) && !Violated(DestinationRule, s);
      assert !Violated(PackageRule, s) && !Violated(DepartureRule, s) && !Violated(ReturnRule, s);
      assert !Violated(FutureDateRule, s) && !Violated(DateOrderRule, s);
    }
  }

  /** The booking goes ahead exactly when the field-by-field conditions all hold. */
  lemma ErrorsEmptyIffAcceptable(s: Submission)
    ensures Errors(s) == [] <==> Acceptable(s)
  {
    AcceptableIffNoViolation(s);
    if Errors(s) == [] {
      forall r: Rule ensures !Violated(r, s) {
        ErrorsCount(s, r);
      }
    } else {
      ErrorsExplained(s, Errors(s)[0]);
    }
  }

  /** The participants rule adds its message exactly when the count is missing, 0, or outside 1..20. */
  lemma ParticipantsMessage(s: Submission)
    ensures var p := s.form.participants;
      multiset(Errors(s))["Number of participants must be between 1 and 20"]
        == if p.None? || p.value < 1 || p.value > 20 then 1 else 0
  {
    assert Message(ParticipantsRule) == "Number of participants must be between 1 and 20";
    ErrorsCount(s, ParticipantsRule);
  }

  /** A departure before today's midnight, or a return not after departure, is always reported. */
  lemma DateRules(s: Submission)
    ensures s.departureDay < s.today <==> DepartureInPast in Errors(s)
    ensures s.returnDay <= s.departureDay <==> ReturnNotAfterDeparture in Errors(s)
  {
    ErrorsCount(s, FutureDateRule);
    ErrorsCount(s, DateOrderRule);
  }

  /** After validation passes, the stored duration is the day difference and is at least one. */
  lemma AcceptedDuration(s: Submission)
    requires Errors(s) == []
    ensures Duration(s.departureDay, s.returnDay) == s.returnDay - s.departureDay >= 1
  {
  }
}
