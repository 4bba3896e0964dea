/** The form validator: one rule per field, each looking at that field only. */
module Validator {
  import opened Outcomes
  import opened Form
  import opened Patterns

  /** The message a field gets when it is left empty. */
  function RequiredMessage(f: Field): string
  {
    match f
    case Name => "Name is required"
    case Username => "Username is required"
    case Email => "Email is required"
    case Phone => "Phone is required"
    case Balance => "Balance is required"
  }

  const INVALID_EMAIL := "Email address is invalid"
  const INVALID_PHONE := "Phone number is invalid (must be 10 digits)"
  const INVALID_BALANCE := "Balance must be a positive number"

  /** The rule for one field, given that field's value alone. A string is
      falsy in JavaScript only when it is empty, so only `""` is "missing";
      the format of a non-empty value is checked only for the email, phone
      and balance. `isPositive` stands for `!(isNaN(v) || +v <= 0)`. */
  function Rule(f: Field, v: string, isPositive: string -> bool): Option<string>
  {
    if v == "" then Some(RequiredMessage(f))
    else match f
      case Name => None
      case Username => None
      case Email => if IsEmailShaped(v) then None else Some(INVALID_EMAIL)
      case Phone => if IsTenDigits(v) then None else Some(INVALID_PHONE)
      case Balance => if isPositive(v) then None else Some(INVALID_BALANCE)
  }

  /** The error map of a draft: every field whose rule fails, with its message. */
  function Errors(d: Draft, isPositive: string -> bool): map<Field, string>
  {
    ErrorsOn(d, isPositive, ALL_FIELDS)
  }

  /** The part of the error map that concerns the fields in `fs`. */
  function ErrorsOn(d: Draft, isPositive: string -> bool, fs: set<Field>): map<Field, string>
  {
    map f | f in fs && Rule(f, d.Get(f), isPositive).Some? :: Rule(f, d.Get(f), isPositive).value
  }

  /** The order in which `validate` looks at the fields. */
  const CHECK_ORDER: seq<Field> := [Name, Username, Email, Phone, Balance]

  /** `e` with the verdict `r` on field `f` written in: `newError.f = m`. */
  function Note(e: map<Field, string>, f: Field, r: Option<string>): map<Field, string>
  {
    match r
    case Some(m) => e[f := m]
    case None => e
  }

  /** The map `validate` has built once it has checked the first `k` fields. */
  function CheckedFirst(d: Draft, isPositive: string -> bool, k: nat): map<Field, string>
    requires k <= |CHECK_ORDER|
  {
    if k == 0 then map[]
    else
      var f := CHECK_ORDER[k - 1];
      Note(CheckedFirst(d, isPositive, k - 1), f, Rule(f, d.Get(f), isPositive))
  }

  /** Writing in the five verdicts one after another, in `validate`'s
      order, yields the error map of the draft. */
  lemma KeyByKey(d: Draft, isPositive: string -> bool, e1: map<Field, string>, e2: map<Field, string>,
                 e3: map<Field, string>, e4: map<Field, string>, e5: map<Field, string>)
    requires e1 == Note(map[], Name, Rule(Name, d.name, isPositive))
    requires e2 == Note(e1, Username, Rule(Username, d.username, isPositive))
    requires e3 == Note(e2, Email, Rule(Email, d.email, isPositive))
    requires e4 == Note(e3, Phone, Rule(Phone, d.phone, isPositive))
    requires e5 == Note(e4, Balance, Rule(Balance, d.balance, isPositive))
    ensures e5 == Errors(d, isPositive)
  {
    assert e1 == CheckedFirst(d, isPositive, 1);
    assert e2 == CheckedFirst(d, isPositive, 2);
    assert e3 == CheckedFirst(d, isPositive, 3);
    assert e4 == CheckedFirst(d, isPositive, 4);
    assert e5 == CheckedFirst(d, isPositive, 5);
    CheckedAllIsErrors(d, isPositive);
  }

  /** The fields among the first `k` checked. */
  function FirstFields(k: nat): set<Field>
    requires k <= |CHECK_ORDER|
  {
    set i | 0 <= i < k :: CHECK_ORDER[i]
  }

  /** Checking one more field writes that field's verdict and touches
      nothing else. */
  lemma ErrorsOnExtend(d: Draft, isPositive: string -> bool, fs: set<Field>, f: Field)
    ensures ErrorsOn(d, isPositive, fs + {f}) == Note(ErrorsOn(d, isPositive, fs), f, Rule(f, d.Get(f), isPositive))
  {
  }

  /** Checking the fields one after another builds the error map of those fields. */
  lemma {:induction false} CheckedFirstIsErrorsOn(d: Draft, isPositive: string -> bool, k: nat)
    requires k <= |CHECK_ORDER|
    ensures CheckedFirst(d, isPositive, k) == ErrorsOn(d, isPositive, FirstFields(k))
  {
    if k == 0 {
      assert FirstFields(0) == {};
    } else {
      CheckedFirstIsErrorsOn(d, isPositive, k - 1);
      assert FirstFields(k) == FirstFields(k - 1) + {CHECK_ORDER[k - 1]};
      ErrorsOnExtend(d, isPositive, FirstFields(k - 1), CHECK_ORDER[k - 1]);
    }
  }

  /** After all five checks the map is the error map of the draft. */
  lemma CheckedAllIsErrors(d: Draft, isPositive: string -> bool)
    ensures CheckedFirst(d, isPositive, |CHECK_ORDER|) == Errors(d, isPositive)
  {
    CheckedFirstIsErrorsOn(d, isPositive, |CHECK_ORDER|);
    assert CHECK_ORDER[0] == Name && CHECK_ORDER[1] == Username && CHECK_ORDER[2] == Email;
    assert CHECK_ORDER[3] == Phone && CHECK_ORDER[4] == Balance;
    assert FirstFields(|CHECK_ORDER|) == ALL_FIELDS;
  }

  /** The body of `validate`: start from an empty map and write in each
      failing field's message, one field after another. */
  method BuildErrors(d: Draft, isPositive: string -> bool) returns (newError: map<Field, string>)
    ensures newError == Errors(d, isPositive)
  {
    newError := map[];
    if d.name == "" {
      newError := newError[Name := RequiredMessage(Name)];
    }
    ghost var e1 := newError;
    if d.username == "" {
      newError := newError[Username := RequiredMessage(Username)];
    }
    ghost var e2 := newError;
    if d.email == "" {
      newError := newError[Email := RequiredMessage(Email)];
    } else if !IsEmailShaped(d.email) {
      newError := newError[Email := INVALID_EMAIL];
    }
    ghost var e3 := newError;
    if d.phone == "" {
      newError := newError[Phone := RequiredMessage(Phone)];
    } else if !IsTenDigits(d.phone) {
      newError := newError[Phone := INVALID_PHONE];
    }
    ghost var e4 := newError;
    if d.balance == "" {
      newError := newError[Balance := RequiredMessage(Balance)];
    } else if !isPositive(d.balance) {
      newError := newError[Balance := INVALID_BALANCE];
    }
    KeyByKey(d, isPositive, e1, e2, e3, e4, newError);
  }

  /** The rules a draft must pass for the form to be submitted. */
  predicate Acceptable(d: Draft, isPositive: string -> bool)
  {
    d.name != "" && d.username != ""
    && d.email != "" && IsEmailShaped(d.email)
    && d.phone != "" && IsTenDigits(d.phone)
    && d.balance != "" && isPositive(d.balance)
  }

  /** Each field's entry is its own rule's verdict on its own value. */
  lemma ErrorOfField(d: Draft, isPositive: string -> bool, f: Field)
    ensures f in Errors(d, isPositive) <==> Rule(f, d.Get(f), isPositive).Some?
    ensures f in Errors(d, isPositive) ==> Errors(d, isPositive)[f] == Rule(f, d.Get(f), isPositive).value
  {
    EveryFieldListed(f);
  }

  /** The map holds at most one message per field and no key beyond the five. */
  lemma ErrorsBounded(d: Draft, isPositive: string -> bool)
    ensures Errors(d, isPositive).Keys <= ALL_FIELDS
    ensures |Errors(d, isPositive)| <= 5
  {
    FiveFields();
    SubsetCardinality(Errors(d, isPositive).Keys, ALL_FIELDS);
  }

  lemma SubsetCardinality<T>(a: set<T>, b: set<T>)
    requires a <= b
    ensures |a| <= |b|
  {
    assert b == a + (b - a);
  }

  /** A field's entry depends on that field's value only. */
  lemma FieldsIndependent(d1: Draft, d2: Draft, isPositive: string -> bool, f: Field)
    requires d1.Get(f) == d2.Get(f)
    ensures f in Errors(d1, isPositive) <==> f in Errors(d2, isPositive)
    ensures f in Errors(d1, isPositive) ==> Errors(d1, isPositive)[f] == Errors(d2, isPositive)[f]
  {
    ErrorOfField(d1, isPositive, f);
    ErrorOfField(d2, isPositive, f);
  }

  /** The map is empty exactly when every rule passes. */
  lemma EmptyIffAcceptable(d: Draft, isPositive: string -> bool)
    ensures Errors(d, isPositive) == map[] <==> Acceptable(d, isPositive)
  {
    var e := Errors(d, isPositive);
    ErrorOfField(d, isPositive, Name);
    ErrorOfField(d, isPositive, Username);
    ErrorOfField(d, isPositive, Email);
    ErrorOfField(d, isPositive, Phone);
    ErrorOfField(d, isPositive, Balance);
    if Acceptable(d, isPositive) {
      forall f | f in e
        ensures false
      {
        ErrorOfField(d, isPositive, f);
      }
      assert e.Keys == {};
    }
  }

  /** A field gets its "required" message exactly when it is `""`; a
      non-empty value is never told it is missing. */
  lemma RequiredIffEmpty(d: Draft, isPositive: string -> bool, f: Field)
    ensures (f in Errors(d, isPositive) && Errors(d, isPositive)[f] == RequiredMessage(f)) <==> d.Get(f) == ""
  {
    ErrorOfField(d, isPositive, f);
  }

  /** Name and username are only checked for presence: any non-empty value,
      whitespace included, passes. */
  lemma PresenceOnly(d: Draft, isPositive: string -> bool)
    ensures Name in Errors(d, isPositive) <==> d.name == ""
    ensures Username in Errors(d, isPositive) <==> d.username == ""
  {
    ErrorOfField(d, isPositive, Name);
    ErrorOfField(d, isPositive, Username);
  }

  /** A non-empty email is rejected exactly when no substring matches `\S+@\S+\.\S+`. */
  lemma EmailRule(d: Draft, isPositive: string -> bool)
    requires d.email != ""
    ensures Email in Errors(d, isPositive) <==> !EmailPatternMatches(d.email)
    ensures Email in Errors(d, isPositive) ==> Errors(d, isPositive)[Email] == INVALID_EMAIL
  {
    ErrorOfField(d, isPositive, Email);
    EmailShapeIsPattern(d.email);
  }

  /** A non-empty phone is accepted exactly when it is ten ASCII digits. */
  lemma PhoneRule(d: Draft, isPositive: string -> bool)
    requires d.phone != ""
    ensures Phone !in Errors(d, isPositive) <==> |d.phone| == 10 && forall i :: 0 <= i < 10 ==> '0' <= d.phone[i] <= '9'
    ensures Phone in Errors(d, isPositive) ==> Errors(d, isPositive)[Phone] == INVALID_PHONE
  {
    ErrorOfField(d, isPositive, Phone);
  }

  /** A non-empty balance is rejected exactly when it is not a positive number. */
  lemma BalanceRule(d: Draft, isPositive: string -> bool)
    requires d.balance != ""
    ensures Balance in Errors(d, isPositive) <==> !isPositive(d.balance)
    ensures Balance in Errors(d, isPositive) ==> Errors(d, isPositive)[Balance] == INVALID_BALANCE
  {
    ErrorOfField(d, isPositive, Balance);
  }

  /** The empty form gets all five "required" messages and nothing else. */
  lemma EmptyDraftErrors(isPositive: string -> bool)
    ensures Errors(EMPTY_DRAFT, isPositive) == map f | f in ALL_FIELDS :: RequiredMessage(f)
    ensures |Errors(EMPTY_DRAFT, isPositive)| == 5
  {
    var e := Errors(EMPTY_DRAFT, isPositive);
    forall f | f in ALL_FIELDS
      ensures f in e && e[f] == RequiredMessage(f)
    {
      EmptyDraftIsEmpty(f);
      ErrorOfField(EMPTY_DRAFT, isPositive, f);
    }
    assert e.Keys == ALL_FIELDS;
    FiveFields();
  }

  /** A complete, well-formed draft passes, whatever the balance's numeric
      value, as long as it reads as a positive number. */
  lemma SampleDraftPasses(isPositive: string -> bool)
    requires isPositive("10")
    ensures Errors(Draft("A", "b", "a@b.com", "1234567890", "10"), isPositive) == map[]
  {
    EmailExamples();
    PhoneExamples();
    EmptyIffAcceptable(Draft("A", "b", "a@b.com", "1234567890", "10"), isPositive);
  }

  /** "foo" is not an email and "123" not a phone number. */
  lemma SampleDraftFails(isPositive: string -> bool)
    ensures var e := Errors(Draft("A", "b", "foo", "123", "10"), isPositive);
      Email in e && e[Email] == INVALID_EMAIL && Phone in e && e[Phone] == INVALID_PHONE
  {
    var d := Draft("A", "b", "foo", "123", "10");
    EmailExamples();
    PhoneExamples();
    ErrorOfField(d, isPositive, Email);
    ErrorOfField(d, isPositive, Phone);
  }
}
