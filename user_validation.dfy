/**
 * The registration validator: seven guards run in a fixed order, and the
 * first one that fails decides the 400 response; a body that passes them
 * all is accepted (the source returns `null`, here `None`).
 */
module Validation {
  import opened Wrappers
  import opened Interfaces
  import opened Constants
  import opened Errors
  import opened Seqs

  /** The fields of the request body the validator reads; each may be absent. */
  datatype RegistrationBody = RegistrationBody(
    address: Option<string>,
    name: Option<string>,
    email: Option<string>,
    city: Option<string>,
    dateOfBirth: Option<string>,
    lgaId: Option<string>,
    password: Option<string>)

  /** The three string tests taken from the `validator` library, left uninterpreted. */
  datatype Validators = Validators(
    isEmail: string -> bool,
    isDate: string -> bool,
    isNumeric: string -> bool)

  /** JavaScript truthiness of a string field: present and not empty. */
  predicate Truthy(field: Option<string>) {
    field.Some? && field.value != []
  }

  /** The shortest password the validator lets through. */
  const MinPasswordLength: nat := 6

  /** `validateRegistration(body)`: the error of the first failing guard, or `None`. */
  function ValidateRegistration(body: RegistrationBody, v: Validators): (r: Option<ApiResponse>)
    ensures r.Some? ==> r.value.statusCode == 400
  {
    if !Truthy(body.address) then Some(ErrorResponse(AddressRequired))
    else if !Truthy(body.name) then Some(ErrorResponse(InvalidName))
    else if !Truthy(body.email) || !v.isEmail(body.email.value) then Some(ErrorResponse(InvalidEmailAddress))
    else if !Truthy(body.city) then Some(ErrorResponse(CityRequired))
    else if !Truthy(body.dateOfBirth) || !v.isDate(body.dateOfBirth.value) then Some(ErrorResponse(InvalidDob))
    else if !Truthy(body.lgaId) || !v.isNumeric(body.lgaId.value) then Some(ErrorResponse(LgaRequired))
    else if !Truthy(body.password) || |body.password.value| < MinPasswordLength then Some(ErrorResponse(InvalidPassword))
    else None
  }

  /** One guard: the condition a body must meet, and the message given when it does not. */
  datatype Guard = Guard(holds: RegistrationBody -> bool, message: string)

  /** The guards as a table, in the order the validator runs them. */
  function Guards(v: Validators): (gs: seq<Guard>)
    ensures |gs| == 7
  {
    [ Guard((b: RegistrationBody) => Truthy(b.address), AddressRequired),
      Guard((b: RegistrationBody) => Truthy(b.name), InvalidName),
      Guard((b: RegistrationBody) => Truthy(b.email) && v.isEmail(b.email.value), InvalidEmailAddress),
      Guard((b: RegistrationBody) => Truthy(b.city), CityRequired),
      Guard((b: RegistrationBody) => Truthy(b.dateOfBirth) && v.isDate(b.dateOfBirth.value), InvalidDob),
      Guard((b: RegistrationBody) => Truthy(b.lgaId) && v.isNumeric(b.lgaId.value), LgaRequired),
      Guard((b: RegistrationBody) => Truthy(b.password) && |b.password.value| >= MinPasswordLength, InvalidPassword) ]
  }

  /** The guard `body` fails. */
  function Fails(body: RegistrationBody): Guard -> bool {
    (g: Guard) => !g.holds(body)
  }

  /** The reference reading: the message of the first guard in the table that fails, with status 400. */
  function FirstFailure(body: RegistrationBody, v: Validators): Option<ApiResponse> {
    match FirstIndexFrom(Guards(v), Fails(body), 0)
    case None => None
    case Some(k) => Some(ErrorResponse(Guards(v)[k].message))
  }

  /** The validator reports exactly the first failing guard of the table, and accepts when none fails. */
  lemma ValidationIsFirstFailure(body: RegistrationBody, v: Validators)
    ensures ValidateRegistration(body, v) == FirstFailure(body, v)
  {
    var gs := Guards(v);
    var k := FirstIndexFrom(gs, Fails(body), 0);
    // the guards before the first failing one (all seven when none fails) hold
    var n := if k.Some? then k.value else 7;
    forall j | 0 <= j < n
      ensures gs[j].holds(body)
    {
      assert !Fails(body)(gs[j]);
    }
    if n < 7 {
      assert Fails(body)(gs[n]);
    }
    if n == 0 {
    } else if n == 1 {
      assert gs[0].holds(body);
    } else if n == 2 {
      assert gs[0].holds(body) && gs[1].holds(body);
    } else if n == 3 {
      assert gs[0].holds(body) && gs[1].holds(body) && gs[2].holds(body);
    } else if n == 4 {
      assert gs[0].holds(body) && gs[1].holds(body) && gs[2].holds(body) && gs[3].holds(body);
    } else if n == 5 {
      assert gs[0].holds(body) && gs[1].holds(body) && gs[2].holds(body) && gs[3].holds(body) && gs[4].holds(body);
    } else if n == 6 {
      assert gs[0].holds(body) && gs[1].holds(body) && gs[2].holds(body) && gs[3].holds(body) && gs[4].holds(body) && gs[5].holds(body);
    } else {
      assert gs[0].holds(body) && gs[1].holds(body) && gs[2].holds(body) && gs[3].holds(body) && gs[4].holds(body) && gs[5].holds(body);
      assert gs[6].holds(body);
    }
  }

  /** A body is accepted exactly when it meets every guard. */
  lemma AcceptedIffEveryGuardHolds(body: RegistrationBody, v: Validators)
    ensures ValidateRegistration(body, v).None? <==> forall i :: 0 <= i < 7 ==> Guards(v)[i].holds(body)
  {
    ValidationIsFirstFailure(body, v);
    var gs := Guards(v);
    if FirstIndexFrom(gs, Fails(body), 0).None? {
      assert forall i :: 0 <= i < 7 ==> !Fails(body)(gs[i]);
    }
  }

  /**
   * Once the first six guards pass, the password alone decides: a present
   * password of at least six characters is accepted (six itself included),
   * anything else is refused with the password message.
   */
  lemma PasswordDecidesLast(body: RegistrationBody, v: Validators)
    requires forall i :: 0 <= i < 6 ==> Guards(v)[i].holds(body)
    ensures ValidateRegistration(body, v).None? <==> body.password.Some? && |body.password.value| >= 6
    ensures ValidateRegistration(body, v).Some? ==> ValidateRegistration(body, v).value == ErrorResponse(InvalidPassword)
  {
    var gs := Guards(v);
    assert gs[0].holds(body) && gs[1].holds(body) && gs[2].holds(body);
    assert gs[3].holds(body) && gs[4].holds(body) && gs[5].holds(body);
  }

  /** A missing or empty address is reported first, whatever the other fields hold. */
  lemma AddressCheckedFirst(body: RegistrationBody, v: Validators)
    requires !Truthy(body.address)
    ensures ValidateRegistration(body, v) == Some(ApiResponse(AddressRequired, 400))
  {
  }
}
