/** The FluentValidation rules of the school requests
    (Application/Features/Schools/Validations). Every rule runs with the
    default cascade mode, so each failing check of a rule adds its own
    failure, in rule order. */
module SchoolValidation {
  import opened Common
  import opened Errors
  import opened Schools
  import opened SchoolHandlers

  /** CreateSchoolRequest */
  datatype CreateSchoolRequest = CreateSchoolRequest(name: Option<string>, address: Option<string>, establishedDate: int)

  /** NotEmpty() on a string: null, empty and all-white-space values fail. */
  predicate NotEmptyText(s: Option<string>) {
    !IsNullOrWhiteSpace(s)
  }

  /** NotEmpty() on an int or a DateTime: the default value fails. */
  predicate NotEmptyValue(v: int) {
    v != 0
  }

  /** MaximumLength(n): null passes, otherwise at most n characters. */
  predicate WithinLength(s: Option<string>, n: nat) {
    s.None? || |s.value| <= n
  }

  /** The characters of a length limit as a message writes it. */
  function NatToString(n: nat): (r: string)
    ensures |r| > 0
    ensures forall i :: 0 <= i < |r| ==> '0' <= r[i] <= '9'
  {
    var d := ['0' + (n % 10) as char];
    if n < 10 then d else NatToString(n / 10) + d
  }

  /** The value a string of digits denotes. */
  function DigitsValue(s: string): nat
    requires forall i :: 0 <= i < |s| ==> '0' <= s[i] <= '9'
  {
    if |s| == 0 then 0 else DigitsValue(s[..|s| - 1]) * 10 + (s[|s| - 1] - '0') as nat
  }

  /** Reading the digits back gives the number written. */
  lemma {:induction false} NatToStringRoundTrip(n: nat)
    ensures DigitsValue(NatToString(n)) == n
  {
    var d := ['0' + (n % 10) as char];
    if n >= 10 {
      NatToStringRoundTrip(n / 10);
      var r := NatToString(n / 10) + d;
      assert r[..|r| - 1] == NatToString(n / 10);
    }
  }

  /** "School <field> must not exceed <limit> characters." */
  function LengthMessage(field: string, limit: nat): string {
    "School " + field + " must not exceed " + NatToString(limit) + " characters."
  }

  /** The length limit a LengthMessage states, read back from the text. */
  lemma StatedLimit(field: string, limit: nat, stated: nat)
    requires LengthMessage(field, limit) == LengthMessage(field, stated)
    ensures limit == stated
  {
    var a := "School " + field + " must not exceed ";
    var tail := " characters.";
    assert LengthMessage(field, limit) == a + NatToString(limit) + tail;
    assert LengthMessage(field, stated) == a + NatToString(stated) + tail;
    var m := LengthMessage(field, limit);
    assert NatToString(limit) == m[|a|..|m| - |tail|];
    assert NatToString(stated) == m[|a|..|m| - |tail|];
    NatToStringRoundTrip(limit);
    NatToStringRoundTrip(stated);
  }

  // ---------------------------------------------------------------------
  // CreateSchoolRequestValidator
  // ---------------------------------------------------------------------

  const NameRequired: string := "School name is required."
  const AddressRequired: string := "School address is required."
  /** "School address must not exceed 200 characters." */
  const AddressTooLong: string := LengthMessage("address", AddressMaxLength)
  const FutureDate: string := "Established date cannot be in the future."

  /** The column width of School.Name in the database mapping and the limit
      the validator enforces. */
  const NameMaxLength: nat := 60
  const AddressMaxLength: nat := 200

  /** The name-length message as written, and the limit it announces. */
  /** "School name must not exceed 100 characters." */
  const NameTooLongAsWritten: string := LengthMessage("name", NameStatedLength)
  const NameStatedLength: nat := 100

  /** The name-length message naming the enforced limit. */
  /** "School name must not exceed 60 characters." */
  const NameTooLong: string := LengthMessage("name", NameMaxLength)

  /** A check of a rule: its failure, when the rule does not hold. */
  function Check(holds: bool, f: Failure): (r: seq<Failure>)
    ensures forall g :: g in r <==> !holds && g == f
  {
    if holds then [] else [f]
  }

  /** The Name rule: NotEmpty, then MaximumLength(60) with the given message. */
  function NameFailures(name: Option<string>, nameLengthMessage: string): (r: seq<Failure>)
    requires nameLengthMessage != NameRequired
    ensures forall f :: f in r ==> f.propertyName == "Name"
    ensures Failure("Name", NameRequired) in r <==> !NotEmptyText(name)
    ensures Failure("Name", nameLengthMessage) in r <==> !WithinLength(name, NameMaxLength)
    ensures r == [] <==> NotEmptyText(name) && WithinLength(name, NameMaxLength)
  {
    Check(NotEmptyText(name), Failure("Name", NameRequired))
      + Check(WithinLength(name, NameMaxLength), Failure("Name", nameLengthMessage))
  }

  /** The Address rule: NotEmpty, then MaximumLength(200). */
  function AddressFailures(address: Option<string>): (r: seq<Failure>)
    ensures forall f :: f in r ==> f.propertyName == "Address"
    ensures Failure("Address", AddressRequired) in r <==> !NotEmptyText(address)
    ensures Failure("Address", AddressTooLong) in r <==> !WithinLength(address, AddressMaxLength)
    ensures r == [] <==> NotEmptyText(address) && WithinLength(address, AddressMaxLength)
  {
    assert AddressRequired != AddressTooLong by {
      assert |AddressTooLong| > |AddressRequired|;
    }
    Check(NotEmptyText(address), Failure("Address", AddressRequired))
      + Check(WithinLength(address, AddressMaxLength), Failure("Address", AddressTooLong))
  }

  /** The create rules with the name-length message as a parameter: the
      validator as written and the corrected one differ only in it. */
  function CreateFailures(req: CreateSchoolRequest, today: int, nameLengthMessage: string): (r: seq<Failure>)
    requires nameLengthMessage != NameRequired
    ensures Failure("Name", NameRequired) in r <==> !NotEmptyText(req.name)
    ensures Failure("Name", nameLengthMessage) in r <==> !WithinLength(req.name, NameMaxLength)
    ensures Failure("Address", AddressRequired) in r <==> !NotEmptyText(req.address)
    ensures Failure("Address", AddressTooLong) in r <==> !WithinLength(req.address, AddressMaxLength)
    ensures Failure("EstablishedDate", FutureDate) in r <==> req.establishedDate > today
    ensures forall f :: f in r && f.propertyName == "Name" ==> f in NameFailures(req.name, nameLengthMessage)
    ensures r == [] <==> CreateValid(req, today)
  {
    var name := NameFailures(req.name, nameLengthMessage);
    var address := AddressFailures(req.address);
    var date := Check(req.establishedDate <= today, Failure("EstablishedDate", FutureDate));
    assert "Name" != "Address" && "Name" != "EstablishedDate" && "Address" != "EstablishedDate";
    name + address + date
  }

  /** Every create rule holds. */
  predicate CreateValid(req: CreateSchoolRequest, today: int) {
    && NotEmptyText(req.name) && WithinLength(req.name, NameMaxLength)
    && NotEmptyText(req.address) && WithinLength(req.address, AddressMaxLength)
    && req.establishedDate <= today
  }

  /** No length message reads like the required-name message. */
  lemma LengthMessageNotRequired(field: string, limit: nat)
    ensures LengthMessage(field, limit) != NameRequired
  {
    assert |LengthMessage(field, limit)| > |NameRequired|;
  }

  /** CreateSchoolRequestValidator as written: the name is cut at 60
      characters, but the message announces 100. */
  function ValidateCreateAsWritten(req: CreateSchoolRequest, today: int): (r: seq<Failure>)
    ensures r == [] <==> CreateValid(req, today)
    ensures Failure("Name", NameTooLongAsWritten) in r <==> !WithinLength(req.name, NameMaxLength)
  {
    CreateFailures(req, today, NameTooLongAsWritten)
  }

  /** CreateSchoolRequestValidator with the message stating the enforced
      limit. `today` is DateTime.Today when the validator is built. */
  function ValidateCreate(req: CreateSchoolRequest, today: int): (r: seq<Failure>)
    ensures r == [] <==> CreateValid(req, today)
    ensures Failure("Name", NameTooLong) in r <==> !WithinLength(req.name, NameMaxLength)
    ensures forall limit: nat :: Failure("Name", LengthMessage("name", limit)) in r ==>
      req.name.Some? && |req.name.value| > limit
  {
    var r := CreateFailures(req, today, NameTooLong);
    assert forall limit: nat :: Failure("Name", LengthMessage("name", limit)) in r ==> limit == NameMaxLength by {
      forall limit: nat | Failure("Name", LengthMessage("name", limit)) in r ensures limit == NameMaxLength {
        LengthMessageNotRequired("name", limit);
        StatedLimit("name", limit, NameMaxLength);
      }
    }
    r
  }

  /** The name-length message as written: a 61-character name is refused
      with a message that says up to 100 characters are allowed. */
  lemma NameLengthMessageOverstates()
    ensures var name := seq(61, i => 'a');
      var r := ValidateCreateAsWritten(CreateSchoolRequest(Some(name), Some("Main Street 1"), 0), 0);
      && Failure("Name", LengthMessage("name", NameStatedLength)) in r
      && |name| <= NameStatedLength
  {
  }

  /** With the corrected message, whenever a name-length message is given,
      the name is longer than the limit it states, and over-long names get it. */
  lemma NameLengthMessageTruthful(req: CreateSchoolRequest, today: int)
    ensures Failure("Name", LengthMessage("name", NameMaxLength)) in ValidateCreate(req, today) <==>
      req.name.Some? && |req.name.value| > NameMaxLength
  {
  }

  // ---------------------------------------------------------------------
  // UpdateSchoolRequestValidator and UpdateSchoolCommandValidator
  // ---------------------------------------------------------------------

  const IdRequired: string := "School Id is required."
  const IdUnknown: string := "School with the specified Id does not exist."
  const UpdateAddressRequired: string := "Address is required."
  const UpdateNameRequired: string := "Name is required."
  const DateRequired: string := "Established Date is required."

  /** UpdateSchoolRequestValidator; the MustAsync check asks the school store. */
  function ValidateUpdateRequest(req: UpdateSchoolRequest, schools: seq<School>): (r: seq<Failure>)
    ensures Failure("Id", IdRequired) in r <==> !NotEmptyValue(req.id)
    ensures Failure("Id", IdUnknown) in r <==> GetById(schools, req.id).None?
    ensures Failure("Address", UpdateAddressRequired) in r <==> !NotEmptyText(req.address)
    ensures Failure("Name", UpdateNameRequired) in r <==> !NotEmptyText(req.name)
    ensures Failure("EstablishedDate", DateRequired) in r <==> !NotEmptyValue(req.establishedDate)
    ensures r == [] <==> UpdateValid(req, schools)
  {
    assert |IdRequired| != |IdUnknown|;
    assert |"Id"| == 2 && |"Address"| == 7 && |"Name"| == 4 && |"EstablishedDate"| == 15;
    var id := Check(NotEmptyValue(req.id), Failure("Id", IdRequired))
      + Check(GetById(schools, req.id).Some?, Failure("Id", IdUnknown));
    var address := Check(NotEmptyText(req.address), Failure("Address", UpdateAddressRequired));
    var name := Check(NotEmptyText(req.name), Failure("Name", UpdateNameRequired));
    var date := Check(NotEmptyValue(req.establishedDate), Failure("EstablishedDate", DateRequired));
    id + address + name + date
  }

  /** Every update rule holds. */
  predicate UpdateValid(req: UpdateSchoolRequest, schools: seq<School>) {
    && req.id != 0 && req.id in Ids(schools)
    && NotEmptyText(req.address) && NotEmptyText(req.name)
    && req.establishedDate != DefaultDate
  }

  /** A child validator's failure, named under the parent property. */
  function Nested(parent: string, f: Failure): (r: Failure)
    ensures r.errorMessage == f.errorMessage
    ensures r.propertyName == parent + "." + f.propertyName
  {
    Failure(parent + "." + f.propertyName, f.errorMessage)
  }

  /** UpdateSchoolCommandValidator: SetValidator on UpdateSchool. A null
      request is not validated at all. */
  function ValidateUpdateCommand(command: Option<UpdateSchoolRequest>, schools: seq<School>): (r: seq<Failure>)
    ensures command.None? ==> r == []
    ensures command.Some? ==> |r| == |ValidateUpdateRequest(command.value, schools)|
    ensures command.Some? ==> forall i :: 0 <= i < |r| ==>
      r[i] == Nested("UpdateSchool", ValidateUpdateRequest(command.value, schools)[i])
  {
    match command
    case None => []
    case Some(req) =>
      var inner := ValidateUpdateRequest(req, schools);
      seq(|inner|, i requires 0 <= i < |inner| => Nested("UpdateSchool", inner[i]))
  }

  /** A command that passes validation names a stored school, so the
      handler never answers "School not found." for it; it still throws
      when the name is longer than the column allows. */
  lemma ValidatedUpdateFindsSchool(req: UpdateSchoolRequest, schools: seq<School>)
    requires ValidateUpdateCommand(Some(req), schools) == []
    ensures UpdateSchool(schools, Some(req)).Ok? <==> NameFits(req.name)
    ensures UpdateSchool(schools, Some(req)).Ok? ==> UpdateSchool(schools, Some(req)).value.1.isSuccessful
  {
    assert |ValidateUpdateRequest(req, schools)| == 0;
  }

  /** Create and update disagree: a name longer than the create limit
      passes the update rules, and the database then refuses it. */
  lemma UpdateHasNoLengthLimit(schools: seq<School>, id: int)
    requires id != 0 && id in Ids(schools)
    ensures var name := seq(NameMaxLength + 1, i => 'a');
      && ValidateUpdateRequest(UpdateSchoolRequest(id, Some(name), Some("x"), 1), schools) == []
      && !CreateValid(CreateSchoolRequest(Some(name), Some("x"), 1), 1)
      && UpdateSchool(schools, Some(UpdateSchoolRequest(id, Some(name), Some("x"), 1))) == Err(DbError())
  {
    var name := seq(NameMaxLength + 1, i => 'a');
    assert !IsWhiteSpace(name[0]);
    assert !IsWhiteSpace("x"[0]);
    assert GetById(schools, id).Some?;
  }
}
