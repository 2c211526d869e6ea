/** The MediatR handlers of the school feature: update and delete commands,
    the by-name and list queries (Application/Features/Schools). */
module SchoolHandlers {
  import opened Common
  import opened Errors
  import opened Responses
  import opened Schools

  /** SchoolResponse, the Mapster projection of a school. The class is not
      part of this model; Adapt is a field-by-field copy. */
  datatype SchoolResponse = SchoolResponse(id: int, name: Option<string>, address: Option<string>, establishedDate: int)

  function ToResponse(s: School): (r: SchoolResponse)
    ensures r.id == s.id && r.name == s.name && r.address == s.address && r.establishedDate == s.establishedDate
  {
    SchoolResponse(s.id, s.name, s.address, s.establishedDate)
  }

  function ToResponses(schools: seq<School>): (r: seq<SchoolResponse>)
    ensures |r| == |schools|
    ensures forall i :: 0 <= i < |schools| ==> r[i] == ToResponse(schools[i])
  {
    seq(|schools|, i requires 0 <= i < |schools| => ToResponse(schools[i]))
  }

  /** The Data each handler may return behind IResponseWrapper. */
  datatype Payload = SchoolId(id: int) | One(school: SchoolResponse) | Many(schools: seq<SchoolResponse>)

  /** The request body of the update endpoint: Id, Name, Address and
      EstablishedDate, as UpdateSchoolCommand's handler reads them. */
  datatype UpdateSchoolRequest = UpdateSchoolRequest(id: int, name: Option<string>, address: Option<string>, establishedDate: int)

  const NotFoundMessage: string := "School not found."
  const UpdatedMessage: string := "School updated successfuly "
  const DeletedMessage: string := "School deleted successfully."
  const RetrievedMessage: string := "School retrieved successfully."
  const ListedMessage: string := "Schools retrieved successfully."
  const NoneFoundMessage: string := "No schools found."

  /** Reading UpdateSchool.Id when the command carries no request. */
  function NullReference(): Exception {
    Fault(FaultKind.NullReference, "Object reference not set to an instance of an object.", None)
  }

  /** The stored school with the request's Address, Name and EstablishedDate. */
  function Patch(s: School, req: UpdateSchoolRequest): (r: School)
    ensures r.id == s.id
    ensures r.name == req.name && r.address == req.address && r.establishedDate == req.establishedDate
  {
    s.(address := req.address, name := req.name, establishedDate := req.establishedDate)
  }

  /** UpdateSchoolCommandHandler.Handle: `command` is the command's UpdateSchool
      property, None when the body bound to null. A name the Schools table
      does not accept makes SaveChanges throw after the lookup succeeded. */
  function UpdateSchool(schools: seq<School>, command: Option<UpdateSchoolRequest>): (r: Result<(seq<School>, Response<Payload>), Exception>)
    ensures command.None? ==> r == Err(NullReference())
    ensures command.Some? ==> (r.Ok? <==> command.value.id !in Ids(schools) || NameFits(command.value.name))
    ensures command.Some? && r.Err? ==> r.error == DbError()
    ensures command.Some? && command.value.id !in Ids(schools) ==>
      r == Ok((schools, FailWith(NotFoundMessage)))
    ensures command.Some? && command.value.id in Ids(schools) && r.Ok? ==>
      && r.value.1 == SuccessData(SchoolId(command.value.id), Some(UpdatedMessage))
      && |r.value.0| == |schools|
      && (forall i :: 0 <= i < |schools| && schools[i].id != command.value.id ==> r.value.0[i] == schools[i])
    ensures command.Some? && UniqueIds(schools) && r.Ok? ==>
      forall i :: 0 <= i < |schools| && schools[i].id == command.value.id ==>
        r.value.0[i] == Patch(schools[i], command.value)
  {
    match command
    case None => Err(NullReference())
    case Some(req) =>
      match GetById(schools, req.id)
      case None => Ok((schools, FailWith(NotFoundMessage)))
      case Some(found) =>
        match Update(schools, Patch(found, req))
        case Err(e) => Err(e)
        case Ok((schools', id)) =>
          assert UniqueIds(schools) ==> forall i :: 0 <= i < |schools| && schools[i].id == req.id ==> schools[i] == found by {
            if UniqueIds(schools) {
              UniqueLookup(schools, req.id);
            }
          }
          Ok((schools', SuccessData(SchoolId(id), Some(UpdatedMessage))))
  }

  /** DeleteSchoolCommandHandler.Handle */
  function DeleteSchool(schools: seq<School>, schoolId: int): (r: Result<(seq<School>, Response<Payload>), Exception>)
    ensures r.Ok?
    ensures schoolId !in Ids(schools) ==> r.value == (schools, FailWith(NotFoundMessage))
    ensures schoolId in Ids(schools) ==>
      && r.value.1 == SuccessData(SchoolId(schoolId), Some(DeletedMessage))
      && schoolId !in Ids(r.value.0)
      && (forall s :: s in r.value.0 <==> s in schools && s.id != schoolId)
  {
    match GetById(schools, schoolId)
    case None => Ok((schools, FailWith(NotFoundMessage)))
    case Some(found) =>
      var (schools', id) := Delete(schools, found).value;
      Ok((schools', SuccessData(SchoolId(id), Some(DeletedMessage))))
  }

  /** SchoolByNameQueryHandler.Handle; it reads the store and never writes it. */
  function SchoolByName(schools: seq<School>, name: Option<string>): (r: Response<Payload>)
    ensures r.isSuccessful <==> exists i :: 0 <= i < |schools| && schools[i].name == name
    ensures !r.isSuccessful ==> r == FailWith(NotFoundMessage)
    ensures r.isSuccessful ==> r.messages == [RetrievedMessage]
    ensures r.isSuccessful ==> r.data.Some? && r.data.value.One? && r.data.value.school.name == name
  {
    match GetByName(schools, name)
    case None => FailWith(NotFoundMessage)
    case Some(found) => SuccessData(One(ToResponse(found)), Some(RetrievedMessage))
  }

  /** GetSchoolsQueryHandler.Handle */
  function GetSchools(schools: seq<School>): (r: Response<Payload>)
    ensures r.isSuccessful <==> |schools| > 0
    ensures !r.isSuccessful ==> r == FailWith(NoneFoundMessage)
    ensures r.isSuccessful ==> r.messages == [ListedMessage] && r.data.Some? && r.data.value.Many?
    ensures r.isSuccessful ==> |r.data.value.schools| == |schools|
    ensures r.isSuccessful ==> forall i :: 0 <= i < |schools| ==> r.data.value.schools[i] == ToResponse(schools[i])
  {
    var all := GetAll(schools);
    if |all| > 0 then SuccessData(Many(ToResponses(all)), Some(ListedMessage))
    else FailWith(NoneFoundMessage)
  }

  // ---------------------------------------------------------------------
  // Properties
  // ---------------------------------------------------------------------

  /** Once an update has gone through, sending it again goes through too
      and leaves the store as sending it once. */
  lemma UpdateSchoolIdempotent(schools: seq<School>, req: UpdateSchoolRequest)
    ensures UpdateSchool(schools, Some(req)).Ok? ==>
      var once := UpdateSchool(schools, Some(req)).value.0;
      UpdateSchool(once, Some(req)).Ok? && UpdateSchool(once, Some(req)).value.0 == once
  {
    if UpdateSchool(schools, Some(req)).Ok? && req.id in Ids(schools) {
      var once := UpdateSchool(schools, Some(req)).value.0;
      var found := GetById(schools, req.id).value;
      UpdateThenGetById(schools, Patch(found, req), req.id);
      assert GetById(once, req.id) == Some(Patch(found, req));
      var twice := UpdateSchool(once, Some(req)).value.0;
      assert Patch(Patch(found, req), req) == Patch(found, req);
      assert |twice| == |once|;
      forall i | 0 <= i < |once| ensures twice[i] == once[i] {
        assert once[i] == if schools[i].id == req.id then Patch(found, req) else schools[i];
      }
    }
  }

  /** Deleting an Id a second time answers "School not found." and changes nothing. */
  lemma DeleteTwiceNotFound(schools: seq<School>, schoolId: int)
    ensures var once := DeleteSchool(schools, schoolId).value.0;
      DeleteSchool(once, schoolId).value == (once, FailWith(NotFoundMessage))
  {
  }

  /** Updating a stored school succeeds exactly when the new name fits the
      column, and then, with unique Ids, asking for the new name finds a school. */
  lemma UpdatedNameIsFound(schools: seq<School>, req: UpdateSchoolRequest)
    requires UniqueIds(schools)
    requires req.id in Ids(schools)
    ensures UpdateSchool(schools, Some(req)).Ok? <==> NameFits(req.name)
    ensures UpdateSchool(schools, Some(req)).Ok? ==>
      SchoolByName(UpdateSchool(schools, Some(req)).value.0, req.name).isSuccessful
  {
    if UpdateSchool(schools, Some(req)).Ok? {
      var i :| 0 <= i < |schools| && schools[i].id == req.id;
      var after := UpdateSchool(schools, Some(req)).value.0;
      assert after[i].name == req.name;
    }
  }

  /** The list query after deleting a stored school has one fewer entry. */
  lemma DeleteShrinksList(schools: seq<School>, schoolId: int)
    requires UniqueIds(schools)
    requires schoolId in Ids(schools)
    ensures |DeleteSchool(schools, schoolId).value.0| == |schools| - 1
  {
    var p := (s: School) => s.id != schoolId;
    var i :| 0 <= i < |schools| && schools[i].id == schoolId;
    FilterCountsOne(schools, p, i);
  }

  /** Filtering out the one element that fails `p` drops exactly one entry. */
  lemma {:induction false} FilterCountsOne(s: seq<School>, p: School -> bool, k: int)
    requires 0 <= k < |s| && !p(s[k])
    requires forall i :: 0 <= i < |s| && i != k ==> p(s[i])
    ensures |Filter(s, p)| == |s| - 1
  {
    if k == 0 {
      FilterKeepsAll(s[1..], p);
    } else {
      FilterCountsOne(s[1..], p, k - 1);
    }
  }
}
