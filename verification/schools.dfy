/** The school data service (Infrastructure/Schools/SchoolService.cs) over
    one tenant's Schools table, kept as a list in storage order. */
module Schools {
  import opened Common
  import opened Errors

  /** The School entity. Domain.Entities.School is not part of this model;
      these are the fields the core reads and writes. */
  datatype School = School(id: int, name: Option<string>, address: Option<string>, establishedDate: int)

  /** The primary key is unique. */
  predicate UniqueIds(schools: seq<School>) {
    forall i, j :: 0 <= i < j < |schools| ==> schools[i].id != schools[j].id
  }

  function Ids(schools: seq<School>): (r: set<int>)
    ensures forall id :: id in r <==> exists i :: 0 <= i < |schools| && schools[i].id == id
  {
    set i | 0 <= i < |schools| :: schools[i].id
  }

  const DbUpdateMessage: string := "An error occurred while saving the entity changes."

  function DbError(): Exception {
    Fault(Database, DbUpdateMessage, None)
  }

  /** GetByIdAsync: the first school with the Id, or null. */
  function GetById(schools: seq<School>, id: int): (r: Option<School>)
    ensures r.Some? ==> r.value in schools && r.value.id == id
    ensures r.None? <==> id !in Ids(schools)
  {
    if |schools| == 0 then None
    else if schools[0].id == id then Some(schools[0])
    else GetById(schools[1..], id)
  }

  /** GetByNameAsync: the first school whose name equals `name` (null matches null). */
  function GetByName(schools: seq<School>, name: Option<string>): (r: Option<School>)
    ensures r.Some? ==> r.value in schools && r.value.name == name
    ensures r.None? <==> forall i :: 0 <= i < |schools| ==> schools[i].name != name
    ensures r.Some? ==>
      exists k :: (0 <= k < |schools| && schools[k] == r.value && forall i :: 0 <= i < k ==> schools[i].name != name)
  {
    if |schools| == 0 then None
    else if schools[0].name == name then Some(schools[0])
    else
      var r := GetByName(schools[1..], name);
      if r.Some? then
        var k :| 0 <= k < |schools[1..]| && schools[1..][k] == r.value &&
          (forall i :: 0 <= i < k ==> schools[1..][i].name != name);
        assert schools[k + 1] == r.value;
        r
      else r
  }

  /** GetAllAsync */
  function GetAll(schools: seq<School>): seq<School> {
    schools
  }

  /** The Name column is required and at most 60 characters long
      (Infrastructure/Context/DbConfigurations.cs:81-83). */
  const NameColumnLength: nat := 60

  /** A name the Schools table accepts. */
  predicate NameFits(name: Option<string>) {
    name.Some? && |name.value| <= NameColumnLength
  }

  /** CreateAsync: the Id is an identity column, so the database generates
      `newId` for a school whose Id is 0 and refuses an explicit Id; a name
      the column does not accept or a key already in use makes SaveChanges
      fail. Returns the stored school's Id. */
  function Create(schools: seq<School>, school: School, newId: int): (r: Result<(seq<School>, int), Exception>)
    ensures r.Err? <==> school.id != 0 || !NameFits(school.name) || newId in Ids(schools)
    ensures r.Err? ==> r.error == DbError()
    ensures r.Ok? ==> r.value == (schools + [school.(id := newId)], newId)
  {
    if school.id != 0 || !NameFits(school.name) || newId in Ids(schools) then Err(DbError())
    else Ok((schools + [school.(id := newId)], newId))
  }

  /** DeleteAsync: remove the school with the entity's Id; removing one
      that is not stored fails on SaveChanges. Returns the Id. */
  function Delete(schools: seq<School>, school: School): (r: Result<(seq<School>, int), Exception>)
    ensures r.Err? <==> school.id !in Ids(schools)
    ensures r.Err? ==> r.error == DbError()
    ensures r.Ok? ==> r.value.1 == school.id && school.id !in Ids(r.value.0)
    ensures r.Ok? ==> forall s :: s in r.value.0 <==> s in schools && s.id != school.id
  {
    if school.id !in Ids(schools) then Err(DbError())
    else
      var kept := Filter(schools, (s: School) => s.id != school.id);
      assert school.id !in Ids(kept) by {
        forall i | 0 <= i < |kept| ensures kept[i].id != school.id {
          assert kept[i] in kept;
        }
      }
      Ok((kept, school.id))
  }

  /** UpdateAsync: store the entity in place of the school with its Id;
      updating one that is not stored, or to a name the column does not
      accept, fails on SaveChanges. Returns the Id. */
  function Update(schools: seq<School>, school: School): (r: Result<(seq<School>, int), Exception>)
    ensures r.Err? <==> school.id !in Ids(schools) || !NameFits(school.name)
    ensures r.Err? ==> r.error == DbError()
    ensures r.Ok? ==> r.value.1 == school.id && |r.value.0| == |schools|
    ensures r.Ok? ==> forall i :: 0 <= i < |schools| ==>
      r.value.0[i] == if schools[i].id == school.id then school else schools[i]
  {
    if school.id !in Ids(schools) || !NameFits(school.name) then Err(DbError())
    else Ok((seq(|schools|, i requires 0 <= i < |schools| => if schools[i].id == school.id then school else schools[i]), school.id))
  }

  // ---------------------------------------------------------------------
  // Properties
  // ---------------------------------------------------------------------

  lemma CreatePreservesUniqueIds(schools: seq<School>, school: School, newId: int)
    requires UniqueIds(schools)
    requires Create(schools, school, newId).Ok?
    ensures UniqueIds(Create(schools, school, newId).value.0)
  {
  }

  lemma UpdatePreservesUniqueIds(schools: seq<School>, school: School)
    requires UniqueIds(schools)
    requires Update(schools, school).Ok?
    ensures UniqueIds(Update(schools, school).value.0)
  {
  }

  lemma {:induction false} FilterPreservesUniqueIds(schools: seq<School>, p: School -> bool)
    requires UniqueIds(schools)
    ensures UniqueIds(Filter(schools, p))
  {
    if |schools| > 0 {
      FilterPreservesUniqueIds(schools[1..], p);
      assert UniqueIds(schools[1..]);
      if p(schools[0]) {
        forall s | s in Filter(schools[1..], p) ensures s.id != schools[0].id {
          var k :| 0 <= k < |schools[1..]| && schools[1..][k] == s;
          assert schools[k + 1] == s;
        }
      }
    }
  }

  lemma DeletePreservesUniqueIds(schools: seq<School>, school: School)
    requires UniqueIds(schools)
    requires Delete(schools, school).Ok?
    ensures UniqueIds(Delete(schools, school).value.0)
  {
    FilterPreservesUniqueIds(schools, (s: School) => s.id != school.id);
  }

  /** A created school is found under the Id CreateAsync returned. */
  lemma CreateThenGetById(schools: seq<School>, school: School, newId: int)
    requires Create(schools, school, newId).Ok?
    ensures var (schools', id) := Create(schools, school, newId).value;
      GetById(schools', id) == Some(school.(id := id))
  {
    var (schools', id) := Create(schools, school, newId).value;
    GetByIdAppended(schools, school.(id := id));
  }

  lemma {:induction false} GetByIdAppended(schools: seq<School>, school: School)
    requires school.id !in Ids(schools)
    ensures GetById(schools + [school], school.id) == Some(school)
  {
    if |schools| == 0 {
      assert schools + [school] == [school];
    } else {
      assert (schools + [school])[1..] == schools[1..] + [school];
      assert school.id !in Ids(schools[1..]);
      GetByIdAppended(schools[1..], school);
    }
  }

  /** After an update the Id finds the updated school; other Ids are unaffected. */
  lemma UpdateThenGetById(schools: seq<School>, school: School, other: int)
    requires Update(schools, school).Ok?
    ensures GetById(Update(schools, school).value.0, school.id) == Some(school)
    ensures other != school.id ==> GetById(Update(schools, school).value.0, other) == GetById(schools, other)
  {
    UpdateLookup(schools, school, school.id);
    UpdateLookup(schools, school, other);
  }

  lemma {:induction false} UpdateLookup(schools: seq<School>, school: School, id: int)
    ensures var updated := seq(|schools|, i requires 0 <= i < |schools| => if schools[i].id == school.id then school else schools[i]);
      GetById(updated, id) == if id == school.id && school.id in Ids(schools) then Some(school) else GetById(schools, id)
  {
    var updated := seq(|schools|, i requires 0 <= i < |schools| => if schools[i].id == school.id then school else schools[i]);
    if |schools| > 0 {
      var rest := seq(|schools[1..]|, i requires 0 <= i < |schools[1..]| => if schools[1..][i].id == school.id then school else schools[1..][i]);
      assert updated[1..] == rest;
      UpdateLookup(schools[1..], school, id);
      if schools[0].id != school.id && schools[0].id != id && id == school.id {
        assert school.id in Ids(schools) <==> school.id in Ids(schools[1..]);
      }
    }
  }

  /** After a delete the Id finds nothing; other Ids are unaffected when Ids are unique. */
  lemma DeleteThenGetById(schools: seq<School>, school: School, other: int)
    requires UniqueIds(schools)
    requires Delete(schools, school).Ok?
    ensures GetById(Delete(schools, school).value.0, school.id).None?
    ensures other != school.id ==> GetById(Delete(schools, school).value.0, other) == GetById(schools, other)
  {
    var schools' := Delete(schools, school).value.0;
    if other != school.id {
      DeletePreservesUniqueIds(schools, school);
      UniqueLookup(schools, other);
      UniqueLookup(schools', other);
    }
  }

  /** With unique Ids, GetById finds the only school carrying the Id. */
  lemma UniqueLookup(schools: seq<School>, id: int)
    requires UniqueIds(schools)
    ensures forall s :: s in schools && s.id == id ==> GetById(schools, id) == Some(s)
  {
    forall s | s in schools && s.id == id ensures GetById(schools, id) == Some(s) {
      var r := GetById(schools, id).value;
      var i :| 0 <= i < |schools| && schools[i] == s;
      var j :| 0 <= j < |schools| && schools[j] == r;
      assert i == j;
    }
  }
}
