/**
 * The project registry: the `projects` collection and the service that
 * inserts, looks up, replaces and deletes its records. The store itself
 * does not keep names unique.
 */
module Projects {
  import opened Wrappers
  import opened Bson
  import opened BranchData
  import Collection

  /** `name` is stored as `project_name`. */
  datatype ProjectData = ProjectData(name: string, branches: seq<BranchInfo>)

  /** The stored `project_name` field of a record. */
  function NameField(p: ProjectData): BsonValue {
    BsonString(p.name)
  }

  /** The filter `Filters.eq("project_name", value)`. */
  function NameEquals(value: BsonValue): ProjectData -> bool {
    (p: ProjectData) => NameField(p) == value
  }

  /** Some stored project is named `name`. */
  predicate HasName(s: seq<ProjectData>, name: string) {
    exists i :: 0 <= i < |s| && s[i].name == name
  }

  /** The names of the given projects, in order. */
  function Names(s: seq<ProjectData>): (names: seq<string>)
    ensures |names| == |s|
    ensures forall i :: 0 <= i < |s| ==> names[i] == s[i].name
  {
    seq(|s|, i requires 0 <= i < |s| => s[i].name)
  }

  /** The set of names of the given projects. */
  function ProjectNames(s: seq<ProjectData>): set<string> {
    set p | p in s :: p.name
  }

  /** A name is in the set of names exactly when some stored project has it. */
  lemma HasNameIffInNames(s: seq<ProjectData>, name: string)
    ensures HasName(s, name) <==> name in ProjectNames(s)
  {
  }

  /** A string filter on `project_name` matches exactly the projects of that name. */
  lemma NameEqualsString(s: seq<ProjectData>, name: string)
    ensures Collection.AnyMatch(s, NameEquals(BsonString(name))) <==> HasName(s, name)
    ensures forall p :: NameEquals(BsonString(name))(p) <==> p.name == name
  {
  }

  /**
   * No stored `project_name` is an ObjectId, so a filter that compares it
   * with one matches nothing and `findOneAndDelete` leaves the store as it is.
   */
  lemma ObjectIdFilterDeletesNothing(s: seq<ProjectData>, hex: string)
    ensures Collection.DeleteFirst(s, NameEquals(BsonObjectId(hex))) == (None, s)
  {
  }

  /** A project appended to the store is found by its name afterwards. */
  lemma CreateThenHasName(s: seq<ProjectData>, p: ProjectData)
    ensures HasName(s + [p], p.name)
  {
    assert (s + [p])[|s|] == p;
  }

  /** What `delete` gives back: the removed record, or the exception the ObjectId constructor throws. */
  datatype DeleteOutcome = Deleted(removed: Option<ProjectData>) | InvalidObjectId

  class ProjectsDatabaseService {
    /** The `projects` collection, in insertion order. */
    var projects: seq<ProjectData>

    /** Opens the `projects` collection with the records it already holds. */
    constructor (stored: seq<ProjectData>)
      ensures projects == stored
    {
      projects := stored;
    }

    /** Every stored project, and the store is unchanged. */
    method GetAllProjects() returns (all: seq<ProjectData>)
      ensures all == projects
    {
      all := projects;
    }

    /** Inserts the record; no check is made that the name is new. */
    method Create(project: ProjectData)
      modifies this
      ensures projects == old(projects) + [project]
    {
      projects := projects + [project];
    }

    /** The first project stored under `name`, or None when there is none. */
    method Get(name: string) returns (found: Option<ProjectData>)
      ensures found.Some? <==> HasName(projects, name)
      ensures found.Some? ==> found.value.name == name
      ensures found.Some? ==>
        exists i :: 0 <= i < |projects| && projects[i] == found.value && forall j :: 0 <= j < i ==> projects[j].name != name
    {
      NameEqualsString(projects, name);
      found := Collection.First(projects, NameEquals(BsonString(name)));
    }

    /**
     * Replaces the whole first record named `name` by `project` and returns
     * the record as it was; with no such record nothing changes.
     */
    method Update(name: string, project: ProjectData) returns (previous: Option<ProjectData>)
      modifies this
      ensures !HasName(old(projects), name) ==> previous == None && projects == old(projects)
      ensures HasName(old(projects), name) ==>
        exists i :: 0 <= i < |old(projects)| && old(projects)[i].name == name
          && (forall j :: 0 <= j < i ==> old(projects)[j].name != name)
          && previous == Some(old(projects)[i]) && projects == old(projects)[i := project]
    {
      NameEqualsString(projects, name);
      var replaced := Collection.ReplaceFirst(projects, NameEquals(BsonString(name)), project);
      previous, projects := replaced.0, replaced.1;
    }

    /**
     * Deletes by `project_name` equal to `ObjectId(name)`. Text that is not
     * an ObjectId makes the constructor throw; any other name matches no
     * stored record, so no project is ever removed.
     */
    method Delete(name: string) returns (outcome: DeleteOutcome)
      modifies this
      ensures outcome == if IsValidObjectIdHex(name) then Deleted(None) else InvalidObjectId
      ensures projects == old(projects)
    {
      if !IsValidObjectIdHex(name) {
        return InvalidObjectId;
      }
      ObjectIdFilterDeletesNothing(projects, name);
      var deleted := Collection.DeleteFirst(projects, NameEquals(BsonObjectId(name)));
      outcome, projects := Deleted(deleted.0), deleted.1;
    }

    /** Whether some stored project is named `name`. */
    method HasProject(name: string) returns (present: bool)
      ensures present <==> HasName(projects, name)
    {
      NameEqualsString(projects, name);
      present := Collection.First(projects, NameEquals(BsonString(name))) != None;
    }
  }
}
