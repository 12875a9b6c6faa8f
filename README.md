# StarFall build-metadata services, modelled in Dafny

StarFall keeps build metadata for a set of projects in a document store:
a registry of projects with their branches, a ledger of commits kept in one
collection per project, and a catalog of downloadable releases. Build
pipelines append commits and register downloads over HTTP; users list
projects, commits and downloads.

This project models the three services and the decision logic of the route
handlers that drive them:

- `Collection` (collection.dfy): a document collection held as the sequence
  of its records in insertion order, with the driver operations the services
  use: insert, `find(filter)`, `find(filter).first()`, `findOneAndReplace`,
  `findOneAndDelete`. A filter is a predicate on the record.
- `Projects` (projects.dfy, with `BranchData` in branch_info.dfy): the
  `ProjectsDatabaseService` class over the `projects` collection.
- `Commits` (commits.dfy): the `CommitsDatabaseService` class, whose routing
  table maps a project name to the contents of its `commits_of_<name>`
  collection. The table is filled once, in the constructor, from the
  registry's contents at that moment. Nothing adds a route afterwards.
- `Downloads` (downloads.dfy): the `DownloadInfoDatabaseService` class over
  the `downloads` collection.
- `CommitJson` (commit_json.dfy): decoding the JSON commit array that both
  route files receive. Both files hold the same code, so it is modelled once.
  Gson stays abstract: its parser and its object-to-commit mapping are
  parameters (`Gson`).
- `Http` (http.dfy), `ProjectsRoute` (projects_route.dfy) and
  `DownloadsRoute` (downloads_route.dfy): the handlers. Each one is a method
  from the request parameters and the services to a status and a body.
  `Unhandled` stands for an exception that escapes the handler.

Facts the model proves about the code:

- A project created after start-up never gets a route. Appending commits to
  it answers OK and stores nothing, and its commits read back empty
  (`ProjectsRoute.LateProjectScenario`). A project stored before start-up
  does get its commits (`ProjectsRoute.KnownProjectScenario`).
- Project delete compares `project_name` with `ObjectId(name)`, never with
  the string itself. It therefore never removes a record, and it throws when
  `name` is not 24 hexadecimal digits.
- The store layer accepts duplicate project names and duplicate release
  tags. A lookup takes the first match.

Further facts about the code that the model keeps:

- The ledger resolves partitions once, when it is built; nothing resolves
  one later.
- There is no Conflict or UnknownProject outcome: a duplicate project name
  answers BadRequest, and commits for a project with no route are dropped
  without error.
- `getDownloadInfo` gives null, `None` in the model, when no record carries
  the tag.

The document store, Gson and the HTTP server are outside the model. The
stored contents at start-up are constructor parameters:
`ProjectsDatabaseService(stored)`, `DownloadInfoDatabaseService(stored)`, and
`CommitsDatabaseService(database, registry)`, where `database` maps a
collection name to what it already holds.

## Model

| member | source | states |
|---|---|---|
| Collection.FirstIndex | src/main/kotlin/data/ProjectData.kt:50-52 | the position of the first record the filter matches: None exactly when nothing matches, otherwise a matching position with no match before it |
| Collection.First | src/main/kotlin/data/ProjectData.kt:50-52 | `find(filter).first()`: Some exactly when some record matches, and then a matching stored record with no match stored before it |
| Collection.Filter | src/main/kotlin/data/CommitData.kt:66 | `find(Filters.eq(...))`: the matching records in stored order, never more than are stored; contents and multiplicity in FilterContents, order in FilterAppend |
| Collection.FilterContents | src/main/kotlin/data/DownloadInfo.kt:54-56 | `find(filter)` returns exactly the matching records, each as many times as it is stored (no record is lost or duplicated) |
| Collection.FilterAppend | src/main/kotlin/data/CommitData.kt:65-81 | filtering a store that had records appended is the old result followed by the matches among the appended records, so stored order is kept |
| Collection.FirstAppend | src/main/kotlin/data/DownloadInfo.kt:45-52 | after an append, the first match is an earlier record whenever one matched before, and otherwise the first match among the new records |
| Collection.ReplaceFirst | src/main/kotlin/data/ProjectData.kt:54-56 | `findOneAndReplace`: with no match, returns None and leaves the store as it is; otherwise replaces only the first match and returns that match as it was |
| Collection.DeleteFirst | src/main/kotlin/data/CommitData.kt:90-92 | `findOneAndDelete`: with no match, returns None and changes nothing; otherwise removes only the first match and returns it, so removed record plus rest is the old multiset |
| Projects.Names | src/main/kotlin/routes/ProjectsRoute.kt:82 | the names of the projects, one per project, in stored order |
| Projects.HasNameIffInNames | src/main/kotlin/data/CommitData.kt:55-61 | a name is among the registry's name set exactly when some stored project has it |
| Projects.NameEqualsString | src/main/kotlin/data/ProjectData.kt:62-64 | the string filter on `project_name` matches a record exactly when its name equals the string |
| Projects.ObjectIdFilterDeletesNothing | src/main/kotlin/data/ProjectData.kt:58-60 | a delete filtering `project_name` against an ObjectId matches no stored record, and so leaves the store unchanged |
| Projects.CreateThenHasName | src/main/kotlin/data/ProjectData.kt:44-64 | after a project is appended, a project of its name is stored |
| Projects.ProjectsDatabaseService.constructor | src/main/kotlin/data/ProjectData.kt:35-38 | the service starts with the records already in `projects` |
| Projects.ProjectsDatabaseService.GetAllProjects | src/main/kotlin/data/ProjectData.kt:40-42 | returns every stored project and nothing else, and changes nothing |
| Projects.ProjectsDatabaseService.Create | src/main/kotlin/data/ProjectData.kt:44-48 | appends the project. Earlier records stay as they were, and the name is not checked for duplicates |
| Projects.ProjectsDatabaseService.Get | src/main/kotlin/data/ProjectData.kt:50-52 | Some exactly when some project has the name (so Some iff `hasProject`), and then the first stored project of that name |
| Projects.ProjectsDatabaseService.Update | src/main/kotlin/data/ProjectData.kt:54-56 | replaces the whole first record of that name and returns it as it was, leaving the others; with no such record, None and nothing changes |
| Projects.ProjectsDatabaseService.Delete | src/main/kotlin/data/ProjectData.kt:58-60 | throws (InvalidObjectId) unless the name is 24 hex digits, otherwise returns no record; in both cases the store is unchanged |
| Projects.ProjectsDatabaseService.HasProject | src/main/kotlin/data/ProjectData.kt:62-64 | true exactly when some stored project has the name |
| Commits.PartitionNameInjective | src/main/kotlin/data/CommitData.kt:58-60 | distinct project names get distinct `commits_of_` collections |
| Commits.CommitsOf | src/main/kotlin/data/CommitData.kt:65-74 | empty for an unrouted project; otherwise exactly the partition's commits on the branch, each as often as stored |
| Commits.AddAll | src/main/kotlin/data/CommitData.kt:76-81 | adding commits never changes the routing table's key set |
| Commits.AddAllNothing | src/main/kotlin/routes/ProjectsRoute.kt:45-47 | adding no commits leaves the routing table as it is |
| Commits.AddAllTwice | src/main/kotlin/routes/ProjectsRoute.kt:45-47 | adding two runs of commits in turn is the same as adding them joined, in order |
| Commits.AddAllThenCommitsOf | src/main/kotlin/data/CommitData.kt:65-81 | after appending to a routed project, its reads on a branch are the old ones followed by the appended commits of that branch; an unrouted project reads as before |
| Commits.AddAllLeavesOthers | src/main/kotlin/data/CommitData.kt:76-81 | appending to one project's partition leaves every other project's reads unchanged |
| Commits.AddTwiceStoresTwice | src/main/kotlin/data/CommitData.kt:76-81 | adding the same commit twice makes it appear two more times on its branch (no de-duplication) |
| Commits.CommitsDatabaseService.constructor | src/main/kotlin/data/CommitData.kt:51-63 | the routing table's keys are exactly the names of the projects in the registry. Duplicate names share one partition. Each partition holds what its `commits_of_<name>` collection already holds, and no two routed names share a collection |
| Commits.CommitsDatabaseService.GetCommitsOf | src/main/kotlin/data/CommitData.kt:65-74 | returns the routed partition's commits on the branch (CommitsOf), and changes nothing |
| Commits.CommitsDatabaseService.Add | src/main/kotlin/data/CommitData.kt:76-81 | for a routed project, appends the commit to its partition and nothing else; for an unrouted one, changes nothing without error; keys never change |
| Commits.CommitsDatabaseService.Get | src/main/kotlin/data/CommitData.kt:83-88 | always non-null, holding the same commits as `getCommitsOf`; changes nothing |
| Commits.CommitsDatabaseService.Delete | src/main/kotlin/data/CommitData.kt:90-92 | removes only the first commit on the branch and returns it. Returns None with no change when the project is unrouted or has no match. Keys never change |
| Downloads.AddThenLookup | src/main/kotlin/data/DownloadInfo.kt:45-52 | after an add, looking up its tag gives a record: the earlier one when the tag was already stored, otherwise the added one |
| Downloads.AddThenList | src/main/kotlin/data/DownloadInfo.kt:49-56 | after an add, its branch lists the earlier records followed by the added one |
| Downloads.AddLeavesOtherQueries | src/main/kotlin/data/DownloadInfo.kt:45-56 | an add changes neither the lookup of another tag nor the listing of another branch |
| Downloads.DownloadInfoDatabaseService.constructor | src/main/kotlin/data/DownloadInfo.kt:40-43 | the service starts with the records already in `downloads` |
| Downloads.DownloadInfoDatabaseService.GetDownloadInfo | src/main/kotlin/data/DownloadInfo.kt:45-47 | Some exactly when some record has the tag, and then the first such record; changes nothing |
| Downloads.DownloadInfoDatabaseService.Add | src/main/kotlin/data/DownloadInfo.kt:49-52 | appends the record unconditionally, with earlier records unchanged |
| Downloads.DownloadInfoDatabaseService.GetAllOf | src/main/kotlin/data/DownloadInfo.kt:54-56 | exactly the records of the branch, in stored order, each as often as stored (empty when none); changes nothing |
| CommitJson.DecodeElements | src/main/kotlin/routes/ProjectsRoute.kt:31-39 | succeeds exactly when every element is an object that maps to a commit. The commits then keep the array's order and length. Otherwise the first failing element decides: a syntax error if it is an object, an escaping exception if not |
| CommitJson.Decode | src/main/kotlin/routes/ProjectsRoute.kt:31-39 | a syntax error on a parse failure, an escaping exception on a non-array; otherwise the array decodes exactly when every element is an object mapping to a commit, and then gives one commit per element in array order (DecodeElements); the same code is at src/main/kotlin/routes/DownloadsRoute.kt:37-45 |
| CommitJson.DecodeCommitArray | src/main/kotlin/routes/ProjectsRoute.kt:30-43 | the loop that accumulates the list computes that decoding of the whole text, where a parse failure is a syntax error and a non-array an escaping exception (the same code is at src/main/kotlin/routes/DownloadsRoute.kt:36-49) |
| ProjectsRoute.Startup | src/main/kotlin/routes/ProjectsRoute.kt:17-18 | the registry holds the stored projects, and the ledger routes exactly their names, built from the registry as it is then |
| ProjectsRoute.AppendCommits | src/main/kotlin/routes/ProjectsRoute.kt:23-50 | a missing parameter or a syntax error gives BadRequest, and another exception escapes; in each case nothing is added. Otherwise every decoded commit is added in order and the result is OK, routed or not |
| ProjectsRoute.CreateProject | src/main/kotlin/routes/ProjectsRoute.kt:52-66 | a missing name, or one already stored, gives BadRequest with the registry unchanged. Otherwise it appends and returns the name with no branches. Afterwards the name is stored |
| ProjectsRoute.GetCommits | src/main/kotlin/routes/ProjectsRoute.kt:69-75 | a missing parameter gives BadRequest; otherwise OK with the project's commits on the branch |
| ProjectsRoute.GetProjects | src/main/kotlin/routes/ProjectsRoute.kt:77-95 | without a name, OK with all names in stored order; with an unknown name, NotFound; otherwise OK with the first project of that name |
| ProjectsRoute.LateProjectScenario | src/main/kotlin/routes/ProjectsRoute.kt:17-75 | create then append_commits for a project absent at start-up both answer OK, but get_commits for it on any branch returns no commits |
| ProjectsRoute.KnownProjectScenario | src/main/kotlin/routes/ProjectsRoute.kt:17-75 | for a project present at start-up, get_commits returns what its partition held on the branch followed by the appended commits on the branch |
| DownloadsRoute.GetDownloads | src/main/kotlin/routes/DownloadsRoute.kt:19-25 | a missing branch gives BadRequest; otherwise OK with exactly that branch's records |
| DownloadsRoute.CreateDownload | src/main/kotlin/routes/DownloadsRoute.kt:27-57 | a missing parameter (of five) or a syntax error gives BadRequest, and another exception escapes; in each case nothing is stored. Otherwise exactly one record is appended, built from the parameters and the decoded commits, and the result is OK |
| DownloadsRoute.DuplicateTagScenario | src/main/kotlin/routes/DownloadsRoute.kt:53-54 | two creates with one new tag both answer OK and store two records, and looking up the tag gives the first |

## Left out

- The document store and its driver are not modelled. A collection is a
  sequence in insertion order, and the natural order of query results is
  taken to be that order. Collection creation (including the unused
  `commits` collection) and store failures are left out.
- Gson and the BSON conversions (`toDocument`, `fromDocument`,
  `fromJsonObject`, `JsonParser.parseString`) are not modelled. Decoding
  takes the parser and the object-to-commit mapping as parameters. What the
  mapping does with mistyped fields is up to that parameter. Gson builds the
  Kotlin `CommitData` without its constructor, so a missing JSON field
  becomes null in a non-null field and the commit is stored without it (one
  with no `branch_name` then matches no branch filter); the model's
  `CommitData` cannot hold null, so no choice of the mapping reproduces this.
- Projects.ProjectsDatabaseService.Create: does not return the `_id` text
  that the driver generates for the inserted record, because the model has
  no document ids and no caller uses it.
- The deleted or replaced BSON document that the services return is
  modelled as the typed record it was read from.
- Coroutines, `Dispatchers.IO`, `runBlocking` and the thread-safety of the
  concurrent map are not modelled. Every operation runs sequentially.
- Application.kt (server setup, bearer authentication, the database
  connection) is not part of this model. The `authenticate` block around the
  two mutating project routes is therefore not modelled.
- Logging and the client address are not modelled. HTTP statuses are an
  enumeration.
- Kotlin's `Commits` wrapper class is a plain sequence.
- A request parameter is taken to have one value (the first).
