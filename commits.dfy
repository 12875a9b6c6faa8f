/**
 * The commit ledger: one `commits_of_<project>` collection per project,
 * reached through a routing table from project name to partition. The
 * table is filled once, when the service is built, from the projects the
 * registry holds at that moment; no operation adds to it afterwards.
 */
module Commits {
  import opened Wrappers
  import Collection
  import Projects

  /** Kotlin's Long, the type of the commit timestamp. */
  newtype Long = x: int | -0x8000_0000_0000_0000 <= x < 0x8000_0000_0000_0000

  /**
   * Stored as `commit_message`, `authors`, `commit_hash`, `timestamp` and
   * `branch_name`.
   */
  datatype CommitData = CommitData(
    message: string,
    authors: seq<string>,
    commitHash: string,
    commitTimestamp: Long,
    branchName: string)

  /** The filter `Filters.eq("branch_name", branch)`. */
  function OnBranch(branch: string): CommitData -> bool {
    (c: CommitData) => c.branchName == branch
  }

  /** The routing table: project name to the contents of its partition. */
  type Routes = map<string, seq<CommitData>>

  const PartitionPrefix := "commits_of_"

  /** The collection that holds a project's commits. */
  function PartitionName(project: string): string {
    PartitionPrefix + project
  }

  /**
   * Distinct projects get distinct partitions. No two routed names share a
   * `commits_of_` collection, so an add through one route never shows up in
   * another, which is why the routing table can hold each partition's
   * contents by value.
   */
  lemma PartitionNameInjective(a: string, b: string)
    ensures PartitionName(a) == PartitionName(b) ==> a == b
  {
    if PartitionName(a) == PartitionName(b) {
      assert a == PartitionName(a)[|PartitionPrefix|..];
      assert b == PartitionName(b)[|PartitionPrefix|..];
    }
  }

  /** What the database holds in a collection; one never written to is empty. */
  function Stored(database: map<string, seq<CommitData>>, collection: string): seq<CommitData> {
    if collection in database then database[collection] else []
  }

  /**
   * What `getCommitsOf` and `get` return: the commits of the project's
   * partition on the branch, in stored order; nothing for an unrouted project.
   */
  function CommitsOf(routes: Routes, project: string, branch: string): (r: seq<CommitData>)
    ensures project !in routes ==> r == []
    ensures forall c :: c in r <==> project in routes && c in routes[project] && c.branchName == branch
    ensures project in routes ==>
      forall c :: multiset(r)[c] == if c.branchName == branch then multiset(routes[project])[c] else 0
  {
    if project in routes then
      Collection.FilterContents(routes[project], OnBranch(branch));
      Collection.Filter(routes[project], OnBranch(branch))
    else []
  }

  /** The routing table after `add(project, c)` for each `c` of `commits` in turn. */
  function AddAll(routes: Routes, project: string, commits: seq<CommitData>): (r: Routes)
    ensures r.Keys == routes.Keys
  {
    if project in routes then routes[project := routes[project] + commits] else routes
  }

  /** Adding no commits changes nothing. */
  lemma AddAllNothing(routes: Routes, project: string)
    ensures AddAll(routes, project, []) == routes
  {
    if project in routes {
      assert routes[project] + [] == routes[project];
    }
  }

  /** Adding two runs of commits one after the other is adding the two runs joined. */
  lemma AddAllTwice(routes: Routes, project: string, first: seq<CommitData>, second: seq<CommitData>)
    ensures AddAll(AddAll(routes, project, first), project, second) == AddAll(routes, project, first + second)
  {
    if project in routes {
      assert routes[project] + first + second == routes[project] + (first + second);
    }
  }

  /**
   * Appending commits to a routed project's partition adds to its reads on
   * a branch exactly the appended commits of that branch, after the earlier
   * ones; for an unrouted project nothing changes.
   */
  lemma AddAllThenCommitsOf(routes: Routes, project: string, commits: seq<CommitData>, branch: string)
    ensures CommitsOf(AddAll(routes, project, commits), project, branch)
      == CommitsOf(routes, project, branch) + (if project in routes then Collection.Filter(commits, OnBranch(branch)) else [])
  {
    if project in routes {
      Collection.FilterAppend(routes[project], commits, OnBranch(branch));
    }
  }

  /** Appending to one project's partition leaves every other project's reads as they were. */
  lemma AddAllLeavesOthers(routes: Routes, project: string, commits: seq<CommitData>, other: string, branch: string)
    requires other != project
    ensures CommitsOf(AddAll(routes, project, commits), other, branch) == CommitsOf(routes, other, branch)
  {
  }

  /** There is no de-duplication: adding the same commit twice stores it twice. */
  lemma AddTwiceStoresTwice(routes: Routes, project: string, c: CommitData)
    requires project in routes
    ensures multiset(CommitsOf(AddAll(AddAll(routes, project, [c]), project, [c]), project, c.branchName))[c]
      == multiset(CommitsOf(routes, project, c.branchName))[c] + 2
  {
  }

  class CommitsDatabaseService {
    /** Project name to the contents of its `commits_of_<name>` collection. */
    var commitsOfEachProject: Routes

    /**
     * Routes every project the registry holds now to its partition, whose
     * contents are what the database already has in that collection.
     * Projects sharing a name share one partition.
     */
    constructor (database: map<string, seq<CommitData>>, projectsDatabaseService: Projects.ProjectsDatabaseService)
      ensures commitsOfEachProject.Keys == Projects.ProjectNames(projectsDatabaseService.projects)
      ensures forall n :: n in commitsOfEachProject ==> commitsOfEachProject[n] == Stored(database, PartitionName(n))
      ensures forall a, b :: a in commitsOfEachProject && b in commitsOfEachProject && a != b ==> PartitionName(a) != PartitionName(b)
    {
      var allProjects := projectsDatabaseService.GetAllProjects();
      var routes: Routes := map[];
      for i := 0 to |allProjects|
        invariant routes.Keys == Projects.ProjectNames(allProjects[..i])
        invariant forall n :: n in routes ==> routes[n] == Stored(database, PartitionName(n))
      {
        var name := allProjects[i].name;
        if name !in routes {
          routes := routes[name := Stored(database, PartitionName(name))];
        }
        assert allProjects[..i + 1] == allProjects[..i] + [allProjects[i]];
      }
      assert allProjects[..|allProjects|] == allProjects;
      commitsOfEachProject := routes;
      forall a, b | a in routes && b in routes && a != b
        ensures PartitionName(a) != PartitionName(b)
      {
        PartitionNameInjective(a, b);
      }
    }

    /** The project's commits on the branch; empty when the project is not routed. */
    method GetCommitsOf(project: string, branch: string) returns (commits: seq<CommitData>)
      ensures commits == CommitsOf(commitsOfEachProject, project, branch)
    {
      commits := CommitsOf(commitsOfEachProject, project, branch);
    }

    /**
     * Appends the commit to the project's partition; for an unrouted project
     * it does nothing and reports nothing.
     */
    method Add(project: string, commitData: CommitData)
      modifies this
      ensures commitsOfEachProject == AddAll(old(commitsOfEachProject), project, [commitData])
      ensures commitsOfEachProject.Keys == old(commitsOfEachProject.Keys)
    {
      if project in commitsOfEachProject {
        commitsOfEachProject := commitsOfEachProject[project := commitsOfEachProject[project] + [commitData]];
      }
    }

    /** The same read as `getCommitsOf`, behind a nullable type that is never null. */
    method Get(project: string, branch: string) returns (found: Option<seq<CommitData>>)
      ensures found == Some(CommitsOf(commitsOfEachProject, project, branch))
    {
      found := Some(CommitsOf(commitsOfEachProject, project, branch));
    }

    /**
     * Removes the first commit of the project's partition on the branch and
     * returns it; None, with nothing changed, when the project is unrouted
     * or has no commit on the branch.
     */
    method Delete(project: string, branch: string) returns (deleted: Option<CommitData>)
      modifies this
      ensures project !in old(commitsOfEachProject) ==> deleted == None && commitsOfEachProject == old(commitsOfEachProject)
      ensures project in old(commitsOfEachProject) ==>
        var removal := Collection.DeleteFirst(old(commitsOfEachProject)[project], OnBranch(branch));
        deleted == removal.0 && commitsOfEachProject == old(commitsOfEachProject)[project := removal.1]
      ensures commitsOfEachProject.Keys == old(commitsOfEachProject.Keys)
    {
      deleted := None;
      if project in commitsOfEachProject {
        var removal := Collection.DeleteFirst(commitsOfEachProject[project], OnBranch(branch));
        deleted := removal.0;
        commitsOfEachProject := commitsOfEachProject[project := removal.1];
      }
    }
  }
}
