/**
 * The project routes: `projects/append_commits` and `/projects/create`
 * (behind bearer authentication, which is not modelled),
 * `/projects/get_commits` and `/projects`. Each handler checks its
 * parameters and decodes its input before it touches a service.
 */
module ProjectsRoute {
  import opened Wrappers
  import opened Http
  import opened Projects
  import opened Commits
  import opened CommitJson
  import Collection

  /**
   * The two services the routes share, built when the routes are loaded:
   * the registry over the stored projects, then the ledger from the
   * registry as it is at that moment.
   */
  method Startup(storedProjects: seq<ProjectData>, database: map<string, seq<CommitData>>)
    returns (projectsDatabaseService: ProjectsDatabaseService, commitsDatabaseService: CommitsDatabaseService)
    ensures fresh(projectsDatabaseService) && fresh(commitsDatabaseService)
    ensures projectsDatabaseService.projects == storedProjects
    ensures commitsDatabaseService.commitsOfEachProject.Keys == ProjectNames(storedProjects)
    ensures forall n :: n in commitsDatabaseService.commitsOfEachProject ==>
      commitsDatabaseService.commitsOfEachProject[n] == Stored(database, PartitionName(n))
  {
    projectsDatabaseService := new ProjectsDatabaseService(storedProjects);
    commitsDatabaseService := new CommitsDatabaseService(database, projectsDatabaseService);
  }

  /**
   * `projects/append_commits`: a missing parameter or a JSON syntax error
   * answers BadRequest, and another decoding exception escapes, in each case
   * with nothing stored; otherwise every decoded commit is added in array
   * order and the answer is OK, even when the project is not routed and so
   * nothing is stored.
   */
  method AppendCommits(commitsDatabaseService: CommitsDatabaseService, gson: Gson, parameters: Parameters)
    returns (response: Response)
    modifies commitsDatabaseService
    ensures !("project_name" in parameters && "commit_data_json_array" in parameters) ==>
      response == Response(BadRequest, NoBody)
      && commitsDatabaseService.commitsOfEachProject == old(commitsDatabaseService.commitsOfEachProject)
    ensures "project_name" in parameters && "commit_data_json_array" in parameters ==>
      var decoded := Decode(parameters["commit_data_json_array"], gson);
      && (decoded.SyntaxError? ==>
            response == Response(BadRequest, NoBody)
            && commitsDatabaseService.commitsOfEachProject == old(commitsDatabaseService.commitsOfEachProject))
      && (decoded.Escaped? ==>
            response == Response(Unhandled, NoBody)
            && commitsDatabaseService.commitsOfEachProject == old(commitsDatabaseService.commitsOfEachProject))
      && (decoded.Decoded? ==>
            response == Response(OK, NoBody)
            && commitsDatabaseService.commitsOfEachProject
               == AddAll(old(commitsDatabaseService.commitsOfEachProject), parameters["project_name"], decoded.commits))
  {
    if "project_name" !in parameters || "commit_data_json_array" !in parameters {
      return Response(BadRequest, NoBody);
    }
    var projectName := parameters["project_name"];
    var decoded := DecodeCommitArray(parameters["commit_data_json_array"], gson);
    if decoded.SyntaxError? {
      return Response(BadRequest, NoBody);
    }
    if decoded.Escaped? {
      return Response(Unhandled, NoBody);
    }
    var commits := decoded.commits;
    ghost var before := commitsDatabaseService.commitsOfEachProject;
    AddAllNothing(before, projectName);
    for i := 0 to |commits|
      invariant commitsDatabaseService.commitsOfEachProject == AddAll(before, projectName, commits[..i])
    {
      commitsDatabaseService.Add(projectName, commits[i]);
      assert commits[..i + 1] == commits[..i] + [commits[i]];
      AddAllTwice(before, projectName, commits[..i], [commits[i]]);
    }
    assert commits[..|commits|] == commits;
    response := Response(OK, NoBody);
  }

  /**
   * `/projects/create`: a missing name, or a name some stored project has,
   * answers BadRequest with the registry unchanged; otherwise a project of
   * that name with no branches is stored and returned. Either way a project
   * of that name is stored afterwards, so a second create of it is refused.
   */
  method CreateProject(projectsDatabaseService: ProjectsDatabaseService, parameters: Parameters)
    returns (response: Response)
    modifies projectsDatabaseService
    ensures "project_name" !in parameters ==>
      response == Response(BadRequest, NoBody) && projectsDatabaseService.projects == old(projectsDatabaseService.projects)
    ensures "project_name" in parameters && HasName(old(projectsDatabaseService.projects), parameters["project_name"]) ==>
      response == Response(BadRequest, NoBody) && projectsDatabaseService.projects == old(projectsDatabaseService.projects)
    ensures "project_name" in parameters && !HasName(old(projectsDatabaseService.projects), parameters["project_name"]) ==>
      var created := ProjectData(parameters["project_name"], []);
      response == Response(OK, ProjectBody(created))
      && projectsDatabaseService.projects == old(projectsDatabaseService.projects) + [created]
    ensures "project_name" in parameters ==> HasName(projectsDatabaseService.projects, parameters["project_name"])
  {
    if "project_name" !in parameters {
      return Response(BadRequest, NoBody);
    }
    var projectName := parameters["project_name"];
    var known := projectsDatabaseService.HasProject(projectName);
    if known {
      return Response(BadRequest, NoBody);
    }
    var created := ProjectData(projectName, []);
    CreateThenHasName(projectsDatabaseService.projects, created);
    projectsDatabaseService.Create(created);
    response := Response(OK, ProjectBody(created));
  }

  /**
   * `/projects/get_commits`: a missing parameter answers BadRequest;
   * otherwise OK with the project's commits on the branch.
   */
  method GetCommits(commitsDatabaseService: CommitsDatabaseService, parameters: Parameters)
    returns (response: Response)
    ensures !("project_name" in parameters && "branch" in parameters) ==> response == Response(BadRequest, NoBody)
    ensures "project_name" in parameters && "branch" in parameters ==>
      response == Response(OK, CommitList(CommitsOf(commitsDatabaseService.commitsOfEachProject, parameters["project_name"], parameters["branch"])))
  {
    if "project_name" !in parameters || "branch" !in parameters {
      return Response(BadRequest, NoBody);
    }
    var commits := commitsDatabaseService.GetCommitsOf(parameters["project_name"], parameters["branch"]);
    response := Response(OK, CommitList(commits));
  }

  /**
   * `/projects`: without a name, OK with the names of all stored projects in
   * stored order; with a name no project has, NotFound; otherwise OK with
   * the first project of that name.
   */
  method GetProjects(projectsDatabaseService: ProjectsDatabaseService, parameters: Parameters)
    returns (response: Response)
    ensures "project_name" !in parameters ==>
      response.status == OK && response.body.NameList?
      && |response.body.names| == |projectsDatabaseService.projects|
      && forall i :: 0 <= i < |projectsDatabaseService.projects| ==>
           response.body.names[i] == projectsDatabaseService.projects[i].name
    ensures "project_name" in parameters && !HasName(projectsDatabaseService.projects, parameters["project_name"]) ==>
      response == Response(NotFound, NoBody)
    ensures "project_name" in parameters && HasName(projectsDatabaseService.projects, parameters["project_name"]) ==>
      response.status == OK && response.body.ProjectBody? && response.body.project.name == parameters["project_name"]
      && exists i :: 0 <= i < |projectsDatabaseService.projects| && projectsDatabaseService.projects[i] == response.body.project
           && forall j :: 0 <= j < i ==> projectsDatabaseService.projects[j].name != parameters["project_name"]
  {
    if "project_name" !in parameters {
      var all := projectsDatabaseService.GetAllProjects();
      return Response(OK, NameList(Names(all)));
    }
    var result := projectsDatabaseService.Get(parameters["project_name"]);
    if result.None? {
      return Response(NotFound, NoBody);
    }
    response := Response(OK, ProjectBody(result.value));
  }

  /**
   * A project created after start-up never receives commits: creating it
   * and appending commits to it both answer OK, yet its commits on any
   * branch stay empty, because the ledger's routes were fixed at start-up.
   */
  method LateProjectScenario(
    storedProjects: seq<ProjectData>, database: map<string, seq<CommitData>>,
    gson: Gson, name: string, commitJson: string, branch: string)
    returns (created: Response, appended: Response, fetched: Response)
    requires !HasName(storedProjects, name)
    requires Decode(commitJson, gson).Decoded?
    ensures created == Response(OK, ProjectBody(ProjectData(name, [])))
    ensures appended == Response(OK, NoBody)
    ensures fetched == Response(OK, CommitList([]))
  {
    HasNameIffInNames(storedProjects, name);
    var projectsDatabaseService, commitsDatabaseService := Startup(storedProjects, database);
    created := CreateProject(projectsDatabaseService, map["project_name" := name]);
    appended := AppendCommits(commitsDatabaseService, gson, map["project_name" := name, "commit_data_json_array" := commitJson]);
    fetched := GetCommits(commitsDatabaseService, map["project_name" := name, "branch" := branch]);
  }

  /**
   * The contrast: for a project stored before start-up, the commits appended
   * to it are read back on their branch, after what its partition already
   * held on that branch.
   */
  method KnownProjectScenario(
    storedProjects: seq<ProjectData>, database: map<string, seq<CommitData>>,
    gson: Gson, name: string, commitJson: string, branch: string)
    returns (appended: Response, fetched: Response)
    requires HasName(storedProjects, name)
    requires Decode(commitJson, gson).Decoded?
    ensures appended == Response(OK, NoBody)
    ensures fetched == Response(OK, CommitList(
      Collection.Filter(Stored(database, PartitionName(name)), OnBranch(branch))
      + Collection.Filter(Decode(commitJson, gson).commits, OnBranch(branch))))
  {
    HasNameIffInNames(storedProjects, name);
    var projectsDatabaseService, commitsDatabaseService := Startup(storedProjects, database);
    ghost var routes := commitsDatabaseService.commitsOfEachProject;
    appended := AppendCommits(commitsDatabaseService, gson, map["project_name" := name, "commit_data_json_array" := commitJson]);
    AddAllThenCommitsOf(routes, name, Decode(commitJson, gson).commits, branch);
    fetched := GetCommits(commitsDatabaseService, map["project_name" := name, "branch" := branch]);
  }
}
