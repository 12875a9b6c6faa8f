/** The download routes: `/downloads` and `downloads/create`. */
module DownloadsRoute {
  import opened Wrappers
  import opened Http
  import opened Downloads
  import opened CommitJson
  import Collection

  /** `downloads/create` needs all five of these; they are checked in this order. */
  predicate HasCreateParameters(parameters: Parameters) {
    && "branch_name" in parameters
    && "release_tag" in parameters
    && "mc_version" in parameters
    && "download_link" in parameters
    && "commits" in parameters
  }

  /**
   * `/downloads`: without a branch, BadRequest; otherwise OK with the
   * records of that branch, in stored order.
   */
  method GetDownloads(downloadInfoDatabaseService: DownloadInfoDatabaseService, parameters: Parameters)
    returns (response: Response)
    ensures "branch_name" !in parameters ==> response == Response(BadRequest, NoBody)
    ensures "branch_name" in parameters ==>
      response.status == OK && response.body.DownloadList?
      && (forall d :: d in response.body.downloads <==>
            d in downloadInfoDatabaseService.downloadInfos && d.branch == parameters["branch_name"])
      && response.body.downloads == Collection.Filter(downloadInfoDatabaseService.downloadInfos, BranchIs(parameters["branch_name"]))
  {
    if "branch_name" !in parameters {
      return Response(BadRequest, NoBody);
    }
    var infos := downloadInfoDatabaseService.GetAllOf(parameters["branch_name"]);
    response := Response(OK, DownloadList(infos));
  }

  /**
   * `downloads/create`: a missing parameter or a JSON syntax error in
   * `commits` answers BadRequest, and another decoding exception escapes,
   * in each case with nothing stored; otherwise exactly one record, built
   * from the parameters and the decoded commits, is appended, with no check
   * that its tag is new, and the answer is OK.
   */
  method CreateDownload(downloadInfoDatabaseService: DownloadInfoDatabaseService, gson: Gson, parameters: Parameters)
    returns (response: Response)
    modifies downloadInfoDatabaseService
    ensures !HasCreateParameters(parameters) ==>
      response == Response(BadRequest, NoBody)
      && downloadInfoDatabaseService.downloadInfos == old(downloadInfoDatabaseService.downloadInfos)
    ensures HasCreateParameters(parameters) ==>
      var decoded := Decode(parameters["commits"], gson);
      && (decoded.SyntaxError? ==>
            response == Response(BadRequest, NoBody)
            && downloadInfoDatabaseService.downloadInfos == old(downloadInfoDatabaseService.downloadInfos))
      && (decoded.Escaped? ==>
            response == Response(Unhandled, NoBody)
            && downloadInfoDatabaseService.downloadInfos == old(downloadInfoDatabaseService.downloadInfos))
      && (decoded.Decoded? ==>
            response == Response(OK, NoBody)
            && downloadInfoDatabaseService.downloadInfos == old(downloadInfoDatabaseService.downloadInfos) + [
                 DownloadInfo(parameters["release_tag"], parameters["branch_name"], parameters["mc_version"],
                              decoded.commits, parameters["download_link"])])
  {
    if !HasCreateParameters(parameters) {
      return Response(BadRequest, NoBody);
    }
    var decoded := DecodeCommitArray(parameters["commits"], gson);
    if decoded.SyntaxError? {
      return Response(BadRequest, NoBody);
    }
    if decoded.Escaped? {
      return Response(Unhandled, NoBody);
    }
    var created := DownloadInfo(parameters["release_tag"], parameters["branch_name"], parameters["mc_version"],
                                decoded.commits, parameters["download_link"]);
    downloadInfoDatabaseService.Add(created);
    response := Response(OK, NoBody);
  }

  /**
   * Two creates with the same tag both succeed and store two records; a
   * lookup of the tag then gives the first of them.
   */
  method DuplicateTagScenario(stored: seq<DownloadInfo>, gson: Gson, first: Parameters, second: Parameters)
    returns (one: Response, two: Response, found: Option<DownloadInfo>, count: nat)
    requires HasCreateParameters(first) && HasCreateParameters(second)
    requires first["release_tag"] == second["release_tag"]
    requires !Collection.AnyMatch(stored, TagIs(first["release_tag"]))
    requires Decode(first["commits"], gson).Decoded? && Decode(second["commits"], gson).Decoded?
    ensures one == Response(OK, NoBody) && two == Response(OK, NoBody)
    ensures count == |stored| + 2
    ensures found == Some(DownloadInfo(first["release_tag"], first["branch_name"], first["mc_version"],
                                              Decode(first["commits"], gson).commits, first["download_link"]))
  {
    var downloadInfoDatabaseService := new DownloadInfoDatabaseService(stored);
    one := CreateDownload(downloadInfoDatabaseService, gson, first);
    ghost var afterOne := downloadInfoDatabaseService.downloadInfos;
    AddThenLookup(stored, afterOne[|stored|]);
    two := CreateDownload(downloadInfoDatabaseService, gson, second);
    AddThenLookup(afterOne, downloadInfoDatabaseService.downloadInfos[|afterOne|]);
    found := downloadInfoDatabaseService.GetDownloadInfo(first["release_tag"]);
    count := |downloadInfoDatabaseService.downloadInfos|;
  }
}
