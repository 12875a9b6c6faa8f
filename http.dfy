/** What a route handler is given and what it answers. */
module Http {
  import opened Projects
  import opened Commits
  import opened Downloads

  /** The request's parameters; a name maps to its first value. */
  type Parameters = map<string, string>

  /**
   * The answer's status. `Unhandled` stands for an exception that escapes
   * the handler, which then writes nothing.
   */
  datatype Status = OK | BadRequest | NotFound | Unhandled

  /** The payload sent with the status. */
  datatype Body =
    | NoBody
    | ProjectBody(project: ProjectData)
    | NameList(names: seq<string>)
    | CommitList(commits: seq<CommitData>)
    | DownloadList(downloads: seq<DownloadInfo>)

  datatype Response = Response(status: Status, body: Body)
}
