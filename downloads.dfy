/**
 * The download catalog: the `downloads` collection, an append-only list of
 * release records. Nothing is validated when a record is added, and release
 * tags need not be unique; a lookup by tag gives the first match.
 */
module Downloads {
  import opened Wrappers
  import opened Commits
  import Collection

  /**
   * Stored as `release_tag`, `branch_name`, `mc_version`, `commits` and
   * `download_link`; `commits` is a snapshot of the commit records.
   */
  datatype DownloadInfo = DownloadInfo(
    releaseTag: string,
    branch: string,
    mcVersion: string,
    commits: seq<CommitData>,
    downloadLink: string)

  /** The filter `Filters.eq("release_tag", tag)`. */
  function TagIs(tag: string): DownloadInfo -> bool {
    (d: DownloadInfo) => d.releaseTag == tag
  }

  /** The filter `Filters.eq("branch_name", branch)`. */
  function BranchIs(branch: string): DownloadInfo -> bool {
    (d: DownloadInfo) => d.branch == branch
  }

  /**
   * After adding `d`, a lookup by its tag finds a record: the earlier one
   * when the tag was already stored, `d` itself otherwise.
   */
  lemma AddThenLookup(s: seq<DownloadInfo>, d: DownloadInfo)
    ensures Collection.First(s + [d], TagIs(d.releaseTag))
      == if Collection.AnyMatch(s, TagIs(d.releaseTag)) then Collection.First(s, TagIs(d.releaseTag)) else Some(d)
    ensures Collection.First(s + [d], TagIs(d.releaseTag)).Some?
  {
    var p := TagIs(d.releaseTag);
    Collection.FirstAppend(s, [d], p);
    Collection.FirstIndexUnique([d], p, 0);
  }

  /** After adding `d`, the listing of its branch is the earlier listing followed by `d`. */
  lemma AddThenList(s: seq<DownloadInfo>, d: DownloadInfo)
    ensures Collection.Filter(s + [d], BranchIs(d.branch)) == Collection.Filter(s, BranchIs(d.branch)) + [d]
  {
    Collection.FilterAppend(s, [d], BranchIs(d.branch));
  }

  /** Adding a record never changes the lookup of a tag it does not carry, nor the listing of another branch. */
  lemma AddLeavesOtherQueries(s: seq<DownloadInfo>, d: DownloadInfo, tag: string, branch: string)
    ensures tag != d.releaseTag ==> Collection.First(s + [d], TagIs(tag)) == Collection.First(s, TagIs(tag))
    ensures branch != d.branch ==> Collection.Filter(s + [d], BranchIs(branch)) == Collection.Filter(s, BranchIs(branch))
  {
    Collection.FirstAppend(s, [d], TagIs(tag));
    Collection.FilterAppend(s, [d], BranchIs(branch));
  }

  class DownloadInfoDatabaseService {
    /** The `downloads` collection, in insertion order. */
    var downloadInfos: seq<DownloadInfo>

    /** Opens the `downloads` collection with the records it already holds. */
    constructor (stored: seq<DownloadInfo>)
      ensures downloadInfos == stored
    {
      downloadInfos := stored;
    }

    /** The first record with the tag, or None when no record has it. */
    method GetDownloadInfo(tag: string) returns (info: Option<DownloadInfo>)
      ensures info.Some? <==> exists i :: 0 <= i < |downloadInfos| && downloadInfos[i].releaseTag == tag
      ensures info.Some? ==>
        exists i :: 0 <= i < |downloadInfos| && downloadInfos[i] == info.value && info.value.releaseTag == tag
          && forall j :: 0 <= j < i ==> downloadInfos[j].releaseTag != tag
      ensures info == Collection.First(downloadInfos, TagIs(tag))
    {
      info := Collection.First(downloadInfos, TagIs(tag));
    }

    /** Inserts the record as it is, whatever its branch, tag or commits. */
    method Add(downloadInfo: DownloadInfo)
      modifies this
      ensures downloadInfos == old(downloadInfos) + [downloadInfo]
    {
      downloadInfos := downloadInfos + [downloadInfo];
    }

    /** The records of the branch, in stored order; empty when there are none. */
    method GetAllOf(branch: string) returns (infos: seq<DownloadInfo>)
      ensures forall d :: d in infos <==> d in downloadInfos && d.branch == branch
      ensures forall d :: multiset(infos)[d] == if d.branch == branch then multiset(downloadInfos)[d] else 0
      ensures infos == Collection.Filter(downloadInfos, BranchIs(branch))
    {
      Collection.FilterContents(downloadInfos, BranchIs(branch));
      infos := Collection.Filter(downloadInfos, BranchIs(branch));
    }
  }
}
