/** A branch of a project, embedded in the project's record. */
module BranchData {
  /** `name` is stored as `branch_name`, `mcVersion` as `mc_versions`. */
  datatype BranchInfo = BranchInfo(name: string, mcVersion: string)
}
