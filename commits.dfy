/** The processed commit record shared by the commit pipeline: the seven fields
    copied from the scraped commit information plus the cleaned `diff`. */
module Commits {
  datatype Commit = Commit(
    repo: string,
    author: string,
    username: string,
    date: string,
    message: string,
    sha: string,
    branch: string,
    diff: string)
}
