/** The records exchanged with the explore API (components/explore/types/explore.ts). */
module ExploreTypes {
  import opened Wrappers

  /** The four content categories. */
  datatype PromptType = Skill | Command | Prompt | Rule

  /** The category selector of the browser: one category, or the wildcard `'all'`. */
  datatype TypeFilter = All | Only(kind: PromptType)

  datatype PromptSource = Cursor | Claude

  /** One community entry. Only `name`, `description`, `kind` (the source's
      `type`) and `tags` are inspected by the pipeline; the rest is carried. */
  datatype ExplorePrompt = ExplorePrompt(
    id: string,
    name: string,
    description: Option<string>,
    kind: PromptType,
    platform: string,
    author: string,
    authorAvatar: Option<string>,
    stars: int,
    repoUrl: string,
    filePath: Option<string>,
    source: PromptSource,
    content: string,
    tags: Option<seq<string>>,
    language: Option<string>,
    githubUpdatedAt: Option<string>,
    syncedAt: string,
    createdAt: string,
    updatedAt: string)

  /** An entry together with the other versions grouped under its name; the
      versions are passed through untouched. */
  datatype ExplorePromptGroup = ExplorePromptGroup(
    prompt: ExplorePrompt,
    versions: Option<seq<ExplorePrompt>>,
    versionCount: int)

  /** The number of entries per category, plus the total. */
  datatype TypeCounts = TypeCounts(all: int, skill: int, command: int, prompt: int, rule: int)

  datatype PaginationMeta = PaginationMeta(total: int, limit: int, offset: int, hasMore: bool)

  datatype ExploreApiResponse = ExploreApiResponse(
    success: bool,
    data: seq<ExplorePromptGroup>,
    count: int,
    pagination: Option<PaginationMeta>,
    typeCounts: Option<TypeCounts>)
}
