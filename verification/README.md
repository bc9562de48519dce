# Synapse skill catalogue: sync, listing, creation and generation, in Dafny

Synapse is a catalogue of "skills": markdown documents with YAML front
matter. Users author skills through an HTTP API, and a sync job mirrors
the `SKILL.md` files of the GitHub repository
`ComposioHQ/awesome-claude-skills` into the same catalogue. This project
models the core of that system as pure Dafny functions over immutable
data and proves properties of it:

- **Sync (`lib/github/sync.ts`).**
  - The tree filter picks `SKILL.md` blobs (`Normalizer`).
  - A document is normalised: title, description, category inference,
    tags, trimmed body.
  - The per-path reconcile creates, updates or leaves alone, matching
    rows by their (repository, path) source identity and comparing rows
    by content hash alone (`Reconciler`).
  - The fold over all paths keeps exact counters.
  - Rows not seen in this run are archived (`Catalog`).
  - The job row records RUNNING, then SUCCESS or FAILED (`SyncJobs`).
  - The system author is found or created (`Accounts`).
- **Creation quota (`lib/tier.ts`).** Trial accounts may create three
  skills (`TierPolicy`).
- **`GET /api/skills` (`SkillsListing`).**
  - Page parameters are clamped.
  - The sort field is chosen.
  - The `where` filter is applied.
  - `skip`/`take` paging and the page count.
- **`POST /api/skills` (`SkillsCreate`).**
  - The zod schema, with its bounds and defaults.
  - The ordered checks: 401, 403 for a ban, 404, then 403 at the quota.
  - The all-or-nothing transaction: the row, its version "1.0.0" and the
    author's raised count.
- **`/api/github/sync` (`SyncRoute`).**
  - Authorisation by the cron secret or the ADMIN role comes first.
  - Then the per-address rate limit.
  - Then the run.
- **GitHub Models provider (`ModelsProvider`).**
  - The generation schema.
  - The choice of token.
  - The request that is sent.
  - A throw on a non-OK status.
  - Defaults for missing reply fields.
- **`POST /api/llm/generate-skill` (`GenerateSkillRoute`).**
  - 401, then both rate limits, then 400.
  - Then the generation.
  - The usage log is written only after the generation succeeds.

Shared pieces:

- `Wrappers` holds `Option`, `Result` and the thrown-value type.
- `Text` holds the JavaScript string operations the code relies on:
  `trim` with the ECMAScript white-space set, `split(",")[0]`,
  first-occurrence `replace`, `includes`, `toLowerCase` and UTF-16
  length.
- `Schema` holds JSON values and the zod field checks.
- `HttpRequest` holds the session user, `getIp` and the rate-limiter
  verdicts.

The model takes as parameters everything that lies outside it:

- SHA-256, `makeSlug` and the random hex suffixes;
- the clock;
- fetching a document and parsing its front matter;
- the GitHub listing;
- database faults;
- the Upstash limiter's verdict;
- the environment variables;
- the HTTP exchange with the model service;
- the database's row order.

The database is a map of rows with a source-identity index. Its
invariant is `Catalog.Valid`: fresh ids, a consistent unique index on
(repository, path), and unique slugs.

## Model

| member | source | states |
|---|---|---|
| TierPolicy.CanCreateSkill | lib/tier.ts:3-8 | a TRIAL account may create a skill exactly when it has created fewer than 3; every other tier always may |
| TierPolicy.QuotaMonotone | lib/tier.ts:3-8 | once an account is refused it stays refused as its count grows, and an allowed count stays allowed when lowered |
| TierPolicy.QuotaExamples | tests/tier.test.ts:5-13 | TRIAL with 2 is allowed, TRIAL with 3 refused, PRO and ENTERPRISE with 999 allowed |
| Normalizer.SkillPaths | lib/github/sync.ts:122-124 | the scanned paths are exactly the paths of the tree's blob nodes named `SKILL.md` at the root or after a `/`, none added and none lost |
| Normalizer.SkillPathsAppend | lib/github/sync.ts:122-124 | the filter distributes over concatenated listings, so tree order is preserved |
| Normalizer.InferCategory | lib/github/sync.ts:30-35 | "automation" iff the path mentions it; else "security" iff that; else "data" iff that; else "general": first match wins in that priority |
| Normalizer.NestedPathTitle | lib/github/sync.ts:42 | the fallback title of `dir/SKILL.md` is `dir` |
| Normalizer.RootPathTitle | lib/github/sync.ts:42 | a root `SKILL.md` has no `/SKILL.md` to strip, so its fallback title is `SKILL.md` itself |
| Normalizer.NormalizeSkill | lib/github/sync.ts:37-66 | title from `title`, else `name`, else the path with its first `/SKILL.md` removed; description from front matter, else "Imported from repo:path"; category from front matter, else inferred from the lower-cased path; tags lower-cased from the front-matter list, else [category, "claude-skill"]; compatibility ["claude"]; content the trimmed body; the commit sha recorded |
| Normalizer.CategoryIgnoresCase | lib/github/sync.ts:49-50 | without a front-matter category, two paths equal up to case get the same category |
| Normalizer.ContentDependsOnBodyOnly | lib/github/sync.ts:64 | the stored content (and so the hash) depends on the document body alone, not on the path, commit or front matter |
| Accounts.GetOrCreateSystemAuthor | lib/github/sync.ts:232-249 | the configured e-mail, else `sync-bot@synapse.local`; an existing account with it is returned unchanged; otherwise a new ADMIN/ENTERPRISE "Synapse Sync Bot" account is added, or the create throws when its id is taken |
| Accounts.SystemAuthorIdempotent | lib/github/sync.ts:232-249 | a second lookup finds the account the first returned and changes nothing |
| Accounts.IncrementCreated | app/api/skills/route.ts:165-168 | the author's `skillsCreated` rises by exactly one and no other account or field changes |
| Catalog.Archive | lib/github/sync.ts:196-205 | rows of the repository that are GitHub-synced and whose path was not touched become ARCHIVED; every other field and row is unchanged |
| Catalog.ArchivePreservesValid | lib/github/sync.ts:196-205 | archival keeps the unique constraints |
| Catalog.ArchiveScope | lib/github/sync.ts:197-201 | user-authored rows, rows of another repository and touched paths are never archived |
| Catalog.ArchiveIdempotent | lib/github/sync.ts:196-205 | archiving twice with the same touched set is archiving once |
| Reconciler.ReconcilePath | lib/github/sync.ts:133-193 | a failed read or parse errs and writes no row; with no row for (repo, path) the system author is looked up or created first, and its failure is the path's error; otherwise the path is Created exactly when its slug (stem + "-" + suffix) is free, as a new PUBLISHED synced row with the content's hash owned by that author, and the users are the lookup's; with a row whose hash differs, only that row is rewritten; with an equal hash nothing is written; no iteration adds or removes a version row |
| Reconciler.CreateSynced | lib/github/sync.ts:150-171 | the system author is looked up or created before the insert, and its failure is an error with nothing changed; the row is inserted under that author exactly when its slug is free, otherwise an error that keeps the catalogue; version rows are untouched |
| Reconciler.StableSlug | lib/github/sync.ts:138-139 | the slug of the title, or, when that is empty, the slug of the path with its `/SKILL.md` removed |
| Reconciler.ChangedHashIsUpdate | lib/github/sync.ts:172-186 | a differing stored hash is an update of that same row that keeps its slug and author, republishes it and stores the new hash |
| Reconciler.UnchangedStaysArchived | lib/github/sync.ts:172-188 | an equal hash writes nothing, so a row archived earlier stays archived when its unchanged document reappears |
| Reconciler.ReconcilePathKeepsOtherRows | lib/github/sync.ts:141-186 | one iteration writes no row other than the one with the path's source identity or the one it creates |
| Reconciler.ReconcilePathKeepsSync | lib/github/sync.ts:132-194 | an iteration never breaks another path's synchronisation (row present with the current hash) |
| Reconciler.ReconcilePathSyncsPath | lib/github/sync.ts:150-190 | a path whose iteration does not err ends up with a row holding its current hash |
| Reconciler.Record | lib/github/sync.ts:171-192 | an error raises only `errorCount`; any other outcome adds the path to the touched set and raises exactly the counter of its kind |
| Reconciler.ReconcileAll | lib/github/sync.ts:126-194 | the version table is unchanged by the loop; the four outcome counters add up to the number of paths; the catalogue grows by one row per import; only scanned paths are touched, and all of them when nothing erred |
| Reconciler.TouchedPlusErroredIsScanned | lib/github/sync.ts:130-194 | with distinct paths, touched + errors = scanned |
| Reconciler.ReconcileAllKeepsSync | lib/github/sync.ts:132-194 | a synchronised path stays synchronised through the rest of the loop |
| Reconciler.ErrorFreeLoopSyncsAll | lib/github/sync.ts:132-194 | after a loop without errors every scanned path is synchronised |
| Reconciler.InSyncStepIsNoop | lib/github/sync.ts:172-190 | a step on a synchronised path writes nothing and counts as a no-op |
| Reconciler.InSyncLoopIsNoop | lib/github/sync.ts:132-194 | a loop over synchronised paths writes nothing and counts no import, update or error |
| Reconciler.ReconcileAllKeepsForeignRows | lib/github/sync.ts:141-186 | the loop never writes a row not sourced from the synced repository |
| Reconciler.ArchiveKeepsSync | lib/github/sync.ts:196-205 | archival changes statuses only, so synchronised paths stay synchronised |
| SyncJobs.LogOf | lib/github/sync.ts:225 | an Error's message, or "Unknown sync error" for any other thrown value |
| SyncJobs.RunSync | lib/github/sync.ts:105-230 | one job row is appended and earlier ones kept; it ends SUCCESS iff the run returns a report, and FAILED otherwise with the error's message or "Unknown sync error" as its log; a listing failure writes no skill and no user; without job-level faults the run succeeds; the report's counters are the job's and `scanned` is the number of paths; only scanned paths are touched, and all of them when none erred; synced rows of the repository whose path was not scanned end ARCHIVED; after a listing, the touched set and users are the loop's, the catalogue is the loop's archived with the loop's touched set (so a listed path that erred is archived too and every touched row keeps its status), or the loop's unarchived when archival throws, and the report's counters are the loop's; a throw of the archival pass or of the SUCCESS update is re-thrown as the run's result, so the job ends FAILED with its log line; the sync leaves the version table as it was |
| SyncJobsProperties.SecondPassIsNoop | lib/github/sync.ts:132-205 | after an error-free loop and its archival, a loop over the same paths writes nothing, counts nothing and touches the same paths |
| SyncJobsProperties.PassSyncsAll | lib/github/sync.ts:132-205 | after an error-free loop every scanned path is touched and, archival included, synchronised |
| SyncJobsProperties.RunSyncIdempotent | lib/github/sync.ts:105-230 | a second run over the same paths and documents after an error-free one succeeds with 0 imported, 0 updated, 0 errors and leaves the catalogue and users unchanged |
| SyncJobsProperties.RunSyncCountsEveryPath | lib/github/sync.ts:122-218 | with distinct paths, a successful run's touched paths plus `errorCount` equal `scanned` |
| SyncJobsProperties.RunSyncKeepsForeignRows | lib/github/sync.ts:141-205 | a run, failed or not, never changes a user-authored row or a row of another repository |
| SyncJobsProperties.RunSyncKeepsEarlierJobs | lib/github/sync.ts:106-227 | earlier job rows are never rewritten |
| HttpRequest.GetIp | app/api/github/sync/route.ts:6-9 | "unknown" iff the header is absent; otherwise the trimmed text before its first comma (the generate-skill route's `getIp` is the same function) |
| HttpRequest.GetIpFirstHop | app/api/github/sync/route.ts:6-9 | a bare first entry of `x-forwarded-for` is the address, whatever follows the first comma |
| HttpRequest.GetIpEmptyHeader | app/api/github/sync/route.ts:6-9 | an absent header gives "unknown" but an empty one gives "" (`??` keeps the empty string) |
| HttpRequest.Enforce | lib/rate-limit.ts:35-49 | with no limiter configured every call succeeds; otherwise the limiter's verdict for the key |
| SyncRoute.IsCronAuthorized | app/api/github/sync/route.ts:14-16 | authorised iff the secret is set and non-empty and the header is exactly "Bearer " + secret |
| SyncRoute.HandleSync | app/api/github/sync/route.ts:11-29 | 403 iff neither cron nor ADMIN, before any key is charged and with nothing changed; then the key "sync:" + address is charged, 429 iff refused; only then the run: 200 with its report, or 500 when it throws |
| SyncRoute.ForbiddenStartsNoJob | app/api/github/sync/route.ts:18-20 | a forbidden request creates no job row |
| SyncRoute.EmptySecretNeverAuthorizes | app/api/github/sync/route.ts:16 | an unset or empty secret authorises no header |
| SyncRoute.AdmittedStartsOneJob | app/api/github/sync/route.ts:18-28 | an authorised, unthrottled request always appends exactly one job row |
| Text.Trim | app/api/skills/route.ts:32-34 | `trim()`: the infix left after dropping ECMAScript white space at both ends, which itself neither starts nor ends with white space (also the sync's trimmed body and `getIp`) |
| SkillsListing.ParsePagination | app/api/skills/route.ts:21-26 | page ≥ 1 and 1 ≤ pageSize ≤ 50, each the allowed value nearest the one requested; absent parameters give page 1 of 20 |
| SkillsListing.ParsePaginationFixesValid | app/api/skills/route.ts:21-26 | in-range parameters come back unchanged |
| SkillsListing.TotalPages | app/api/skills/route.ts:90 | the fewest pages of pageSize rows that hold all `total` rows |
| SkillsListing.PageOf | app/api/skills/route.ts:67-68 | at most pageSize rows, the slice after the skipped pages, empty when the skip passes the end |
| SkillsListing.PagesThroughIsPrefix | app/api/skills/route.ts:67-68 | pages 1..k together are the first k·pageSize rows |
| SkillsListing.PagesCoverRows | app/api/skills/route.ts:67-90 | pages 1..totalPages together are exactly the matching rows in order, and every later page is empty |
| SkillsListing.OrderFor | app/api/skills/route.ts:36 | "popular" sorts by downloads, "rating" by rating, anything else by creation time; always descending |
| SkillsListing.UnknownSortIsNewest | app/api/skills/route.ts:36-61 | an absent sort is "newest", and every value other than "popular" and "rating" gives the same newest-first order |
| SkillsListing.Filter | app/api/skills/route.ts:32-34 | a parameter filters iff present and non-blank after trimming, and then by its trimmed value |
| SkillsListing.FilterIgnoresPadding | app/api/skills/route.ts:32-34 | a parameter that is already trimmed filters the same as its padded form |
| SkillsListing.Listed | app/api/skills/route.ts:38-53 | the `where` clause: public, PUBLISHED, and each present filter (q in title, description or tags; category up to case; compatibility; any of the tags); its properties are the lemmas below |
| SkillsListing.CategoryCaseIrrelevant | app/api/skills/route.ts:50 | the letter case of a row's category does not change whether it is listed |
| SkillsListing.Matches | app/api/skills/route.ts:38-53 | a row is returned iff it is among the rows and passes the `where` clause |
| SkillsListing.MatchesAppend | app/api/skills/route.ts:38-68 | the selection keeps the database's order and every repeated row: a listing split in two is selected part by part |
| SkillsListing.MatchesOne | app/api/skills/route.ts:38-53 | one row is selected exactly when the `where` clause holds of it |
| SkillsListing.ListSkills | app/api/skills/route.ts:28-93 | page and pageSize are the parsed (clamped) parameters; the items are exactly that page (`skip`/`take`) of the matching rows in the requested order; `total` counts the matching rows; totalPages is the ceiling |
| SkillsListing.OnlyPublicPublishedListed | app/api/skills/route.ts:39-40 | draft, archived and private rows are never listed |
| SkillsListing.BlankFiltersListAllPublished | app/api/skills/route.ts:32-53 | without filters, or with blank ones, exactly the public PUBLISHED rows are listed |
| SkillsListing.FiltersNarrow | app/api/skills/route.ts:41-52 | dropping any filter keeps every listed row listed |
| Schema.StringArray | app/api/skills/route.ts:15-16 | an absent key gives the default; an accepted array holds at most the maximum of bounded strings; every such array is accepted as itself |
| Schema.DefaultedInt | lib/llm/githubModelsProvider.ts:10 | an absent key gives the default; a present one is accepted iff it is a whole number within the bounds |
| SkillsCreate.ValidateCreate | app/api/skills/route.ts:10-19 | an accepted body is an object whose title, description, content and category are the given strings within their bounds, with tags and compatibility within theirs; a body that is not an object is refused with the key ""; a refused body names at least one key |
| SkillsCreate.ValidateCreateNamesRequired | app/api/skills/route.ts:10-14 | a refused object names title, description, content or category exactly when that key is missing or not a string within its bounds |
| SkillsCreate.ValidateCreateNamesOptional | app/api/skills/route.ts:15-18 | a refused object names tags, compatibility, isPublic or status exactly when the key is present with a value of the wrong shape; an absent optional key is never named |
| SkillsCreate.ValidateCreateOptionalKeys | app/api/skills/route.ts:15-18 | present optional keys hold the accepted values; absent ones default to no tags, ["claude"], public, PUBLISHED |
| SkillsCreate.ValidateEncodeRoundTrip | app/api/skills/route.ts:10-19 | every input within the bounds, sent as a body, is accepted as itself |
| SkillsCreate.DefaultsApplied | app/api/skills/route.ts:15-18 | a body with only the four required strings gets every default |
| SkillsCreate.StatusNamesRoundTrip | app/api/skills/route.ts:18 | the status names and the statuses correspond one to one |
| SkillsCreate.Gate | app/api/skills/route.ts:96-115 | 401 iff not signed in; 403 iff banned, or known and over quota; 404 iff not banned and unknown; passes iff signed in, not banned, known and under quota |
| SkillsCreate.UserSkill | app/api/skills/route.ts:132-147 | the stored row is user-authored with no source identity; tags and compatibility are lower-cased element by element; slug, title, description, content, category, status, isPublic, the content hash and the author are copied; publishedAt is set iff PUBLISHED |
| SkillsCreate.Commit | app/api/skills/route.ts:131-171 | one new row under a fresh id and no other row changed; its version appended with the same content and hash; the author's count raised by one |
| SkillsCreate.PostSkill | app/api/skills/route.ts:95-174 | a refused gate returns its status; a non-JSON body 500; an invalid one 400 with the failing keys; a taken slug 500; otherwise 201 with the commit; anything but 201 changes nothing |
| SkillsCreate.PostKeepsTrialQuota | app/api/skills/route.ts:110-115 | creation never takes a TRIAL account past 3 skills |
| SkillsCreate.GateOrder | app/api/skills/route.ts:96-117 | a request refused by the gate gets the same response whatever its body |
| ModelsProvider.ValidateGenerate | lib/llm/githubModelsProvider.ts:7-14 | an accepted body has a prompt of 10..4000, an allowed model, a whole token budget of 128..2000 and a temperature in [0, 1], with absent keys defaulted to gpt-4o-mini, 800, 0.3, PLATFORM and no BYOK token, and present keys holding exactly the accepted values; a body that is not an object is refused with the key "" |
| ModelsProvider.ValidateGenerateNamesFailures | lib/llm/githubModelsProvider.ts:7-10 | a refused object names the prompt exactly when it is missing or out of bounds, and the model or token budget exactly when present and refused |
| ModelsProvider.ValidateGenerateNamesOptional | lib/llm/githubModelsProvider.ts:11-13 | a refused object names temperature, tokenMode or byokToken exactly when present with a value the schema refuses |
| ModelsProvider.ValidateGenerateEncodeRoundTrip | lib/llm/githubModelsProvider.ts:7-14 | every input within the bounds, sent as a body, is accepted as itself |
| ModelsProvider.FractionalMaxTokensRefused | lib/llm/githubModelsProvider.ts:10 | a fractional token budget is refused even within the bounds |
| ModelsProvider.PromptAloneGetsDefaults | lib/llm/githubModelsProvider.ts:7-14 | a prompt alone is accepted with every default |
| ModelsProvider.ResolveToken | lib/llm/githubModelsProvider.ts:30-40 | BYO mode with a non-empty own token uses it; otherwise the environment token when set and non-empty; otherwise the throw "GITHUB_TOKEN is not configured"; a resolved token is never empty |
| ModelsProvider.PlatformModeIgnoresByok | lib/llm/githubModelsProvider.ts:31-33 | in PLATFORM mode a token in the body has no effect |
| ModelsProvider.BuildRequest | lib/llm/githubModelsProvider.ts:45-67 | the request carries the token, the model, the fixed system prompt then the user's prompt, the token budget and the temperature |
| ModelsProvider.Generate | lib/llm/githubModelsProvider.ts:42-80 | the token's throw comes first and nothing is sent; transport and body-parse throws propagate; a non-OK status throws an Error; an OK reply yields the first choice's content or "", and the usage counts or 0 |
| ModelsProvider.FirstContent | lib/llm/githubModelsProvider.ts:76 | the first choice's message content when the whole optional chain is present, and "" when any link (choices, a first choice, its message, its content) is missing |
| ModelsProvider.NatToDecimal | lib/llm/githubModelsProvider.ts:71 | the status is rendered as decimal digits without a leading zero that denote its value |
| ModelsProvider.NotOkThrows | lib/llm/githubModelsProvider.ts:69-72 | a non-OK status throws "GitHub Models error (status): text" |
| ModelsProvider.EmptyReplyDefaults | lib/llm/githubModelsProvider.ts:74-79 | a reply without choices or usage is the generation ("", 0, 0) |
| GenerateSkillRoute.HandleGenerate | app/api/llm/generate-skill/route.ts:12-49 | 401 iff not signed in, before any key is charged; both keys "llm:ip:…" and "llm:user:…" charged, 429 iff either refuses; 400 with the failing keys; a throwing generation is a 500 and logs nothing; 200 returns the generation and appends exactly one usage row with the user, endpoint, model and token counts |
| GenerateSkillRoute.LogGrowsOnlyOnSuccess | app/api/llm/generate-skill/route.ts:36-48 | the usage log only grows, by at most one row, and does so exactly on 200, for the caller and this endpoint |
| GenerateSkillRoute.UnauthorizedIgnoresEverythingElse | app/api/llm/generate-skill/route.ts:13-16 | a signed-out request gets the same response whatever the limiters, body and model service |
| GenerateSkillRoute.NoLimitersNeverThrottle | app/api/llm/generate-skill/route.ts:20-27 | without configured limiters nothing is charged and nothing is throttled |
| GenerateSkillRoute.MissingPlatformTokenFails | app/api/llm/generate-skill/route.ts:36-46 | PLATFORM mode without a server token fails with 500 and logs nothing |

## Left out

- Network I/O, gray-matter, SHA-256, `makeSlug`, `crypto.randomBytes`,
  Upstash and the clock become parameters. They are function values, a
  listing result, fault inputs and an instant. Their own behaviour is not
  modelled.
- Concurrency is left out. Two syncs, or two creations racing on the
  quota or on a slug, are not modelled; each request is one atomic step.
- `toLowerCase` is modelled on ASCII letters only. Prisma's
  case-insensitive `contains` and `equals` are modelled the same way.
- SkillsListing.ParsePagination: it takes integer parameters. `Number()`
  of a non-numeric or fractional query string (NaN, `1.5`) is not
  modelled.
- ModelsProvider.ValidateGenerate: `temperature` is checked as an exact
  decimal. Floating-point rounding of JSON numbers is not modelled.
- Int32 overflow of `skillsCreated` and of the counters is not modelled.
  The counters are unbounded naturals.
- Database faults other than these two are not modelled: a taken slug
  on create, and a taken id when the system author is created. Row
  rewrites and archival are assumed not to fail row by row.
- Faults in the sync's job-level steps (the listing, the archival
  `updateMany` and the finishing update) are modelled as inputs. A
  failure of the initial job `create`, or of the FAILED update inside the
  `catch`, is not modelled.
- The sync writes no SkillVersion row, on import or on update
  (lib/github/sync.ts:150-188). Among the modelled routes only
  `POST /api/skills` appends one. The PATCH route of
  app/api/skills/[idOrSlug]/route.ts, which is not modelled, appends one
  per update (lines 115-124).
- Fallback tags are `[category, "claude-skill"]` with the final category,
  which is the front-matter category when that is a string
  (lib/github/sync.ts:49-54).
- Reconciler.NewSyncedRecord: a synced row is stored public. The sync's
  `create` does not set `isPublic`; the value is the database schema's
  default, which is not part of this model.
- A truncated Git tree response is not modelled. The listing is taken as
  complete.
- A reply from the model service that does not match its declared
  TypeScript type is not modelled. The reply is modelled with optional
  fields of the declared types.
- A failure of the usage-log `create` after a successful generation is
  not modelled. It would turn the 200 into a 500 after the generation.
- The database's row order is the parameter `sorted`. It maps the
  requested order to the rows, and the model does not define the
  orderings themselves.
- The `select` projection of the listing is not modelled. Items are whole
  rows.
- The response bodies' error texts are not modelled. The statuses and the
  failing keys of `safeParse` are.
- Authentication (`getSession`, the JWT callbacks) is an input. The
  session user carries the id, role and ban flag stored in the token.
- The other routes and the UI pages are not part of this model.
