# repoharvester, modelled in Dafny

repoharvester lists the repositories of a GitHub user or organisation and
clones each one. It then runs `git shortlog` on every clone, once for authors
and once for committers, and writes two reports:

- the deduplicated e-mail addresses, one per line;
- a JSON document that files every address by repository and by e-mail
  domain, with the role (`Author`, `Committer` or `Author+Committer`) the
  address played there.

The program is one Go file whose stages are goroutines connected by channels:

1. fetch the listing pages, following the `Link` header;
2. decode and fork-filter the records;
3. size-filter and clone;
4. scan the shortlogs;
5. deduplicate the addresses and group them by repository;
6. write the reports.

This model lifts the sequential logic out of that plumbing and runs the stages
one after another over sequences:

- **Link-header readers.** `get_next_link` and `get_total_pages`, in
  `link_header.dfy`, with a round trip against the `<url>; rel="name"` entry
  format of section 3 of RFC 8288.
- **Stage 1 walk.** The pagination walk with its retry counter, in
  `fetcher.dfy` and `retry.dfy`.
- **Stage 2 filter.** The fork filter and the per-body decode loop, in
  `repos.dfy`.
- **Stage 3 filter.** The size filter and the local path of a clone, in
  `repos.dfy`.
- **Email slice.** The slice that extracts an address from a shortlog line,
  in `shortlog.dfy`. It panics on an empty line and on a line ending in `<`.
- **Stage 5 folds.** `emails_dedup` and `emails_by_repo`, in
  `aggregate.dfy`, with the role masks of `roles.dfy`.
- **Reports.** `create_output_json` (domain split, sentinels, labels and the
  two nested maps) in `report.dfy`, and `create_output_file` in
  `address_file.dfy`.
- **Logger.** `Logger.set_level` as a class whose method rewires its fields,
  in `logger.dfy`.
- **The whole pipeline.** `pipeline.dfy` composes stages 2–5. Its theorems
  say that the grouped role map and the deduplicated addresses do not depend
  on the order in which the concurrent stages deliver their items.

A Go panic is modelled as the value `Panic` of `Outcome`, not as a
precondition.

The environment is given as parameters:

- **HTTP server.** `server(url, i)` is the reply to attempt `i`.
- **Decoder output.** A JSON body is the sequence of decoder results.
- **Clone result.** `cloneOk(r)` says whether `git clone` succeeded.
- **Shortlog output.** `shortlog(repo, role)` is the output of one shortlog
  run.
- **File writes.** `writes(i)` is the result of write attempt `i`.

Go's map iteration order is left open. A method that walks a map chooses each
next key with `:|`, and it returns the order it took as a ghost value.

## Model

| member | source | states |
|---|---|---|
| GoStrings.IndexOf | repoharvester.go:377 | the first occurrence of the separator, or `None` exactly when the string contains none |
| GoStrings.SplitJoin | repoharvester.go:377 | `strings.Split` loses nothing: joining the pieces with the separator rebuilds the input |
| GoStrings.Split | repoharvester.go:377 | `strings.Split` gives at least one piece, and no piece contains the separator |
| GoStrings.LastIndexOfSpec | repoharvester.go:815 | `strings.LastIndex` returns -1 exactly when the character is absent, and no later index holds it |
| LinkHeader.FirstWithSuffix | repoharvester.go:378-379 | the index of the first entry ending in the suffix; all earlier entries do not end in it; `None` exactly when no entry does |
| LinkHeader.FindEntry | repoharvester.go:375-385 | the scan loop computes `FindLink`, which takes the first entry of the split first `Link` value that `FirstWithSuffix` selects |
| LinkHeader.StripBrackets | repoharvester.go:381 | `u[1:len(u)-1]` succeeds exactly when `len(u) >= 2`, and then drops exactly the first and the last character |
| LinkHeader.GetNextLink | repoharvester.go:374-387 | with no "next" entry it returns false and leaves `next_url` unchanged; with one, it returns true and `next_url` is that entry's URL with its brackets removed |
| LinkHeader.LastCharPages | repoharvester.go:399-404 | as written, the page count is read from the one character before `>`, so it is always below 10 |
| LinkHeader.MultiByteLastChar | repoharvester.go:400 | the slice is taken on characters: the URL part `<x5é` reads as 5 pages, where Go's byte slice takes the first byte of `é` and fails to parse |
| LinkHeader.TotalPages | repoharvester.go:389-413 | a positive count is kept; when no "last" entry is found the count becomes 1; otherwise it is below 10 |
| LinkHeader.GetTotalPages | repoharvester.go:389-413 | the loop of `get_total_pages` computes `TotalPages` |
| LinkHeader.SplitFormatted | repoharvester.go:377 | splitting a `Link` value built from well-formed links at `", "` gives back exactly its entries |
| LinkHeader.UrlPartFormatted | repoharvester.go:380-381 | the part of an entry before `"; "` is `<url>`, and removing the brackets gives the URL |
| LinkHeader.SuffixIffRel | repoharvester.go:379 | a well-formed entry ends with `"name"` exactly when its relation is `name` |
| LinkHeader.FirstSuffixIsFirstRel | repoharvester.go:378-383 | the first entry ending in `"name"` is the first link whose relation is `name` |
| LinkHeader.NextLinkOfFormatted | repoharvester.go:374-387 | round trip: on a header carrying well-formed links, `get_next_link` finds exactly the URL of the first "next" link, and finds nothing when there is none |
| LinkHeader.LastEntryOfFormatted | repoharvester.go:394-407 | on such a header, the entry `get_total_pages` reads is the first "last" link |
| LinkHeader.TotalPagesOfEntry | repoharvester.go:398-404 | as written, the page count depends only on the URL's final character: its digit value, or a panic |
| LinkHeader.TotalPagesReadsLastDigit | repoharvester.go:400-404 | as written, a "last" URL ending in the number N yields `N % 10` pages |
| LinkHeader.TwelvePagesAsWritten | repoharvester.go:400-404 | as written, a listing whose "last" link is page 12 reports 2 pages |
| LinkHeader.ParseDecimalOfDecimal | repoharvester.go:400 | base-10 parsing inverts the decimal spelling of a number |
| LinkHeader.QueryPages | repoharvester.go:398-404 | corrected: a count is read exactly when the bracketed URL has a `page` query parameter whose value is a non-empty run of decimal digits denoting a number below 2^32, and it is that number |
| LinkHeader.TotalPagesFixed | repoharvester.go:389-413 | the corrected reader keeps a positive count and gives 1 when there is no "last" entry |
| LinkHeader.GetTotalPagesFixed | repoharvester.go:389-413 | the corrected loop computes `TotalPagesFixed` |
| LinkHeader.ParamValueAfter | repoharvester.go:400 | corrected: the value of `page` is found after any other query parameters and ends at the next `&` |
| LinkHeader.QueryPagesOfNumber | repoharvester.go:400-404 | corrected: the bracketed URL `<path?…page=N…>` yields N for every N below 2^32 |
| LinkHeader.TotalPagesFixedReadsNumber | repoharvester.go:400-404 | corrected: a "last" URL `path?…page=N…`, with any other parameters before and after `page`, yields N pages for every N below 2^32 |
| LinkHeader.TwelvePagesCorrected | repoharvester.go:400-404 | corrected: the same listing reports 12 pages |
| LinkHeader.PerPageAsWritten | repoharvester.go:400-404 | as written, a listing whose "last" link is `path?page=12&per_page=100` reports 0 pages |
| LinkHeader.PerPageCorrected | repoharvester.go:400-404 | corrected: the same listing reports 12 pages |
| Retry.FetchAttempts | repoharvester.go:472-485 | the request is tried at most 4 times and stops at the first success; it fails exactly when all 4 attempts fail, and only after the 4th |
| Retry.WriteAttempts | repoharvester.go:892-907 | the file write is tried at most 4 times and stops at the first success; it returns the error exactly when all 4 attempts fail |
| Fetcher.FirstResponse | repoharvester.go:472-485 | the first of the four attempts that gets a response; `None` exactly when all four fail |
| Fetcher.ReplyAtIsSomeAttempt | repoharvester.go:472-485 | the reply the walk uses is a transport error exactly when all four attempts fail; otherwise it is the reply to one of the four attempts |
| Fetcher.Fetch | repoharvester.go:472-485 | the retry loop returns exactly that reply |
| Fetcher.VisitPage | repoharvester.go:472-505 | one visit fails exactly when the fetch fails; it panics before forwarding the body exactly when the page-count reader panics; otherwise it ends, panics after forwarding, or continues with the "next" URL, exactly as the link reader says |
| Fetcher.VisitOnce | repoharvester.go:472-505 | the loop body computes `VisitPage` |
| Fetcher.WalkFollowsLinks | repoharvester.go:452-508 | the walk starts at the seed and requests at most one URL per page of budget; it forwards each fetched page's body in order; each requested page links to the next one requested; a walk that ends normally ends on a page with no "next" link |
| Fetcher.WalkEnds | repoharvester.go:472-505 | a walk that ends on a failed fetch ends on a URL whose four attempts all failed, with no body forwarded for it; a walk that ends in a panic ends on a page where the page-count reader panicked before its body was forwarded, or where the link reader panicked after; a walk that runs out of budget forwarded one body per page |
| Fetcher.TotalPagesSticky | repoharvester.go:391-393 | once a positive page count is recorded, the rest of the walk does not change it |
| Fetcher.TotalPagesKeepsPositive | repoharvester.go:391-393 | the reader as written returns a positive count unchanged, so `TotalPagesSticky` applies to the walk the source performs |
| Fetcher.FetchPages | repoharvester.go:415-511 | the loop of `get_repos_from_github` produces the bodies, end and page count of `WalkFrom` |
| Repos.ForwardRecords | repoharvester.go:579-590 | the records forwarded from one decoded array are exactly those with `!(Fork && fork_filter)`, in order |
| Repos.ParseGithubResponse | repoharvester.go:566-593 | the decode loop of one body produces `ParseBody`: the forwarded records, the arrays completed, and whether a decode error cut the body short |
| Repos.Accepted | repoharvester.go:566-578 | the number of arrays decoded before the first error; all of them are well formed, and the next one is the error |
| Repos.ParseBodyForwards | repoharvester.go:566-593 | a body forwards exactly the fork-filtered records of the arrays before the first decode error, in order; it completes that many arrays, and it counts as failed exactly when an error cut it short |
| Repos.NoForkFilterForwardsAll | repoharvester.go:580 | with the fork filter off, every record is forwarded |
| Repos.Cloned | repoharvester.go:693 | a forwarded clone equals the received record except that `local_path` is `Join(working_dir, Name)` |
| Repos.JoinPath | repoharvester.go:693 | `filepath.Join` without its `Clean` step: an empty element is dropped, otherwise the two are joined with one `/` |
| Repos.JoinPathBase | repoharvester.go:693 | the local path ends in the repository name: the text after its last `/` is the name, for any name that is one non-empty path element |
| Repos.GitOpsClone | repoharvester.go:643-705 | the clone loop over the received records computes `CloneAll` |
| Repos.CloneAllCounts | repoharvester.go:643-705 | every record is counted once, as completed or as an error; completed equals clones forwarded plus records skipped by size |
| Repos.CloneAllForwards | repoharvester.go:643-705 | stage 3 forwards exactly the records that pass `!(size_filter > 0 && Size > size_filter)` and clone successfully, in order, each with its local path |
| Repos.NoSizeFilterSkipsNothing | repoharvester.go:643 | a size filter of 0 skips nothing |
| Shortlog.EmailOfSlice | repoharvester.go:815 | the slice panics exactly on an empty line or a line ending in `<`; otherwise the address is the `len - idx - 2` characters strictly between the last `<` and the final character, and contains no `<` |
| Shortlog.EmailOfShortlogLine | repoharvester.go:815 | round trip: the address of a `count\tname <email>` line is `email`, whatever the name, provided `email` has no `<` |
| Shortlog.SliceEmail | repoharvester.go:815 | the slice expression computes `EmailOf` and panics exactly on the lines `LinePanics` names |
| Shortlog.ScanShortlog | repoharvester.go:812-829 | the scan loop panics exactly when some line panics; otherwise it sends one identity per line, in order, each with the run's repository and role |
| Shortlog.RunContextsShape | repoharvester.go:812-829 | a run sends one identity per line; the i-th identity carries the repository, the role and the i-th line's address |
| Shortlog.Stage4Provenance | repoharvester.go:756-829 | every identity stage 4 sends names a repository it received and a role in {Author, Committer} |
| Roles.Label | repoharvester.go:41-48 | the label is `Author` exactly for mask 1, `Committer` exactly for 2, `Author+Committer` exactly for 3, and empty exactly for any other mask |
| Roles.BothIsUnion | repoharvester.go:47 | `ROLE_MASK_BOTH` is `ROLE_AUTHOR \| ROLE_COMMITTER` |
| Aggregate.EmailsDedup | repoharvester.go:851-858 | the dedup loop computes `DedupFold` and counts every address received |
| Aggregate.DedupIsPresence | repoharvester.go:851-858 | the dedup map's keys are exactly the addresses received, and every value is 0 |
| Aggregate.DedupOrderFree | repoharvester.go:851-858 | inputs with the same addresses, in any order and with any repetitions, give the same dedup map |
| Aggregate.EmailsByRepo | repoharvester.go:870-875 | the grouping loop computes `GroupFold` and counts every identity received |
| Aggregate.GroupIsOr | repoharvester.go:872 | a key is present exactly when some identity with that address and repository was received; its mask shares a bit with `b` exactly when some such identity's role does, so the value is the bitwise OR of those roles |
| Aggregate.GroupOrderFree | repoharvester.go:870-875 | inputs with the same identities, in any order and with any repetitions, give the same grouped map |
| Aggregate.GroupRoles | repoharvester.go:41-48 | with roles drawn from Author and Committer, every grouped value lies in {1, 2, 3}; it equals `Both` exactly when the key was seen in both roles |
| Report.DomainOfAddress | repoharvester.go:924-928 | `local@domain` with a non-empty local part and no `@` in the domain has domain `domain` |
| Report.DomainWithoutAt | repoharvester.go:921-930 | an empty address, or one whose only `@` is its first character, gets `!none!` |
| Report.DomainSplit | repoharvester.go:925-927 | conversely, a domain other than `!none!` is the `@`-free tail after an `@` preceded by a non-empty local part |
| Report.DomainOfDisplay | repoharvester.go:921-923 | the displayed address (`!blank!` for the empty one) has the same domain as the address itself |
| Report.BuildReport | repoharvester.go:919-947 | the walk visits every key of the grouped map exactly once, in some order, and builds the folds of that order |
| Report.AddEntry | repoharvester.go:921-945 | one loop iteration leaves the repository's name present, keeps its URL if already present (otherwise takes this key's clone URL), and sets the address's label to the role label; it appends this key's entry to the address's list under its domain; every other repository name and every other domain is unchanged |
| Report.AddRepoEntry | repoharvester.go:933-945 | the `repos` steps of one iteration (create the record with this key's clone URL if the name is missing, then set the label) compute the single update `AddRepo` |
| Report.AddEmailEntry | repoharvester.go:936-943 | the `emails` steps of one iteration (create the domain map and the address list if missing, then append) compute the single update `AddEmail` |
| Report.CreateOutputJson | repoharvester.go:912-970 | the report is the fold of one iteration order of the grouped map; the write succeeds exactly when one of four attempts does |
| Report.EmailsAt | repoharvester.go:936-943 | `emails[domain][address]` exists exactly when some key is filed there; its list is exactly one entry per such key, in visiting order |
| Report.EmailDomains | repoharvester.go:936-938 | a domain is present exactly when some key's address has that domain |
| Report.ReposEntries | repoharvester.go:933-945 | a repository name is present exactly when some key has it; an address is listed under it exactly when some key pairs them |
| Report.ReposUrl | repoharvester.go:933-935 | a repository's URL is the clone URL of the first key visited with that name |
| Report.ReposLabel | repoharvester.go:945 | an address's label under a repository is the label of the last key visited for that pair |
| Report.IterationsPermute | repoharvester.go:920 | any two iteration orders of the grouped map are permutations of each other |
| Report.DomainsOrderFree | repoharvester.go:936-938 | the set of domains does not depend on the iteration order |
| Report.EmailsOrderFree | repoharvester.go:936-943 | the addresses under each domain do not depend on the iteration order, and each entry list is the same up to order |
| Report.ReposOrderFree | repoharvester.go:933-945 | when keys that share a repository name agree on its URL and show distinct addresses, the `repos` map does not depend on the iteration order |
| AddressFile.CreateOutputFile | repoharvester.go:882-910 | the buffer holds each key of the dedup map exactly once, in some order, each followed by the separator; the write succeeds exactly when one of four attempts does |
| AddressFile.ReadLinesOfLines | repoharvester.go:887-890 | round trip: reading the buffer back line by line gives the addresses in the order written, when no address contains the separator's first character |
| Logging.Logger.SetLevel | repoharvester.go:117-159 | a level above 3 returns false and changes nothing; otherwise the level is stored, Fatal/Panic and every level up to the requested one print, and every less severe level is a no-op |
| Logging.Logger.constructor | repoharvester.go:294 | the zero-valued package logger has level `LOG_FATAL` (0) and every function field nil |
| Logging.Logger.LogLevel | repoharvester.go:161-163 | the stored level is never above `LOG_DEBUG`: the zero value starts at `LOG_FATAL` and `SetLevel` keeps the logger valid |
| Pipeline.Stage2Forwarded | repoharvester.go:579-590 | every record stage 2 forwards passes the fork filter |
| Pipeline.Stage3Cloned | repoharvester.go:643-705 | every clone stage 3 forwards comes from a received record that was not skipped, cloned successfully, and carries its local path |
| Pipeline.Stage4Permutation | repoharvester.go:756-829 | permuting the cloned records changes neither whether stage 4 panics nor the multiset of identities it sends |
| Pipeline.TaskOrderFree | repoharvester.go:756-829 | running the role tasks in any order, including the committer run of a repository before its author run, panics exactly when stage 4 does and otherwise sends the same multiset of identities |
| Pipeline.FoldsOrderFree | repoharvester.go:851-875 | both stage 5 maps are the same for any permutation of the identities |
| Pipeline.HarvestOrderFree | repoharvester.go:513-875 | the dedup map and the grouped map are the same for any permutation of the fetched pages |
| Pipeline.DeliveryOrderFree | repoharvester.go:846-880 | whatever order the channels deliver the addresses and identities in, the stage 5 maps are those of the sequential pipeline |
| Pipeline.HarvestProvenance | repoharvester.go:513-880 | every grouped key names a clone of a forwarded record that passed both filters and cloned; its mask lies in {1, 2, 3}; its address is among the deduplicated ones |
| Pipeline.DedupedAreGrouped | repoharvester.go:846-880 | every deduplicated address is the address of some grouped key |

## Left out

- Concurrency: goroutines, channels, wait groups, the two semaphores and
  context cancellation. The stages run one after another. The permutation
  theorems of `Pipeline` and the order-freedom lemmas of `Aggregate` and
  `Report` stand in for the arbitrary interleaving.
- HTTP: `http.NewRequestWithContext` failure, headers beyond `Link`, and the
  response bodies, which are opaque values.
- The `git` subprocesses (`exec.CommandContext`) and the classification of
  their errors. A clone is a success or a failure; a shortlog run is either a
  failure or the lines it produced. A scan error is modelled as the lines
  read before it.
- JSON decoding and `json.MarshalIndent`: a body is the sequence of decoder
  results, and the report is the pair of maps before serialisation.
- The atomic progress counters, the progress table and the periodic
  reporter. Adding `^uint32(0)` to a counter is a decrement modulo 2^32.
- Flag parsing, `check_working_dir`, `check_ouput_location`, the removal of
  the working directory and the file writes themselves. A write is one
  success-or-failure outcome per attempt, and the 100 ms pause is not
  modelled.
- The logger's output functions and its wait group. A logger field records
  only whether it prints, does nothing, or is still nil.
- LinkHeader.StripBrackets, LinkHeader.GetNextLink, LinkHeader.LastCharPages,
  LinkHeader.TotalPages, LinkHeader.GetTotalPages, LinkHeader.QueryPages,
  Shortlog.EmailOf and Shortlog.SliceEmail: Go strings are byte sequences, and `len`, slicing and
  `strings.LastIndex` count bytes. The model's strings are sequences of
  characters, so lengths and indices agree with the source only on ASCII
  text. A non-ASCII URL or address can behave differently: for a one-character
  two-byte URL part, the source gives an empty URL where the model panics;
  for an address ending in a multi-byte character, the source drops only its
  last byte; for a "last" entry `<x5é; rel="last"` (no closing bracket)
  the source's URL part is five bytes, it slices the byte 0xC3, fails to
  parse it and panics, where the model reads `5` and gives 5 pages
  (`LinkHeader.MultiByteLastChar`).
- LinkHeader.QueryPages: the corrected reader takes the first `page=` value
  of the query as written, with no percent-decoding, and a `#` fragment is
  not split off.
- Repos.JoinPath: `filepath.Join`'s final `Clean` step is not modelled;
  `JoinPath` joins with `/` and drops empty elements only.
- Repository identity. The source keys grouped identities by the address of
  the `Repo` that stage 4 received (a `*Repo`), one per record; the model keys them by the
  record's value. Two equal records received separately therefore share a
  key here, where the source keeps two.
- Fetcher.FetchPages: the walk in the source has no bound; the model gives it
  a page budget, and running out of budget is an end state of its own
  (`OutOfBudget`).
- Shortlog.Stage4: the source's two shortlog runs per repository come from a
  map iteration and run concurrently; the model runs the author task before
  the committer task. `TaskOrderFree` shows that any order of the tasks
  panics alike and sends the same identities.
  A panicking line ends the whole program, so the model returns `Panic`
  for the stage as a whole.
- Report.ReposOrderFree: when two keys share a repository name but differ in
  clone URL, the URL kept is that of the first key visited. When two keys
  map to the same displayed address under one name, the label kept is that
  of the last key visited. In both cases the source's result depends on map
  order, so the lemma requires that neither case arises.

## Findings

| source | as written | input that shows it | evidently intended | confidence | as-written member | corrected member |
|---|---|---|---|---|---|---|
| repoharvester.go:400 | the "last" page number is read from the single character before `>`, so the page count is the number modulo 10 | a `Link` header whose "last" entry is `<https://api.github.com/user/repos?page=12>; rel="last"` gives 2 pages instead of 12 | read the value of the URL's `page` query parameter, up to the next `&`, which is the number of the last page | not executed | LinkHeader.TwelvePagesAsWritten | LinkHeader.TwelvePagesCorrected |
