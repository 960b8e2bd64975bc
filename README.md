# fetch, modelled in Dafny

`fetch` downloads web pages, stores each page's HTML in a file, and records
per-page metadata in SQLite: the page's ID (its URL), its site, when it was
last fetched, and how many links and images it has. The metadata can be read
back by site. This project models the sequential core of that pipeline and
proves properties of it:

- `Domain` (`domain.dfy`): page identity. `NewPage` builds the ID from the
  URL's string form, the Site as `path.Join(host, path)`, and the FileLocation
  as the Site escaped as one path segment (section 2.1 of RFC 3986).
- `Sqlite` (`sqlite.dfy`): the metadata table, a class whose `rows` map from
  PageID to record. `Save` is the upsert and `ByIDs` the `IN` query, which
  reads one row at a time.
- `Service` (`service.dfy`): the tag-counting extractor (`ParseMetaData`).
  Also the per-site pipeline (`FetchSite`: fetch, open the writer, tee the
  content into the extractor, save, and the deferred closes). Also the batch
  error fold (`Fetch`) and the read path (`GetMetaDataForSites`).
- `Fetcher` (`fetcher.dfy`): how one attempt classifies a response, and the
  retry loop around it.
- `Common` (`common.dfy`): `Option`, `Result`, the error chain that
  `fmt.Errorf("...: %w")` builds, and chunked byte streams.

The collaborators behind the interfaces in `internal/service/service.go` are
oracles. A `SiteWorld` value holds what the fetcher, the disk and the clock
answer for one site. The HTML tokenizer is a function `lex` from the bytes it
read to its tokens. The database's failures are inputs. Every call the service
makes on a collaborator is appended to the service's call log `log`, which is
what the test doubles observe. The specification of each imperative operation
is a function. `Extraction`, `Tee`, `Pipeline`, `Batch` and `Retried` are
these functions, and the lemmas below state what they promise.

`Fetcher.Attempt` names the page after `req.URL`
(internal/fetcher/fetcher.go:62), the URL of the request as built.
`http.Client.Do` follows redirects without changing it, so a redirected page
keeps the requested URL's identity.

## Model

| member | source | states |
|---|---|---|
| `Domain.PageID.String` | internal/domain/page.go:12-14 | The string is the ID's own value: wrapping it again gives back the same ID. |
| `Domain.SiteWithoutPath` | internal/domain/page.go:25 | With an empty path, `path.Join(host, "")` is the host itself. |
| `Domain.SiteWithPath` | internal/domain/page.go:25 | With a clean path "/a/b", the Site is host + "/a/b". The '/' that Join adds and the path's leading '/' merge into one. |
| `Domain.SiteIsUrlWithoutScheme` | internal/domain/page.go:25-27 | For a host that is one name and a clean path, both made only of characters `String` keeps, the ID (`UrlText`) is "scheme://" followed by the Site. So the Site is the URL without its scheme. |
| `Domain.FileLocationIsOneSegment` | internal/domain/page.go:29 | For every escape set that escapes '/', the FileLocation contains no '/'. It equals the Site exactly when no character of the Site is escaped. |
| `Domain.EscapedHasNoSlash` | internal/domain/page.go:29 | Once '/' is escaped, no '/' is left in the escaped string. |
| `Domain.EscapeIdentityIff` | internal/domain/page.go:29 | PathEscape leaves a string unchanged if and only if none of its characters is escaped. |
| `Domain.EscapeLength` | internal/domain/page.go:29 | Escaping never shortens a string, and makes it strictly longer as soon as one character is escaped. |
| `Domain.EscapeRoundTrip` | internal/domain/page.go:29 | When '%' is escaped and only single-byte characters are, `Unescape` undoes PathEscape. |
| `Domain.EscapedSlash` | internal/domain/page.go:29 | '/' escapes to "%2F". |
| `Domain.KeptUnescaped` | internal/domain/page.go:29 | A string of letters, digits, '.' and ':' is its own escape. |
| `Domain.PageWithoutPath` | internal/domain/page.go:24-31 | A URL without a path gives ID "scheme://host", and Site = FileLocation = host. |
| `Domain.PageWithName` | internal/domain/page.go:24-31 | A URL with path "/name" gives Site host + "/" + name and FileLocation host + "%2F" + name. |
| `Domain.GoogleHomePage` | internal/domain/page_test.go:20-26 | "https://www.google.com" gives Site and FileLocation "www.google.com". |
| `Domain.GoogleAboutPage` | internal/domain/page_test.go:29-36 | "https://www.google.com/about" gives Site "www.google.com/about" and FileLocation "www.google.com%2Fabout". |
| `Domain.LocalServerPage` | internal/fetcher/fetcher_test.go:104-107 | "http://127.0.0.1:8080" gives ID equal to that URL, and Site and FileLocation equal to it without "http://". |
| `Sqlite.Upserted` | internal/sqlite/sqlite.go:94-115 | After the upsert the keys are the old keys plus the record's id, and that row has the new time and counts. A new id stores the whole record. An existing id keeps its stored site. Every other row is unchanged. One row per id is preserved (id is the primary key). |
| `Sqlite.MetaDataRepo.Save` | internal/sqlite/sqlite.go:94-121 | On a database fault the table is unchanged and the error is wrapped "exec context". Otherwise the table becomes the upsert. |
| `Sqlite.MetaDataRepo.ByIDs` | internal/sqlite/sqlite.go:59-91 | Fails exactly when building, running, scanning an existing row, or the final rows check fails, each with its own wrapper. Failure never returns a partial list. On success the result is exactly the stored rows whose id was asked for, each once, in any order, with missing ids left out. |
| `Sqlite.SaveAllStores` | internal/sqlite/sqlite.go:94-121 | Saving new records with distinct ids stores each of them as given. |
| `Sqlite.SavedThenQueried` | internal/sqlite/sqlite_test.go:43-54 | Querying the ids just saved returns as many rows as records, and exactly those records, up to order. |
| `Sqlite.LatestSaveWins` | internal/sqlite/sqlite.go:98-101 | Two saves under one id leave one row, with the second save's time and counts. The site is the one stored first. |
| `Service.TagCountIsPositions` | internal/service/fetch.go:37-50 | The number of links (images) is the number of positions holding a start or self-closing tag named exactly "a" ("img"). |
| `Service.TagCountAppend` | internal/service/fetch.go:37-50 | Counting distributes over concatenation, so any token that is not such a tag leaves the count unchanged. |
| `Service.TagCountNone` | internal/service/fetch.go:38-40 | A stream with no counted tag of that name counts zero. |
| `Service.LinksAndImagesBound` | internal/service/fetch.go:44-49 | A token is counted as a link or as an image, never both: links + images <= tokens. |
| `Service.TestPageCounts` | internal/service/fetch_test.go:129-130 | The test page's tokens hold 4 links and 2 images. |
| `Service.Service.ParseMetaData` | internal/service/fetch.go:29-58 | Succeeds if and only if the stream ended with io.EOF. The counts are those of the token stream, and the time is the clock reading taken before the loop, never changed. Any other end returns the error wrapped "parse html" and no metadata. |
| `Service.TeeDelivers` | internal/service/fetch.go:83 | The sink receives the content in order. If the content fits, it receives all of it and the stream ends as the body does. Otherwise it receives exactly the prefix that fits and the stream ends with the writer's error. |
| `Service.FetchFailureStops` | internal/service/fetch.go:63-66 | A failed fetch returns "query page", and neither the writer nor Save is called. There is nothing to close. |
| `Service.OpenFailureStops` | internal/service/fetch.go:67-76 | A writer that cannot be opened returns "create file". Nothing is written or saved, and the fetched item is closed once, last. |
| `Service.ClosesInReverseOrder` | internal/service/fetch.go:67-81 | Once the writer is open, every exit ends with the writer closed and then the item closed, each exactly once. |
| `Service.WriterGetsConsumedBytes` | internal/service/fetch.go:83-84 | The bytes written to the writer are exactly the bytes the tokenizer consumed, in order. |
| `Service.WriterGetsContent` | internal/service/fetch_test.go:136-137 | Whenever Save is called, the writer has received the entire page content. |
| `Service.PipelineSucceedsIff` | internal/service/fetch.go:62-96 | A site succeeds if and only if the fetch, the writer, the tee (all content fits), the body's EOF and the save all succeed. |
| `Service.SavedRecordFields` | internal/service/fetch.go:89-93 | The saved record has the page's ID and Site, the clock reading, and the link and image counts of the whole content. It is stored unless Save fails. |
| `Service.Service.FetchSite` | internal/service/fetch.go:62-96 | The call log grows by the pipeline's calls, the error is the pipeline's, and the table holds the record the database accepted. |
| `Service.Service.Stream` | internal/service/fetch.go:83-95 | The stage after the writer opens: tee and parse, then copy ID and Site into the record, save, and close (writer first). |
| `Service.BatchFailureCount` | internal/service/fetch.go:121-127 | The number of collected errors is the number of failing sites. |
| `Service.BatchFailuresLabelled` | internal/service/fetch.go:126 | Every collected error is some failing site's error wrapped "fetch site <site>". |
| `Service.BatchFailuresComplete` | internal/service/fetch.go:143-147 | Every failing site's labelled error is among the joined errors. |
| `Service.BatchFailureMultiplicity` | internal/service/fetch.go:121-127 | Each error is collected exactly as many times as there are failing sites whose labelled error it is, so a site listed twice contributes twice. |
| `Service.BatchSucceedsIff` | internal/service/fetch.go:140-150 | The batch returns no error if and only if every site succeeds, so an empty batch returns none. |
| `Service.Service.Fetch` | internal/service/fetch.go:140-150 | Runs every site. Returns None when there are no failures, and otherwise the multiset of labelled failures. The log and the table are those of the batch. |
| `Service.SiteIds` | internal/service/metadata.go:13-16 | As many ids as sites, and id i is site i verbatim. |
| `Service.Service.GetMetaDataForSites` | internal/service/metadata.go:12-25 | Makes exactly one ByIDs call with the sites as ids, even for no sites. A repository error comes back wrapped "get metadata" with no items. Otherwise the repository's answer is returned. |
| `Fetcher.ContainsIff` | internal/fetcher/fetcher.go:57 | `Contains` (strings.Contains) holds exactly when the substring occurs at some position. |
| `Fetcher.MissingCharNotContained` | internal/fetcher/fetcher.go:57 | A Content-Type lacking one of the characters of "text/html" does not contain it. |
| `Fetcher.Attempt` | internal/fetcher/fetcher.go:42-64 | Success if and only if the request was built and the response is 200 with a Content-Type containing "text/html". Then the page is NewPage of the request URL and the body is handed over unread. A failure is retryable if and only if the request was built and the transport failed or the status is >= 500. |
| `Fetcher.ContentTypeOnlyFor200` | internal/fetcher/fetcher.go:52-60 | The checks apply in order. Below 500, a status other than 200 fails with that status, whatever the Content-Type. |
| `Fetcher.RetriedEndsAt` | internal/fetcher/fetcher.go:38-41 | The retrier returns the outcome of an attempt j <= retries. All earlier attempts were retryable failures, and attempt j succeeded, failed for good, or used up the budget. |
| `Fetcher.EndsAtUnique` | internal/fetcher/fetcher.go:38-41 | Only one attempt can end the run. |
| `Fetcher.Fetch` | internal/fetcher/fetcher.go:37-68 | Exactly one of item and error is set, and the pair is the retrier's outcome. |
| `Fetcher.ServerErrorsThenSuccess` | internal/fetcher/fetcher_test.go:28-41 | Three 500s followed by an HTML 200 succeed within maxRetries, with the page of the request URL. |
| `Fetcher.ServerErrorsExhaust` | internal/fetcher/fetcher_test.go:68-73 | A server that always answers 500 ends in its retry-marked server error. |
| `Fetcher.TerminalOnFirstAttempt` | internal/fetcher/fetcher_test.go:53-66 | A 404, or a 200 with "application/json", fails at the first attempt, whatever later attempts would answer. |

## Left out

- The concurrency layer of `Fetch` (internal/service/fetch.go:100-136) is left out: goroutines, the pool of 100, the WaitGroup, the error channel and the `select` on `ctx.Done()`. Sites run one after another in list order. Failures are a multiset, so their order does not matter. Under a cancelled context the source may drop errors, which is not modelled. The interleaving of concurrent calls in the log is also not modelled, nor are racing saves of one site listed twice.
- Logging (`slog`) is left out. Close errors are only logged and never change a result, so closing is modelled as a call that cannot fail.
- `time.Now().UTC()` is the input `now`. The Go `int` counts are `nat`. They start at zero and only grow, and overflow is not modelled.
- The HTTP transport is an oracle. What `http.NewRequestWithContext` makes of the site is the input `request`, and `httpClient.Do` is the `exchange` function. Redirect following is not modelled.
- The retrier's backoff timing and sleeping are left out, as is cancellation during a sleep. The budget is the parameter `retries`; for the real client it is `MaxRetries`.
- Fetcher.Retryable checks only the outermost error for the retry mark, where `errors.Is` searches the whole chain. The only error that wraps another without the mark is the request-construction error from URL parsing, and it never carries the mark.
- The HTML tokenizer is the function `lex`. Tokens read before a failed read are not modelled, because any failure makes the extraction fail.
- `url.Parse` is left out. `UrlText` models `url.URL.String` only for URLs made of a scheme, host and path, without user info, query or fragment.
- Domain.SiteIsUrlWithoutScheme: `String`'s percent-encoding of the host and path is not modelled. `UrlText` writes them as they are, so for a path such as "/a b" the model's ID is "https://h/a b", where Go writes "https://h/a%20b". The lemma is therefore stated only for hosts and paths whose characters `String` keeps (letters, digits, '.', ':' and '/').
- Go's exact `url.PathEscape` escape set is left out. It is the parameter `esc`, which the lemmas constrain only by what is known: '/' is escaped, and letters, digits, '.' and ':' are kept. Non-ASCII characters are escaped byte by byte in UTF-8.
- Domain.EscapeRoundTrip: proved only for escape sets that escape '%' and only single-byte characters. Unescaping multi-byte UTF-8 back into characters is not modelled.
- Domain.SiteWithPath: proved for clean paths (names without "", ".", ".." or "/"). `path.Clean` itself is modelled in full by `Clean`.
- Service.TeeDelivers: a read of zero bytes is skipped. The Go tokenizer would give up with `io.ErrNoProgress` after many empty reads, which is not modelled.
- The page writer fails only by running out of room (`Sink`). Other write failures are not modelled.
- The response bodies of rejected attempts are not modelled as resources. The source does not close them.
- Service.Service.GetMetaDataForSites: the result is stated through ByIDs' contract (the matching rows, in any order), not as the identical slice, because the repository's order is unspecified.
- The database plumbing is left out: the driver, the connection, `NewMetaDataRepo`, `createTables`, `Close`, and scanning columns into fields. Which step fails, and which row a scan fails on, is the input `QueryFault`.
- `ByIDs` with no ids is not specified by the source: `sqlx.In` decides it. The model answers with no rows unless the fault says that building the query fails.
- `internal/disk/disk.go` (`os.Create` of `name + ".html"`) and `cmd/fetch/*` (the command line, configuration and printed output) are not part of this model.
