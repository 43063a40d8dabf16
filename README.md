# image-download, modelled in Dafny

`image-download` fetches one web page, finds every `<img>` on it and downloads
each image into a directory through a thread pool, naming the files after the
page. This project models the decision rules underneath that plumbing:

- **`PageImageDownloader`** (module `PageDownloading`).
  - The title is composed from prefix, page number and the CSS-selected text or document title.
  - Two checks fail the page: "title is empty" and "no image exist".
  - The connection-pool limits and `nThreads = tags / 10` are computed.
  - One task per non-empty `src`, named `title-1 … title-k`, runs in list order.
  - Task results are collected, and any task exception fails the batch.
  - `start()` sets and clears the proxy properties and turns exceptions into a failed result.
- **`ImageDownloader`** (module `ImageDownloading`).
  - The checks run in order: entity, then length, then `Content-Type`, then destination directory.
  - The file name is derived from the URL, the extension list and the media-type subtype.
  - The derived name is written back into the `title` field.
  - The chunked copy loop deletes the file when an `IOException` occurs.
- **`DownloadResult`** (module `DownloadResults`): the `success` and `fail` factories.
- **`DownloadException`** (module `Exceptions`): the `"%s - [%s]"` message format, together with the JVM exceptions the core can throw and their `getMessage()` / `toString()`.

Supporting modules:
- `Optional`: `None` is Java's `null`.
- `Text`: the `StringUtils` and `Integer.toString` behaviour used.
- `Files`: a disk of files and directories, and a `FileStore` class the downloads change in place.
- `SystemProperties`: `System.setProperty` / `clearProperty` on a string map.

Each of the two Java classes is a Dafny `class` with the same fields. Their
methods are proved to equal specification functions.
- `ImageDownloader.Download` follows `ImageDownloading.DownloadSpec`.
- `PageImageDownloader.Download` follows `PageDownloading.PageDownloadSpec`.
- `PageImageDownloader.Start` follows `PageDownloading.StartSpec`.

The properties are lemmas about those functions, in
`image_downloader_properties.dfy` and `page_image_downloader_properties.dfy`.
The loops of the source are methods with loop invariants:
- the task loop: `CollectTasks`
- the sequential run of the tasks: `InvokeAll`
- the result loop: `CollectImages`
- the copy loop: `SaveImage`

The outside world becomes inputs, as follows.
- The parsed page is a `Page`: its title, the text the CSS query selects, and the `src` of every tag.
- The page fetch is a `PageFetch`: a malformed page URL, an `IOException`, a null document, or the page.
- Each image URL's request is an `Exchange`. It is one of four cases: a `src` that `URI.create` refuses, a relative `src` for which `execute` finds no target host, a failed connection, or an answer. An answer has an optional entity with a declared length, a body as a sequence of `read` results, and the `Content-Type` header.
- The answers are a function of the URL (`Web`), so two tags with the same `src` get the same answer.
- The temp directory is the `tempDir` of the `FileStore`.

## Behaviour of the code as written

The model follows the code here, including where the code's own comments, or a
natural reading of them, promise something else:

- `ImageDownloader.download()` is documented to return `null` on error (ImageDownloader.java:121). A failure to open the file, a read that throws, or a write that throws happens after `imageFile` was assigned. The file is deleted, but its path is returned anyway (`WriteErrorDeletesButReturnsFile`).
- A missing `Content-Type` header makes `getValue()` throw a `NullPointerException`. No `catch` clause takes it, so it escapes the task. `Future.get` then fails the whole page with an `ExecutionException`. When every `src` is a URI with a host, its message is `"java.lang.NullPointerException"` (`MissingContentTypeFailsPage`, `MissingContentTypeReported`).
- A `src` that is not a URI (one holding a space, say) passes the `isEmpty` filter. In its task, `new HttpGet(imgSrc)` throws an unchecked `IllegalArgumentException` that no `catch` takes. It fails the whole page in the same way (`InvalidSrcEscapes`, `UnrequestableSrcFailsPage`).
- A relative or protocol-relative `src` (`/img/a.jpg`, `//cdn/x.png`) is a URI without a host. `execute` throws an unchecked `IllegalStateException` for it, and that exception also fails the whole page (`NoTargetHostEscapes`, `UnrequestableSrcFailsPage`). These three are the only exceptions that escape a task (`OnlyUncaughtExceptionsEscape`).
- A successful page lists its files in ascending task order, `title-k` before `title-(k+1)`, skipping the tasks that returned `null` (`CollectIsNonNullFiles`, `PageSuccess`).
- The pool size is `tags / 10` with no lower bound. With 1 to 9 tags, `setDefaultMaxPerRoute(0)` refuses the limit, so such a page always fails before any image is fetched (`FewerThanTenTagsRejected`, `LimitsAcceptedIff`). The model takes these refusals, and their messages "Max value may not be negative or zero" and "Max per route value may not be negative or zero", from the HttpCore 4.x connection pool (see "## Left out"). The later `newFixedThreadPool(0)` branch is therefore unreachable.
- The title is never trimmed. A title of blanks passes the "title is empty" check (`TitleEmptyIff`).
- A caller-supplied title is used verbatim, with no extension (`SuppliedTitleUsedVerbatim`).
  - An empty one makes `new File(dir, "")` name the destination directory itself.
  - Opening it fails.
  - `deleteQuietly` then removes the whole destination tree (`EmptyTitleDeletesDestination`).
- An unknown content length (-1) is below a minimum of 0, so such an image is skipped (`UnknownLengthReturnsNull`).
- `start()` sets the proxy host before the port. A null port name throws after the host is set. That exception is outside the `try`, so it escapes `start()` and the host property stays set (`ProxyHostLeaksWhenPortNameNull`). On the normal path, `clearProperty` removes both keys. A value they held before `start()` is not restored (`StartClearsProxy`).

## Model

| member | source | states |
|---|---|---|
| Text.SubstringAfterLast | src/main/java/jk/kamoru/tool/web/image/ImageDownloader.java:160-164 | the result has no separator; it is "" when the separator is absent, else exactly the suffix after the last separator |
| Text.SubstringAfterLastOfJoin | src/main/java/jk/kamoru/tool/web/image/ImageDownloader.java:160-161 | what follows the last separator of `s + sep + t` is `t` when `t` has no separator |
| Text.ToLower | src/main/java/jk/kamoru/tool/web/image/ImageDownloader.java:162 | same length, each character lower-cased (ASCII) |
| Text.NatToString | src/main/java/jk/kamoru/tool/web/image/PageImageDownloader.java:232 | a non-empty string of decimal digits, one digit exactly for values below 10 |
| Text.IntToString | src/main/java/jk/kamoru/tool/web/image/PageImageDownloader.java:210 | non-empty; starts with '-' exactly for negative values |
| Text.NatToStringInjective | src/main/java/jk/kamoru/tool/web/image/PageImageDownloader.java:232 | different counts print differently |
| Exceptions.DownloadMessage | src/main/java/jk/kamoru/tool/web/image/DownloadException.java:8 | length is message + url + 5; the message is a prefix; `"[" + url + "]"` is the suffix |
| Exceptions.NewDownloadException | src/main/java/jk/kamoru/tool/web/image/DownloadException.java:7-9 | a `DownloadException` without cause whose `getMessage()` is the formatted message |
| Exceptions.NewDownloadExceptionWithCause | src/main/java/jk/kamoru/tool/web/image/DownloadException.java:11-13 | keeps the cause and has the same message as the two-argument constructor |
| DownloadResults.Success | src/main/java/jk/kamoru/tool/web/image/DownloadResult.java:24-26 | result true, the list stored as given, count its length, message "", URL kept |
| DownloadResults.Fail | src/main/java/jk/kamoru/tool/web/image/DownloadResult.java:28-30 | result false, count 0, no list, message the error's `getMessage()`, URL kept |
| Files.JoinInjective | src/main/java/jk/kamoru/tool/web/image/ImageDownloader.java:182 | two non-empty names in one directory give different files |
| Files.DeleteTree | src/main/java/jk/kamoru/tool/web/image/ImageDownloader.java:197 | exactly the files and directories at or under the path are gone, the rest keep their contents |
| Files.DeleteTreeForgetsContents | src/main/java/jk/kamoru/tool/web/image/ImageDownloader.java:186-198 | after the delete, what the file held before makes no difference |
| Files.FileStore.Create | src/main/java/jk/kamoru/tool/web/image/ImageDownloader.java:188 | succeeds exactly when the path is not a directory and its parent exists; then the file is empty, else nothing changes |
| Files.FileStore.Write | src/main/java/jk/kamoru/tool/web/image/ImageDownloader.java:192 | appends the chunk to the open file, nothing else changes |
| Files.FileStore.DeleteQuietly | src/main/java/jk/kamoru/tool/web/image/ImageDownloader.java:197 | the new disk is the old one with the path's tree deleted |
| SystemProperties.Set | src/main/java/jk/kamoru/tool/web/image/PageImageDownloader.java:172-173 | succeeds exactly for a non-null, non-empty key and a non-null value, and then maps the key to the value |
| SystemProperties.Clear | src/main/java/jk/kamoru/tool/web/image/PageImageDownloader.java:182-183 | succeeds exactly for a non-null, non-empty key; removes that key and keeps every other value |
| SystemProperties.Properties.SetProperty | src/main/java/jk/kamoru/tool/web/image/PageImageDownloader.java:172-173 | the exception `Set` gives, or the table updated as `Set` says |
| SystemProperties.Properties.ClearProperty | src/main/java/jk/kamoru/tool/web/image/PageImageDownloader.java:182-183 | the exception `Clear` gives, or the table updated as `Clear` says |
| ImageDownloading.DeriveName | src/main/java/jk/kamoru/tool/web/image/ImageDownloader.java:159-170 | the URL's last segment is a prefix of the name (only appended to); the name is non-empty and has no '/' |
| ImageDownloading.ImageDownloader.constructor | src/main/java/jk/kamoru/tool/web/image/ImageDownloader.java:98-104 | stores source, directory, title and minimum size |
| ImageDownloading.ImageDownloader.SetMinimumSize | src/main/java/jk/kamoru/tool/web/image/ImageDownloader.java:110-112 | sets the minimum size only |
| ImageDownloading.ImageDownloader.Download | src/main/java/jk/kamoru/tool/web/image/ImageDownloader.java:123-226 | the file returned, the new `title` field and the new disk are those of `DownloadSpec`; a title once set is never changed |
| ImageDownloading.SaveImage | src/main/java/jk/kamoru/tool/web/image/ImageDownloader.java:182-213 | the disk after open, copy loop and delete-on-error is `Save` of the old disk |
| ImageDownloadProperties.MissingEntityReturnsNull | src/main/java/jk/kamoru/tool/web/image/ImageDownloader.java:142-144 | no entity: null, disk and title unchanged |
| ImageDownloadProperties.TooSmallReturnsNull | src/main/java/jk/kamoru/tool/web/image/ImageDownloader.java:145-148 | a length below the minimum: null, nothing changed, before the header is read |
| ImageDownloadProperties.UnknownLengthReturnsNull | src/main/java/jk/kamoru/tool/web/image/ImageDownloader.java:145-148 | an unknown length (-1) against a minimum of at least 0: null, nothing changed |
| ImageDownloadProperties.MissingContentTypeEscapes | src/main/java/jk/kamoru/tool/web/image/ImageDownloader.java:151-152 | no `Content-Type` header on a large enough entity: a `NullPointerException` escapes, nothing changed |
| ImageDownloadProperties.InvalidSrcEscapes | src/main/java/jk/kamoru/tool/web/image/ImageDownloader.java:133 | a `src` that is not a URI: its `IllegalArgumentException` escapes before any request, nothing changed |
| ImageDownloadProperties.NoTargetHostEscapes | src/main/java/jk/kamoru/tool/web/image/ImageDownloader.java:132-134 | a `src` without a host: `execute`'s `IllegalStateException` escapes, nothing changed |
| ImageDownloadProperties.OnlyUncaughtExceptionsEscape | src/main/java/jk/kamoru/tool/web/image/ImageDownloader.java:129-225 | every escaping exception is the refusal of a non-URI `src`, the missing host of a relative `src`, or the `NullPointerException` of a missing header; for a `src` with a host, only the last |
| ImageDownloadProperties.AcceptedImageStep | src/main/java/jk/kamoru/tool/web/image/ImageDownloader.java:159-199 | an accepted image is named by the given or the derived title; `null` with the name stored when the destination is not a directory, else the saved file |
| ImageDownloadProperties.NonImageReturnsNull | src/main/java/jk/kamoru/tool/web/image/ImageDownloader.java:153-156 | a content type not starting with "image": null, no file created |
| ImageDownloadProperties.NullResultLeavesDisk | src/main/java/jk/kamoru/tool/web/image/ImageDownloader.java:123-226 | whenever the result is null or an exception escapes, the disk is unchanged |
| ImageDownloadProperties.ReturnedFileIsTitleInDestination | src/main/java/jk/kamoru/tool/web/image/ImageDownloader.java:173-182 | a returned file is the title inside the destination, and that destination is a directory |
| ImageDownloadProperties.SuppliedTitleUsedVerbatim | src/main/java/jk/kamoru/tool/web/image/ImageDownloader.java:159-182 | a given title is kept and is the file name, with no extension added |
| ImageDownloadProperties.DerivedTitleStored | src/main/java/jk/kamoru/tool/web/image/ImageDownloader.java:159-170 | once the content type is accepted, the derived name is stored in `title` |
| ImageDownloadProperties.SecondDownloadReusesName | src/main/java/jk/kamoru/tool/web/image/ImageDownloader.java:159-170 | a second download on the same object uses the first name whatever the second answer |
| ImageDownloadProperties.DestinationNotDirectoryReturnsNull | src/main/java/jk/kamoru/tool/web/image/ImageDownloader.java:173-179 | a null directory means the temp directory; a destination that is not a directory gives null and no change |
| ImageDownloadProperties.DrainCopiesUntilFirstStop | src/main/java/jk/kamoru/tool/web/image/ImageDownloader.java:189-193 | the copy writes exactly the chunks before the first read returning 0, -1 or throwing, in order; it completes unless that read throws |
| ImageDownloadProperties.SavedFileHoldsBody | src/main/java/jk/kamoru/tool/web/image/ImageDownloader.java:182-194 | a clean save returns the file, which holds the body; nothing else changes |
| ImageDownloadProperties.WriteErrorDeletesButReturnsFile | src/main/java/jk/kamoru/tool/web/image/ImageDownloader.java:182-225 | an open or read error deletes the file, yet its path is returned |
| ImageDownloadProperties.EmptyTitleDeletesDestination | src/main/java/jk/kamoru/tool/web/image/ImageDownloader.java:182-199 | an empty given title returns the destination directory, after deleting it and everything under it |
| ImageDownloadProperties.KnownSuffixNameKept | src/main/java/jk/kamoru/tool/web/image/ImageDownloader.java:160-162 | a last segment with a known image extension is the name as it is |
| ImageDownloadProperties.KnownSuffixHasNoDot | src/main/java/jk/kamoru/tool/web/image/ImageDownloader.java:47-48 | a suffix that lower-cases to a listed image suffix contains no '.' |
| ImageDownloadProperties.AppendedSuffixRecognised | src/main/java/jk/kamoru/tool/web/image/ImageDownloader.java:164-168 | appending "." and such a suffix gives a name the suffix check accepts |
| ImageDownloadProperties.DerivedNameRecognised | src/main/java/jk/kamoru/tool/web/image/ImageDownloader.java:161-169 | a derived name ends in a known image extension when the segment had one, the subtype is one, or "jpg" was appended |
| ImageDownloadProperties.DerivedNameStable | src/main/java/jk/kamoru/tool/web/image/ImageDownloader.java:159-170 | deriving again from a URL ending in such a name gives the same name |
| PageDownloading.NonEmptySrcs | src/main/java/jk/kamoru/tool/web/image/PageImageDownloader.java:229-231 | keeps only non-empty `src` values of the page, no more of them than tags |
| PageDownloading.Plan | src/main/java/jk/kamoru/tool/web/image/PageImageDownloader.java:227-236 | no more tasks than tags |
| PageDownloading.RunTasks | src/main/java/jk/kamoru/tool/web/image/PageImageDownloader.java:239-241 | one outcome per task |
| PageDownloading.CollectTasks | src/main/java/jk/kamoru/tool/web/image/PageImageDownloader.java:226-236 | builds fresh downloaders, one per planned task, with its URL, the task name, the directory and the minimum size |
| PageDownloading.InvokeAll | src/main/java/jk/kamoru/tool/web/image/PageImageDownloader.java:239-242 | the outcomes and the disk are those of `RunTasks` of the plan |
| PageDownloading.CollectImages | src/main/java/jk/kamoru/tool/web/image/PageImageDownloader.java:244-250 | returns what `Collect` of the outcomes gives |
| PageDownloading.CollectKeepsFirstThrown | src/main/java/jk/kamoru/tool/web/image/PageImageDownloader.java:246-247 | once a future has thrown, later outcomes make no difference |
| PageDownloading.PageImageDownloader.constructor | src/main/java/jk/kamoru/tool/web/image/PageImageDownloader.java:108-114 | stores URL, directory, page number, prefix and CSS query; minimum size 0, no proxy, a timeout of 60000 |
| PageDownloading.PageImageDownloader.SetMinimumImageSize | src/main/java/jk/kamoru/tool/web/image/PageImageDownloader.java:120-122 | sets the minimum size only |
| PageDownloading.PageImageDownloader.SetTimeout | src/main/java/jk/kamoru/tool/web/image/PageImageDownloader.java:128-130 | sets the timeout only |
| PageDownloading.PageImageDownloader.SetProxyInfo | src/main/java/jk/kamoru/tool/web/image/PageImageDownloader.java:144-150 | sets the five proxy fields only |
| PageDownloading.PageImageDownloader.Start | src/main/java/jk/kamoru/tool/web/image/PageImageDownloader.java:168-186 | result, disk and property table are those of `StartSpec` |
| PageDownloading.PageImageDownloader.SetProxy | src/main/java/jk/kamoru/tool/web/image/PageImageDownloader.java:170-174 | the exception and property table are those of `SetProxySpec`: host first, then port, stopping at the first refusal |
| PageDownloading.PageImageDownloader.ClearProxy | src/main/java/jk/kamoru/tool/web/image/PageImageDownloader.java:181-184 | removes both proxy keys from the table and nothing else |
| PageDownloading.PageImageDownloader.Download | src/main/java/jk/kamoru/tool/web/image/PageImageDownloader.java:196-254 | result or exception, and disk, are those of `PageDownloadSpec` |
| PageDownloadProperties.TitleEmptyIff | src/main/java/jk/kamoru/tool/web/image/PageImageDownloader.java:208-214 | the title is empty exactly when the prefix and CSS text are empty, the page number is 0 and the document title is empty, so a prefix or page number always passes |
| PageDownloadProperties.LimitsAcceptedIff | src/main/java/jk/kamoru/tool/web/image/PageImageDownloader.java:221-224 | the pool accepts `maxTotal = tags` and `maxPerRoute = tags / 10` exactly when there are at least 10 tags, and then `nThreads` is positive |
| PageDownloadProperties.FewerThanTenTagsRejected | src/main/java/jk/kamoru/tool/web/image/PageImageDownloader.java:262-266 | 1 to 9 tags: the per-route limit 0 is refused, the disk untouched |
| PageDownloadProperties.NoImageFails | src/main/java/jk/kamoru/tool/web/image/PageImageDownloader.java:217-219 | no tag: "no image exist - [url]" before any task, disk untouched |
| PageDownloadProperties.EmptySrcTagsCountForPool | src/main/java/jk/kamoru/tool/web/image/PageImageDownloader.java:221-236 | tags without `src` count for the pool size but get no task |
| PageDownloadProperties.EarlyFailureLeavesDisk | src/main/java/jk/kamoru/tool/web/image/PageImageDownloader.java:200-224 | a page failing before its tasks throws and leaves the disk alone |
| PageDownloadProperties.NonEmptySrcsAppend | src/main/java/jk/kamoru/tool/web/image/PageImageDownloader.java:229-231 | the filter distributes over concatenation, so document order is kept |
| PageDownloadProperties.NonEmptySrcsKeeps | src/main/java/jk/kamoru/tool/web/image/PageImageDownloader.java:229-231 | every non-empty `src` is kept |
| PageDownloadProperties.PlanShape | src/main/java/jk/kamoru/tool/web/image/PageImageDownloader.java:227-236 | one task per non-empty `src`, in order; the i-th is named `title-i`, numbers without gaps |
| PageDownloadProperties.TaskNameInjective | src/main/java/jk/kamoru/tool/web/image/PageImageDownloader.java:232 | different numbers give different task names |
| PageDownloadProperties.PlanNamesDistinct | src/main/java/jk/kamoru/tool/web/image/PageImageDownloader.java:227-236 | no two tasks of a page share a name |
| PageDownloadProperties.RunTasksOutcomeAt | src/main/java/jk/kamoru/tool/web/image/PageImageDownloader.java:241 | the k-th outcome is task k's download on the disk the earlier tasks left |
| PageDownloadProperties.RunTasksOutcomes | src/main/java/jk/kamoru/tool/web/image/PageImageDownloader.java:227-241 | a task returns its own name inside the destination, and can only throw what escapes `download()`: a refused `src` or the missing-header exception |
| PageDownloadProperties.CollectCharacterised | src/main/java/jk/kamoru/tool/web/image/PageImageDownloader.java:241-253 | succeeds exactly when no future threw, then lists exactly the non-null files, at most one per task; otherwise it throws the first failing task's exception wrapped |
| PageDownloadProperties.CollectIsNonNullFiles | src/main/java/jk/kamoru/tool/web/image/PageImageDownloader.java:244-250 | a result loop that gets through returns exactly the non-null files, front to back in task order |
| PageDownloadProperties.NonNullFilesAppend | src/main/java/jk/kamoru/tool/web/image/PageImageDownloader.java:244-250 | the front-to-back file list distributes over concatenation |
| PageDownloadProperties.CollectPositions | src/main/java/jk/kamoru/tool/web/image/PageImageDownloader.java:244-250 | the i-th collected file comes from an outcome whose position strictly increases with i |
| PageDownloadProperties.CollectedFilesDistinct | src/main/java/jk/kamoru/tool/web/image/PageImageDownloader.java:245-250 | pairwise different files give a list without repeats |
| PageDownloadProperties.PlanFilesDistinct | src/main/java/jk/kamoru/tool/web/image/PageImageDownloader.java:227-241 | the tasks of a page return pairwise different files |
| PageDownloadProperties.PlanFilesNamed | src/main/java/jk/kamoru/tool/web/image/PageImageDownloader.java:232-241 | the file task m returns is `title-(m+1)` inside the destination |
| PageDownloadProperties.CollectedFilesFromPlan | src/main/java/jk/kamoru/tool/web/image/PageImageDownloader.java:227-253 | the collected files are distinct and no more than the tasks |
| PageDownloadProperties.CollectedFilesInTaskOrder | src/main/java/jk/kamoru/tool/web/image/PageImageDownloader.java:227-253 | the i-th collected file is `title-k_i` inside the destination, with `k_i` strictly increasing |
| PageDownloadProperties.PageSuccessUnfolds | src/main/java/jk/kamoru/tool/web/image/PageImageDownloader.java:196-253 | a page that succeeds passed every check and returns `success` of the collected files |
| PageDownloadProperties.PageSuccess | src/main/java/jk/kamoru/tool/web/image/PageImageDownloader.java:196-253 | a successful page: consistent success for its URL, count at most the tasks, distinct files, the i-th being `title-k_i` in the destination with `k_i` strictly increasing |
| PageDownloadProperties.TaskForEverySrc | src/main/java/jk/kamoru/tool/web/image/PageImageDownloader.java:229-234 | every tag with a non-empty `src` has a task for that URL |
| PageDownloadProperties.TaskExceptionFailsRun | src/main/java/jk/kamoru/tool/web/image/PageImageDownloader.java:241-247 | a task that throws makes the result loop throw an `ExecutionException` of what escaped from it or an earlier task |
| PageDownloadProperties.MissingContentTypeFailsRun | src/main/java/jk/kamoru/tool/web/image/PageImageDownloader.java:241-247 | one task whose image has no `Content-Type` header makes the result loop throw; it is the wrapped `NullPointerException` unless an earlier `src` is refused |
| PageDownloadProperties.MissingContentTypeFailsPage | src/main/java/jk/kamoru/tool/web/image/PageImageDownloader.java:241-247 | one image without a `Content-Type` header fails the whole page with an `ExecutionException`; of the `NullPointerException` when every `src` is a URI with a host |
| PageDownloadProperties.UnrequestableSrcFailsPage | src/main/java/jk/kamoru/tool/web/image/PageImageDownloader.java:229-247 | one tag whose `src` is not a URI, or has no host, fails the whole page with an `ExecutionException` |
| PageDownloadProperties.StartOutcome | src/main/java/jk/kamoru/tool/web/image/PageImageDownloader.java:168-186 | `start()` throws exactly when a proxy is requested that cannot be set; otherwise the page's result, or `fail(pageUrl, e)` with the message of `e` |
| PageDownloadProperties.StartClearsProxy | src/main/java/jk/kamoru/tool/web/image/PageImageDownloader.java:170-184 | both keys are set while the page downloads and absent afterwards; other properties untouched |
| PageDownloadProperties.ProxyHostLeaksWhenPortNameNull | src/main/java/jk/kamoru/tool/web/image/PageImageDownloader.java:170-174 | a null port name escapes as an exception with the host property left set |
| PageDownloadProperties.MalformedPageUrlReported | src/main/java/jk/kamoru/tool/web/image/PageImageDownloader.java:175-200 | a page URL Jsoup refuses reaches the caller as a failed result with Jsoup's message, disk untouched |
| PageDownloadProperties.MissingContentTypeReported | src/main/java/jk/kamoru/tool/web/image/PageImageDownloader.java:175-178 | a missing header on one image reaches the caller as a failed result; its message is "java.lang.NullPointerException" when every `src` is a URI with a host |

The specification functions the methods follow have no contract of their own:
- `ImageDownloading.DownloadSpec` models ImageDownloader.java:123-226.
- `ImageDownloading.Drain` and `ImageDownloading.Save` model ImageDownloader.java:182-213.
- `PageDownloading.ComposeTitle` and `PageDownloading.TitleByCss` model PageImageDownloader.java:206-211.
- `PageDownloading.TaskName` models the `String.format("%s-%s", title, ++count)` of PageImageDownloader.java:232.
- `PageDownloading.Recover` models the `catch (Exception e)` of PageImageDownloader.java:177-178.
- `ImageDownloading.HasImageSuffix` models the extension check of ImageDownloader.java:161-162.
- `ImageDownloading.Destination` models the choice of destination directory at ImageDownloader.java:173-177.
- `PageDownloading.ThreadCount`, `ConnectionLimits` and `LimitViolation` model PageImageDownloader.java:221-224 and 262-266.
- `PageDownloading.Collect` models PageImageDownloader.java:245-253. `PageDownloadProperties.NonNullFiles` is an independent front-to-back definition of the files it returns.
- `PageDownloading.PageDownloadSpec` models PageImageDownloader.java:196-254.
- `PageDownloading.StartSpec`, `SetProxySpec` and `Cleared` model PageImageDownloader.java:168-186.

The lemmas in the table above state what they mean.

## Left out

- HTTP and HTML: Jsoup's fetch and parse and `DefaultHttpClient.execute` become the inputs `PageFetch`, `Page` and `Exchange`. The exception classes taken from those libraries come from Jsoup and from HttpClient 4.x, which the repository does not contain:
  - Jsoup refuses a malformed URL with an `IllegalArgumentException`.
  - HttpClient 4.x's `DefaultHttpClient` refuses a request without a target host with an `IllegalStateException`. Its message is left as a parameter. A CSS query Jsoup cannot parse (an empty one, say) throws inside Jsoup; the model only has "selects nothing", which throws the `NullPointerException` of `.first().text()`.
- Thread pools: `invokeAll` runs the tasks one after the other in list order. Outcomes come back in list order as with futures. The tasks' files are pairwise distinct (`CollectedFilesFromPlan`), but interleaved access to a shared directory tree is not modelled. `start(ExecutorService)` (PageImageDownloader.java:157-166) only wraps `download()` in a submitted task and is not part of this model. Neither are `shutdown()` or an `InterruptedException` from `invokeAll`.
- The shared `HttpClient`: PageImageDownloader.java:233 hands it to each task through `setHttpClient`, which the ImageDownloader.java of this snapshot does not define (its `download()` builds its own client). The model keeps only the pool's limit checks from `createHttpClient`. Socket settings and the timeout (PageImageDownloader.java:264-275) are not part of this model; `timeout` is stored but feeds only I/O.
- Streams: `close()` errors are only logged and are not modelled. `entity.getContent()` throwing is covered by a first read that throws, because both end in `deleteQuietly` of the same path. `FileOutputStream` failure is reduced to "the path is a directory or its parent is missing".
- `FileUtils.getTempDirectory()` is the `tempDir` constant of the `FileStore`.
- A write that throws (ImageDownloader.java:192) has no constructor of its own. It ends like a `ReadFailure` at the next read: the same `catch` deletes the same path, so the final disk is the same (`DeleteTreeForgetsContents`).
- Files.Join: paths are strings joined with one '/'. `java.io.File` normalises repeated and trailing slashes, so a `destDir` ending in '/' or a title starting with '/' name one Java file where the model has two strings. `JoinInjective` is a statement about the strings.
- Text.ToLower: lower-cases ASCII letters only. `String.toLowerCase()` covers all of Unicode and follows the default locale. The model assumes a locale whose lower-casing of ASCII letters is the ASCII one, which excludes the Turkish and Azerbaijani locales (there "GIF" becomes "gıf"). Only ASCII letters matter for the all-ASCII suffix list.
- PageDownloading.LimitViolation: the refusal of a limit of 0 and the two messages are those of HttpCore 4.x (`Args.positive`). No build file fixes the version. With a pool that accepts 0, pages with 1 to 9 tags would reach `newFixedThreadPool(0)` and fail with a message-less `IllegalArgumentException` (the model's `ThreadCount` branch). `FewerThanTenTagsRejected` states the 4.x behaviour.
- PageDownloadProperties.MissingContentTypeReported: a `NullPointerException` thrown by the JVM is modelled with a null message, so the message is "java.lang.NullPointerException". That holds without helpful NullPointerException messages, which are on by default from JDK 15; with them the message carries the JVM's explanation after the class name.
- Answers are fixed per URL: `Web` maps each `src` to one answer, so two tags with the same `src` get the same answer where a real server could answer differently.
- Integer widths: `count`, `imgTagSize`, `pageNo`, the content length and `minimumSize` are unbounded integers. The source's `int`/`long` overflow would need more than 2^31 tags or bytes and is not modelled.
- Errors that are not `Exception`s (`OutOfMemoryError` and the like) pass through `start()` in Java and are not modelled.
- Logging is not modelled.
- The demo drivers under `src/test/java` are live-network programs and are not part of this model.
