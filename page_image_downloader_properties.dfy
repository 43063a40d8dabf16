/** What PageImageDownloader promises, stated over `PageDownloadSpec` and
    `StartSpec`, which `PageImageDownloader.Download` and `Start` are proved to follow. */
module PageDownloadProperties {
  import opened Optional
  import opened Text
  import opened Exceptions
  import opened Files
  import opened DownloadResults
  import SystemProperties
  import opened ImageDownloading
  import opened ImageDownloadProperties
  import opened PageDownloading

  /** The page gets past the title and tag checks and the pool accepts its limits. */
  predicate PassesPageChecks(s: Settings, page: Page) {
    && TitleByCss(s.titleCssQuery, page).Normal?
    && ComposeTitle(s.titlePrefix, s.pageNo, TitleByCss(s.titleCssQuery, page).value, page.title) != ""
    && |page.imgSrcs| >= 10
  }

  /** The title the tasks are numbered under. */
  function PageTitle(s: Settings, page: Page): string
    requires TitleByCss(s.titleCssQuery, page).Normal?
  {
    ComposeTitle(s.titlePrefix, s.pageNo, TitleByCss(s.titleCssQuery, page).value, page.title)
  }

  /** The title is empty exactly when prefix, page number, CSS text and
      document title are all missing. */
  lemma TitleEmptyIff(titlePrefix: Option<string>, pageNo: int, titleByCss: Option<string>, titleByDocument: string)
    ensures ComposeTitle(titlePrefix, pageNo, titleByCss, titleByDocument) == ""
            <==> IsEmpty(titlePrefix) && pageNo == 0 && IsEmpty(titleByCss) && titleByDocument == ""
  {
    if pageNo != 0 {
      assert |IntToString(pageNo)| >= 1;
    }
  }

  /** The pool refuses its limits exactly when the page has fewer than ten
      tags, so the thread-pool check after it never fires. */
  lemma LimitsAcceptedIff(imgTagSize: nat)
    ensures LimitViolation(ConnectionLimits(imgTagSize)).None? <==> imgTagSize >= 10
    ensures LimitViolation(ConnectionLimits(imgTagSize)).None? ==> ThreadCount(imgTagSize) > 0
  {
  }

  /** One to nine tags: the per-route limit `n / 10` is zero and the page
      fails before any image is fetched. */
  lemma FewerThanTenTagsRejected(s: Settings, page: Page, web: Web, tempDir: string, disk: Disk)
    requires TitleByCss(s.titleCssQuery, page).Normal? && PageTitle(s, page) != ""
    requires 0 < |page.imgSrcs| < 10
    ensures PageDownloadSpec(s, Loaded(page), web, tempDir, disk)
            == PageStep(Thrown(IllegalArgumentException(Some("Max per route value may not be negative or zero"))), disk)
  {
  }

  /** No `<img>` at all: "no image exist", before any task or pool. */
  lemma NoImageFails(s: Settings, page: Page, web: Web, tempDir: string, disk: Disk)
    requires TitleByCss(s.titleCssQuery, page).Normal? && PageTitle(s, page) != ""
    requires page.imgSrcs == []
    ensures PageDownloadSpec(s, Loaded(page), web, tempDir, disk)
            == PageStep(Thrown(NewDownloadException(s.pageUrl, "no image exist")), disk)
    ensures GetMessage(NewDownloadException(s.pageUrl, "no image exist")) == Some("no image exist - [" + s.pageUrl + "]")
  {
    var titleByCss := TitleByCss(s.titleCssQuery, page).value;
    assert ComposeTitle(s.titlePrefix, s.pageNo, titleByCss, page.title) != "";
    assert DownloadMessage(s.pageUrl, "no image exist") == "no image exist - [" + s.pageUrl + "]";
  }

  /** Tags without `src` count for the pool size but get no task: ten or
      more of them alone give an empty success. */
  lemma EmptySrcTagsCountForPool(s: Settings, page: Page, web: Web, tempDir: string, disk: Disk)
    requires TitleByCss(s.titleCssQuery, page).Normal? && PageTitle(s, page) != ""
    requires |page.imgSrcs| >= 10
    requires forall i :: 0 <= i < |page.imgSrcs| ==> page.imgSrcs[i] == ""
    ensures PageDownloadSpec(s, Loaded(page), web, tempDir, disk) == PageStep(Normal(Success(s.pageUrl, [])), disk)
  {
    PlanShape(PageTitle(s, page), page.imgSrcs);
    var kept := NonEmptySrcs(page.imgSrcs);
    assert forall j :: 0 <= j < |kept| ==> kept[j] in kept;
  }

  /** A page that stops before its tasks throws and leaves the disk alone. */
  lemma EarlyFailureLeavesDisk(s: Settings, fetch: PageFetch, web: Web, tempDir: string, disk: Disk)
    requires !fetch.Loaded? || !PassesPageChecks(s, fetch.page)
    ensures var d := PageDownloadSpec(s, fetch, web, tempDir, disk);
            d.outcome.Thrown? && d.disk == disk
  {
  }

  /** Filtering distributes over concatenation: it keeps the order of the tags. */
  lemma {:induction false} NonEmptySrcsAppend(a: seq<string>, b: seq<string>)
    ensures NonEmptySrcs(a + b) == NonEmptySrcs(a) + NonEmptySrcs(b)
  {
    if b == [] {
      assert a + b == a;
    } else {
      var ab := a + b;
      assert ab[..|ab| - 1] == a + b[..|b| - 1];
      NonEmptySrcsAppend(a, b[..|b| - 1]);
    }
  }

  /** Every non-empty `src` is kept. */
  lemma {:induction false} NonEmptySrcsKeeps(srcs: seq<string>, i: int)
    requires 0 <= i < |srcs| && srcs[i] != ""
    ensures srcs[i] in NonEmptySrcs(srcs)
  {
    var init := srcs[..|srcs| - 1];
    if i < |srcs| - 1 {
      assert init[i] == srcs[i];
      NonEmptySrcsKeeps(init, i);
    }
  }

  /** The k-th task (from 1) downloads the k-th non-empty `src` as `title-k`. */
  lemma {:induction false} PlanShape(title: string, srcs: seq<string>)
    ensures |Plan(title, srcs)| == |NonEmptySrcs(srcs)|
    ensures forall i :: 0 <= i < |Plan(title, srcs)| ==>
              Plan(title, srcs)[i] == Task(NonEmptySrcs(srcs)[i], TaskName(title, i + 1))
  {
    if srcs != [] {
      PlanShape(title, srcs[..|srcs| - 1]);
    }
  }

  /** Different numbers give different names. */
  lemma TaskNameInjective(title: string, a: nat, b: nat)
    requires TaskName(title, a) == TaskName(title, b)
    ensures a == b
  {
    var n := |title| + 1;
    assert TaskName(title, a)[n..] == NatToString(a);
    assert TaskName(title, b)[n..] == NatToString(b);
    NatToStringInjective(a, b);
  }

  /** No two tasks of a page share a name. */
  lemma PlanNamesDistinct(title: string, srcs: seq<string>)
    ensures forall i, j :: 0 <= i < j < |Plan(title, srcs)| ==> Plan(title, srcs)[i].name != Plan(title, srcs)[j].name
  {
    var plan := Plan(title, srcs);
    PlanShape(title, srcs);
    forall i, j | 0 <= i < j < |plan|
      ensures plan[i].name != plan[j].name
    {
      if plan[i].name == plan[j].name {
        TaskNameInjective(title, i + 1, j + 1);
      }
    }
  }

  /** The k-th outcome is that task's download on the disk the earlier tasks left. */
  lemma {:induction false} RunTasksOutcomeAt(plan: seq<Task>, downloadDir: Option<string>, minimumSize: int, web: Web,
                                             tempDir: string, disk: Disk, k: int)
    requires 0 <= k < |plan|
    ensures RunTasks(plan, downloadDir, minimumSize, web, tempDir, disk).outcomes[k]
            == DownloadSpec(plan[k].src, downloadDir, Some(plan[k].name), minimumSize, tempDir, web(plan[k].src),
                            RunTasks(plan[..k], downloadDir, minimumSize, web, tempDir, disk).disk).outcome
  {
    var init := plan[..|plan| - 1];
    if k < |plan| - 1 {
      assert init[..k] == plan[..k];
      assert init[k] == plan[k];
      RunTasksOutcomeAt(init, downloadDir, minimumSize, web, tempDir, disk, k);
    } else {
      assert init == plan[..k];
    }
  }

  /** A task returns its own name in the destination directory, and can only
      throw what `download()` lets escape: the refusal of its `src` or the
      missing-header `NullPointerException`. */
  lemma RunTasksOutcomes(plan: seq<Task>, downloadDir: Option<string>, minimumSize: int, web: Web,
                         tempDir: string, disk: Disk)
    ensures var outcomes := RunTasks(plan, downloadDir, minimumSize, web, tempDir, disk).outcomes;
            forall k :: 0 <= k < |outcomes| ==>
              && (outcomes[k].Normal? && outcomes[k].value.Some? ==>
                    outcomes[k].value.value == Join(Destination(downloadDir, tempDir), plan[k].name))
              && (outcomes[k].Thrown? ==> EscapesFrom(web(plan[k].src), outcomes[k].error))
  {
    var outcomes := RunTasks(plan, downloadDir, minimumSize, web, tempDir, disk).outcomes;
    forall k | 0 <= k < |outcomes|
      ensures outcomes[k].Normal? && outcomes[k].value.Some? ==>
                outcomes[k].value.value == Join(Destination(downloadDir, tempDir), plan[k].name)
      ensures outcomes[k].Thrown? ==> EscapesFrom(web(plan[k].src), outcomes[k].error)
    {
      var before := RunTasks(plan[..k], downloadDir, minimumSize, web, tempDir, disk).disk;
      RunTasksOutcomeAt(plan, downloadDir, minimumSize, web, tempDir, disk, k);
      SuppliedTitleUsedVerbatim(plan[k].src, downloadDir, plan[k].name, minimumSize, tempDir, web(plan[k].src), before);
      OnlyUncaughtExceptionsEscape(plan[k].src, downloadDir, Some(plan[k].name), minimumSize, tempDir, web(plan[k].src), before);
    }
  }

  /** The result loop succeeds exactly when no future threw; then it lists
      every non-null file and nothing else. Otherwise it throws the first
      task's exception wrapped in an `ExecutionException`. */
  lemma {:induction false} CollectCharacterised(outcomes: seq<Outcome<Option<string>>>)
    ensures Collect(outcomes).Normal? <==> forall k :: 0 <= k < |outcomes| ==> outcomes[k].Normal?
    ensures Collect(outcomes).Normal? ==> |Collect(outcomes).value| <= |outcomes|
    ensures Collect(outcomes).Normal? ==>
              forall f :: f in Collect(outcomes).value <==> exists k :: 0 <= k < |outcomes| && outcomes[k] == Normal(Some(f))
    ensures Collect(outcomes).Thrown? ==>
              exists k :: && 0 <= k < |outcomes| && outcomes[k].Thrown?
                          && Collect(outcomes).error == ExecutionException(outcomes[k].error)
                          && forall j :: 0 <= j < k ==> outcomes[j].Normal?
  {
    if outcomes != [] {
      var n := |outcomes| - 1;
      var init := outcomes[..n];
      CollectCharacterised(init);
      assert forall k :: 0 <= k < n ==> init[k] == outcomes[k];
      if Collect(init).Normal? && outcomes[n].Normal? {
        var images := Collect(init).value;
        forall f
          ensures f in Collect(outcomes).value <==> exists k :: 0 <= k < |outcomes| && outcomes[k] == Normal(Some(f))
        {
          if f in images {
            var k :| 0 <= k < n && init[k] == Normal(Some(f));
            assert outcomes[k] == Normal(Some(f));
          }
          if exists k :: 0 <= k < |outcomes| && outcomes[k] == Normal(Some(f)) {
            var k :| 0 <= k < |outcomes| && outcomes[k] == Normal(Some(f));
            if k < n {
              assert init[k] == Normal(Some(f));
            }
          }
        }
      }
    }
  }

  /** The files the outcomes return, front to back: a reference for the
      result loop that leaves exceptions aside. */
  function NonNullFiles(outcomes: seq<Outcome<Option<string>>>): seq<string> {
    if outcomes == [] then []
    else (if outcomes[0].Normal? && outcomes[0].value.Some? then [outcomes[0].value.value] else [])
         + NonNullFiles(outcomes[1..])
  }

  lemma {:induction false} NonNullFilesAppend(a: seq<Outcome<Option<string>>>, b: seq<Outcome<Option<string>>>)
    ensures NonNullFiles(a + b) == NonNullFiles(a) + NonNullFiles(b)
  {
    if a == [] {
      assert a + b == b;
    } else {
      assert (a + b)[1..] == a[1..] + b;
      NonNullFilesAppend(a[1..], b);
    }
  }

  /** A result loop that gets through lists the non-null files in task order. */
  lemma {:induction false} CollectIsNonNullFiles(outcomes: seq<Outcome<Option<string>>>)
    ensures Collect(outcomes).Normal? ==> Collect(outcomes).value == NonNullFiles(outcomes)
  {
    if outcomes != [] {
      var n := |outcomes| - 1;
      CollectIsNonNullFiles(outcomes[..n]);
      assert outcomes == outcomes[..n] + [outcomes[n]];
      NonNullFilesAppend(outcomes[..n], [outcomes[n]]);
      assert [outcomes[n]][1..] == [];
    }
  }

  /** The i-th collected file comes from the outcome at `ix[i]`, and these
      positions strictly increase: the order of the futures is kept. */
  lemma {:induction false} CollectPositions(outcomes: seq<Outcome<Option<string>>>) returns (ix: seq<int>)
    requires Collect(outcomes).Normal?
    ensures |ix| == |Collect(outcomes).value|
    ensures forall i :: 0 <= i < |ix| ==>
              0 <= ix[i] < |outcomes| && outcomes[ix[i]] == Normal(Some(Collect(outcomes).value[i]))
    ensures forall i, j :: 0 <= i < j < |ix| ==> ix[i] < ix[j]
  {
    if outcomes == [] {
      ix := [];
    } else {
      var n := |outcomes| - 1;
      var init := outcomes[..n];
      assert Collect(init).Normal?;
      ix := CollectPositions(init);
      assert forall k :: 0 <= k < n ==> init[k] == outcomes[k];
      if outcomes[n].value.Some? {
        ix := ix + [n];
      }
    }
  }

  /** `outcomes[k]` returned a file. */
  predicate ReturnsFile(outcomes: seq<Outcome<Option<string>>>, k: int)
    requires 0 <= k < |outcomes|
  {
    outcomes[k].Normal? && outcomes[k].value.Some?
  }

  /** No two outcomes return the same file. */
  predicate FilesPairwiseDistinct(outcomes: seq<Outcome<Option<string>>>) {
    forall i, j :: 0 <= i < j < |outcomes| && ReturnsFile(outcomes, i) && ReturnsFile(outcomes, j) ==>
      outcomes[i].value.value != outcomes[j].value.value
  }

  /** Pairwise different files in the outcomes give a list without repeats. */
  lemma {:induction false} CollectedFilesDistinct(outcomes: seq<Outcome<Option<string>>>)
    requires FilesPairwiseDistinct(outcomes)
    requires Collect(outcomes).Normal?
    ensures forall i, j :: 0 <= i < j < |Collect(outcomes).value| ==> Collect(outcomes).value[i] != Collect(outcomes).value[j]
  {
    if outcomes != [] {
      var n := |outcomes| - 1;
      var init := outcomes[..n];
      assert forall k :: 0 <= k < n ==> init[k] == outcomes[k];
      CollectedFilesDistinct(init);
      CollectCharacterised(init);
      var images := Collect(init).value;
      if outcomes[n].value.Some? {
        var f := outcomes[n].value.value;
        forall g | g in images
          ensures g != f
        {
          var k :| 0 <= k < n && init[k] == Normal(Some(g));
          assert outcomes[k] == Normal(Some(g));
        }
        assert Collect(outcomes).value == images + [f];
      }
    }
  }

  /** The result of a page that gets through: a success built from what the
      result loop collected from the tasks' outcomes. */
  lemma PageSuccessUnfolds(s: Settings, fetch: PageFetch, web: Web, tempDir: string, disk: Disk)
    requires PageDownloadSpec(s, fetch, web, tempDir, disk).outcome.Normal?
    ensures fetch.Loaded? && PassesPageChecks(s, fetch.page)
    ensures var outcomes := RunTasks(Plan(PageTitle(s, fetch.page), fetch.page.imgSrcs), s.downloadDir,
                                     s.minimumSize, web, tempDir, disk).outcomes;
            && Collect(outcomes).Normal?
            && PageDownloadSpec(s, fetch, web, tempDir, disk).outcome == Normal(Success(s.pageUrl, Collect(outcomes).value))
  {
    LimitsAcceptedIff(|fetch.page.imgSrcs|);
  }

  /** A successful page: it passed every check, its result is a consistent
      success for its URL, and its files are distinct, the i-th being
      `title-ks[i]` inside the destination with `ks` strictly increasing, so
      the files come in ascending task order. */
  lemma PageSuccess(s: Settings, fetch: PageFetch, web: Web, tempDir: string, disk: Disk) returns (ks: seq<int>)
    requires PageDownloadSpec(s, fetch, web, tempDir, disk).outcome.Normal?
    ensures fetch.Loaded? && PassesPageChecks(s, fetch.page)
    ensures var r := PageDownloadSpec(s, fetch, web, tempDir, disk).outcome.value;
            && Consistent(r) && r.result && r.pageUrl == s.pageUrl
            && r.count <= |NonEmptySrcs(fetch.page.imgSrcs)|
            && (forall i, j :: 0 <= i < j < |r.images.value| ==> r.images.value[i] != r.images.value[j])
            && |ks| == |r.images.value|
            && (forall i :: 0 <= i < |ks| ==>
                  && 1 <= ks[i] <= |NonEmptySrcs(fetch.page.imgSrcs)|
                  && r.images.value[i] == Join(Destination(s.downloadDir, tempDir), TaskName(PageTitle(s, fetch.page), ks[i])))
            && (forall i, j :: 0 <= i < j < |ks| ==> ks[i] < ks[j])
  {
    PageSuccessUnfolds(s, fetch, web, tempDir, disk);
    CollectedFilesFromPlan(PageTitle(s, fetch.page), fetch.page.imgSrcs, s.downloadDir, s.minimumSize, web, tempDir, disk);
    ks := CollectedFilesInTaskOrder(PageTitle(s, fetch.page), fetch.page.imgSrcs, s.downloadDir, s.minimumSize,
                                    web, tempDir, disk);
  }

  /** The tasks of a plan return pairwise different files. */
  lemma PlanFilesDistinct(title: string, srcs: seq<string>, downloadDir: Option<string>, minimumSize: int,
                          web: Web, tempDir: string, disk: Disk)
    ensures FilesPairwiseDistinct(RunTasks(Plan(title, srcs), downloadDir, minimumSize, web, tempDir, disk).outcomes)
  {
    var plan := Plan(title, srcs);
    var outcomes := RunTasks(plan, downloadDir, minimumSize, web, tempDir, disk).outcomes;
    PlanShape(title, srcs);
    PlanNamesDistinct(title, srcs);
    RunTasksOutcomes(plan, downloadDir, minimumSize, web, tempDir, disk);
    forall i, j | 0 <= i < j < |outcomes| && ReturnsFile(outcomes, i) && ReturnsFile(outcomes, j)
      ensures outcomes[i].value.value != outcomes[j].value.value
    {
      if outcomes[i].value.value == outcomes[j].value.value {
        JoinInjective(Destination(downloadDir, tempDir), plan[i].name, plan[j].name);
      }
    }
  }

  /** A file a plan's task returns is `title-k` inside the destination, for a task number k. */
  lemma PlanFilesNamed(title: string, srcs: seq<string>, downloadDir: Option<string>, minimumSize: int,
                       web: Web, tempDir: string, disk: Disk, m: int)
    requires var outcomes := RunTasks(Plan(title, srcs), downloadDir, minimumSize, web, tempDir, disk).outcomes;
             0 <= m < |outcomes| && ReturnsFile(outcomes, m)
    ensures var outcomes := RunTasks(Plan(title, srcs), downloadDir, minimumSize, web, tempDir, disk).outcomes;
            1 <= m + 1 <= |NonEmptySrcs(srcs)|
            && outcomes[m].value.value == Join(Destination(downloadDir, tempDir), TaskName(title, m + 1))
  {
    PlanShape(title, srcs);
    RunTasksOutcomes(Plan(title, srcs), downloadDir, minimumSize, web, tempDir, disk);
  }

  /** The files the result loop collects from a plan's run: distinct and at
      most one per task. */
  lemma CollectedFilesFromPlan(title: string, srcs: seq<string>, downloadDir: Option<string>, minimumSize: int,
                               web: Web, tempDir: string, disk: Disk)
    requires Collect(RunTasks(Plan(title, srcs), downloadDir, minimumSize, web, tempDir, disk).outcomes).Normal?
    ensures var images := Collect(RunTasks(Plan(title, srcs), downloadDir, minimumSize, web, tempDir, disk).outcomes).value;
            && |images| <= |NonEmptySrcs(srcs)|
            && (forall i, j :: 0 <= i < j < |images| ==> images[i] != images[j])
  {
    var outcomes := RunTasks(Plan(title, srcs), downloadDir, minimumSize, web, tempDir, disk).outcomes;
    PlanShape(title, srcs);
    CollectCharacterised(outcomes);
    PlanFilesDistinct(title, srcs, downloadDir, minimumSize, web, tempDir, disk);
    CollectedFilesDistinct(outcomes);
  }

  /** The i-th file the result loop collects from a plan's run is
      `title-ks[i]` inside the destination, with the task numbers `ks`
      strictly increasing: the files come in ascending task order. */
  lemma CollectedFilesInTaskOrder(title: string, srcs: seq<string>, downloadDir: Option<string>, minimumSize: int,
                                  web: Web, tempDir: string, disk: Disk) returns (ks: seq<int>)
    requires Collect(RunTasks(Plan(title, srcs), downloadDir, minimumSize, web, tempDir, disk).outcomes).Normal?
    ensures var images := Collect(RunTasks(Plan(title, srcs), downloadDir, minimumSize, web, tempDir, disk).outcomes).value;
            && |ks| == |images|
            && (forall i :: 0 <= i < |ks| ==>
                  && 1 <= ks[i] <= |NonEmptySrcs(srcs)|
                  && images[i] == Join(Destination(downloadDir, tempDir), TaskName(title, ks[i])))
            && (forall i, j :: 0 <= i < j < |ks| ==> ks[i] < ks[j])
  {
    var outcomes := RunTasks(Plan(title, srcs), downloadDir, minimumSize, web, tempDir, disk).outcomes;
    var images := Collect(outcomes).value;
    var ix := CollectPositions(outcomes);
    ks := seq(|ix|, i requires 0 <= i < |ix| => ix[i] + 1);
    forall i | 0 <= i < |ks|
      ensures 1 <= ks[i] <= |NonEmptySrcs(srcs)|
      ensures images[i] == Join(Destination(downloadDir, tempDir), TaskName(title, ks[i]))
    {
      PlanFilesNamed(title, srcs, downloadDir, minimumSize, web, tempDir, disk, ix[i]);
    }
  }

  /** Every tag with a non-empty `src` has a task for it. */
  lemma TaskForEverySrc(title: string, srcs: seq<string>, i: int) returns (m: int)
    requires 0 <= i < |srcs| && srcs[i] != ""
    ensures 0 <= m < |Plan(title, srcs)| && Plan(title, srcs)[m].src == srcs[i]
  {
    NonEmptySrcsKeeps(srcs, i);
    PlanShape(title, srcs);
    m :| 0 <= m < |NonEmptySrcs(srcs)| && NonEmptySrcs(srcs)[m] == srcs[i];
  }

  /** Every tag's `src` is a URI with a host, so `execute` sends its request. */
  predicate AllSrcsRequestable(web: Web, srcs: seq<string>) {
    forall j :: 0 <= j < |srcs| ==> Requestable(web(srcs[j]))
  }

  /** A task whose `download()` throws makes the result loop throw an
      `ExecutionException` of an exception escaping that task or an earlier one. */
  lemma TaskExceptionFailsRun(plan: seq<Task>, downloadDir: Option<string>, minimumSize: int, web: Web,
                              tempDir: string, disk: Disk, m: int) returns (k: int)
    requires 0 <= m < |plan|
    requires RunTasks(plan, downloadDir, minimumSize, web, tempDir, disk).outcomes[m].Thrown?
    ensures var c := Collect(RunTasks(plan, downloadDir, minimumSize, web, tempDir, disk).outcomes);
            && 0 <= k <= m
            && c.Thrown? && c.error.ExecutionException?
            && EscapesFrom(web(plan[k].src), c.error.reason)
  {
    var outcomes := RunTasks(plan, downloadDir, minimumSize, web, tempDir, disk).outcomes;
    RunTasksOutcomes(plan, downloadDir, minimumSize, web, tempDir, disk);
    CollectCharacterised(outcomes);
    k :| && 0 <= k < |outcomes| && outcomes[k].Thrown?
         && Collect(outcomes).error == ExecutionException(outcomes[k].error)
         && forall j :: 0 <= j < k ==> outcomes[j].Normal?;
  }

  /** One planned task whose image answers without a Content-Type header makes
      the result loop throw; it throws the wrapped `NullPointerException`
      unless an earlier task's `src` is refused as a URI or has no host. */
  lemma MissingContentTypeFailsRun(plan: seq<Task>, downloadDir: Option<string>, minimumSize: int, web: Web,
                                   tempDir: string, disk: Disk, m: int)
    requires 0 <= m < |plan|
    requires web(plan[m].src).Answered?
    requires web(plan[m].src).response.entity.Some?
    requires web(plan[m].src).response.entity.value.contentLength >= minimumSize
    requires web(plan[m].src).response.contentType == NoHeader
    ensures var c := Collect(RunTasks(plan, downloadDir, minimumSize, web, tempDir, disk).outcomes);
            && c.Thrown? && c.error.ExecutionException?
            && Uncaught(c.error.reason)
    ensures (forall j :: 0 <= j < m ==> Requestable(web(plan[j].src))) ==>
              Collect(RunTasks(plan, downloadDir, minimumSize, web, tempDir, disk).outcomes)
              == Thrown(ExecutionException(NullPointerException(None)))
  {
    RunTasksOutcomeAt(plan, downloadDir, minimumSize, web, tempDir, disk, m);
    var k := TaskExceptionFailsRun(plan, downloadDir, minimumSize, web, tempDir, disk, m);
  }

  /** One tag whose image answers without a Content-Type header makes the
      whole page throw, whatever the other tags do; when every `src` is a
      URI with a host, it throws the wrapped `NullPointerException`. */
  lemma MissingContentTypeFailsPage(s: Settings, page: Page, web: Web, tempDir: string, disk: Disk, i: int)
    requires PassesPageChecks(s, page)
    requires 0 <= i < |page.imgSrcs| && page.imgSrcs[i] != ""
    requires web(page.imgSrcs[i]).Answered?
    requires web(page.imgSrcs[i]).response.entity.Some?
    requires web(page.imgSrcs[i]).response.entity.value.contentLength >= s.minimumSize
    requires web(page.imgSrcs[i]).response.contentType == NoHeader
    ensures var d := PageDownloadSpec(s, Loaded(page), web, tempDir, disk).outcome;
            && d.Thrown? && d.error.ExecutionException?
            && Uncaught(d.error.reason)
    ensures AllSrcsRequestable(web, page.imgSrcs) ==>
              PageDownloadSpec(s, Loaded(page), web, tempDir, disk).outcome
              == Thrown(ExecutionException(NullPointerException(None)))
  {
    var plan := Plan(PageTitle(s, page), page.imgSrcs);
    var m := TaskForEverySrc(PageTitle(s, page), page.imgSrcs, i);
    if AllSrcsRequestable(web, page.imgSrcs) {
      PlanShape(PageTitle(s, page), page.imgSrcs);
      forall j | 0 <= j < m
        ensures Requestable(web(plan[j].src))
      {
        var kept := NonEmptySrcs(page.imgSrcs);
        assert kept[j] in kept;
        var t :| 0 <= t < |page.imgSrcs| && page.imgSrcs[t] == kept[j];
      }
    }
    MissingContentTypeFailsRun(plan, s.downloadDir, s.minimumSize, web, tempDir, disk, m);
    LimitsAcceptedIff(|page.imgSrcs|);
  }

  /** One tag whose `src` `URI.create` refuses, or that has no host, makes
      the whole page throw an `ExecutionException` (of that exception, or of
      an earlier task's). */
  lemma UnrequestableSrcFailsPage(s: Settings, page: Page, web: Web, tempDir: string, disk: Disk, i: int)
    requires PassesPageChecks(s, page)
    requires 0 <= i < |page.imgSrcs| && page.imgSrcs[i] != ""
    requires !Requestable(web(page.imgSrcs[i]))
    ensures var d := PageDownloadSpec(s, Loaded(page), web, tempDir, disk).outcome;
            && d.Thrown? && d.error.ExecutionException?
            && Uncaught(d.error.reason)
  {
    var plan := Plan(PageTitle(s, page), page.imgSrcs);
    var m := TaskForEverySrc(PageTitle(s, page), page.imgSrcs, i);
    RunTasksOutcomeAt(plan, s.downloadDir, s.minimumSize, web, tempDir, disk, m);
    var k := TaskExceptionFailsRun(plan, s.downloadDir, s.minimumSize, web, tempDir, disk, m);
    LimitsAcceptedIff(|page.imgSrcs|);
  }

  /** The proxy settings `System.setProperty` accepts. */
  predicate ProxyUsable(p: Proxy) {
    && p.hostName.Some? && p.hostName.value != "" && p.hostValue.Some?
    && p.portName.Some? && p.portName.value != ""
  }

  /** `start()` throws exactly when a proxy is requested that cannot be set;
      otherwise it returns the page's result, or `fail(pageUrl, e)` for the
      exception `e` the page threw, and the disk the page left. */
  lemma StartOutcome(s: Settings, p: Proxy, fetch: PageFetch, web: Web, tempDir: string, disk: Disk,
                     props: map<string, string>)
    ensures var st := StartSpec(s, p, fetch, web, tempDir, disk, props);
            st.outcome.Thrown? <==> p.active && !ProxyUsable(p)
    ensures var st := StartSpec(s, p, fetch, web, tempDir, disk, props);
            var d := PageDownloadSpec(s, fetch, web, tempDir, disk);
            st.outcome.Normal? ==>
              && st.disk == d.disk
              && Consistent(st.outcome.value)
              && st.outcome.value.pageUrl == s.pageUrl
              && (st.outcome.value.result <==> d.outcome.Normal?)
              && (d.outcome.Normal? ==> st.outcome.value == d.outcome.value)
              && (d.outcome.Thrown? ==> st.outcome.value.message == GetMessage(d.outcome.error))
  {
    var d := PageDownloadSpec(s, fetch, web, tempDir, disk);
    if d.outcome.Normal? {
      var _ := PageSuccess(s, fetch, web, tempDir, disk);
    }
  }

  /** With a usable proxy, both keys are set while the page downloads and
      both are gone afterwards (a value they held before is not restored);
      every other property is untouched. */
  lemma StartClearsProxy(s: Settings, p: Proxy, fetch: PageFetch, web: Web, tempDir: string, disk: Disk,
                         props: map<string, string>)
    requires p.active && ProxyUsable(p)
    ensures var st := StartSpec(s, p, fetch, web, tempDir, disk, props);
            && st.during == props[p.hostName.value := p.hostValue.value][p.portName.value := IntToString(p.portValue)]
            && p.hostName.value !in st.props && p.portName.value !in st.props
            && forall k :: k in props && k != p.hostName.value && k != p.portName.value ==>
                 k in st.props && st.props[k] == props[k]
  {
  }

  /** A null port name: the host property has already been set when
      `setProperty` throws, the exception escapes `start()` and the host stays set. */
  lemma ProxyHostLeaksWhenPortNameNull(s: Settings, p: Proxy, fetch: PageFetch, web: Web, tempDir: string,
                                       disk: Disk, props: map<string, string>)
    requires p.active && p.hostName.Some? && p.hostName.value != "" && p.hostValue.Some? && p.portName.None?
    ensures StartSpec(s, p, fetch, web, tempDir, disk, props)
            == StartStep(Thrown(NullPointerException(Some("key can't be null"))), disk,
                         props[p.hostName.value := p.hostValue.value], props[p.hostName.value := p.hostValue.value])
  {
  }

  /** A malformed page URL reaches the caller of `start()` as a failed result
      carrying Jsoup's message, with the disk untouched. */
  lemma MalformedPageUrlReported(s: Settings, p: Proxy, reason: string, web: Web, tempDir: string, disk: Disk,
                                 props: map<string, string>)
    requires !p.active || ProxyUsable(p)
    ensures var st := StartSpec(s, p, MalformedUrl(reason), web, tempDir, disk, props);
            && st.outcome == Normal(Fail(s.pageUrl, IllegalArgumentException(Some(reason))))
            && st.outcome.value.message == Some(reason)
            && st.disk == disk
  {
  }

  /** A missing Content-Type on one image reaches the caller of `start()` as a
      failed result; when every `src` is a URI with a host, its message is
      the name of `NullPointerException`. */
  lemma MissingContentTypeReported(s: Settings, p: Proxy, page: Page, web: Web, tempDir: string, disk: Disk,
                                   props: map<string, string>, i: int)
    requires !p.active || ProxyUsable(p)
    requires PassesPageChecks(s, page)
    requires 0 <= i < |page.imgSrcs| && page.imgSrcs[i] != ""
    requires web(page.imgSrcs[i]).Answered?
    requires web(page.imgSrcs[i]).response.entity.Some?
    requires web(page.imgSrcs[i]).response.entity.value.contentLength >= s.minimumSize
    requires web(page.imgSrcs[i]).response.contentType == NoHeader
    ensures var r := StartSpec(s, p, Loaded(page), web, tempDir, disk, props).outcome;
            && r.Normal? && !r.value.result && r.value.images.None? && r.value.count == 0
    ensures AllSrcsRequestable(web, page.imgSrcs) ==>
              StartSpec(s, p, Loaded(page), web, tempDir, disk, props).outcome.value.message
              == Some("java.lang.NullPointerException")
  {
    MissingContentTypeFailsPage(s, page, web, tempDir, disk, i);
    assert GetMessage(NullPointerException(None)).None?;
    assert Describe(NullPointerException(None)) == "java.lang.NullPointerException";
  }
}
