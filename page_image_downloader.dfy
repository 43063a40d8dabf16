/** PageImageDownloader.java: download every `<img>` of one web page. */
module PageDownloading {
  import opened Optional
  import opened Text
  import opened Exceptions
  import opened Files
  import opened DownloadResults
  import SystemProperties
  import opened ImageDownloading

  /** The parsed page: `document.title()`; the text of the first element the
      title CSS query selects (`None` when it selects nothing); the `src`
      attribute of every `<img>` in document order ("" when it has none). */
  datatype Page = Page(title: string, cssFirstText: Option<string>, imgSrcs: seq<string>)

  /** `Jsoup.connect(pageUrl)...get()`: it refuses a malformed `pageUrl` with
      an unchecked `IllegalArgumentException`, throws an `IOException`,
      returns null, or returns the document. `start()`'s `catch (Exception e)`
      turns either exception into a failed result. */
  datatype PageFetch =
    | MalformedUrl(reason: string)
    | Unreachable(detail: Option<string>)
    | NullDocument
    | Loaded(page: Page)

  /** What the server answers for each image URL. */
  type Web = string -> Exchange

  /** The fields `download()` reads. */
  datatype Settings = Settings(
    pageUrl: string,
    downloadDir: Option<string>,
    titlePrefix: Option<string>,
    titleCssQuery: Option<string>,
    pageNo: int,
    minimumSize: int)

  /** The fields `start()` reads for the proxy. */
  datatype Proxy = Proxy(
    active: bool,
    hostName: Option<string>,
    hostValue: Option<string>,
    portName: Option<string>,
    portValue: int)

  /** `titleByCSS`: null without a query; `first()` is null, and `.text()`
      throws, when the query selects nothing. */
  function TitleByCss(titleCssQuery: Option<string>, page: Page): Outcome<Option<string>> {
    if titleCssQuery.None? then Normal(None)
    else if page.cssFirstText.None? then Thrown(NullPointerException(None))
    else Normal(page.cssFirstText)
  }

  /** `String.format("%s%s%s", ...)` of the prefix, the page number and the
      CSS text or, when that is empty, the document title. */
  function ComposeTitle(titlePrefix: Option<string>, pageNo: int, titleByCss: Option<string>,
                        titleByDocument: string): string
  {
    (if IsEmpty(titlePrefix) then "" else titlePrefix.value + "-")
    + (if pageNo == 0 then "" else IntToString(pageNo) + "-")
    + (if IsEmpty(titleByCss) then titleByDocument else titleByCss.value)
  }

  /** `String.format("%s-%s", title, count)`. */
  function TaskName(title: string, count: nat): string {
    title + "-" + NatToString(count)
  }

  /** An image task: its URL and the title it is given. */
  datatype Task = Task(src: string, name: string)

  /** The `src` values the task loop keeps: the non-empty ones, in order. */
  function NonEmptySrcs(srcs: seq<string>): (kept: seq<string>)
    ensures |kept| <= |srcs|
    ensures forall s :: s in kept ==> s in srcs && s != ""
  {
    if srcs == [] then []
    else
      var earlier := NonEmptySrcs(srcs[..|srcs| - 1]);
      if srcs[|srcs| - 1] == "" then earlier else earlier + [srcs[|srcs| - 1]]
  }

  /** The task loop: a tag with a non-empty `src` gets the next number. */
  function Plan(title: string, srcs: seq<string>): (tasks: seq<Task>)
    ensures |tasks| <= |srcs|
  {
    if srcs == [] then []
    else
      var earlier := Plan(title, srcs[..|srcs| - 1]);
      var src := srcs[|srcs| - 1];
      if src == "" then earlier else earlier + [Task(src, TaskName(title, |earlier| + 1))]
  }

  /** `nThreads = imgTagSize / 10` (both non-negative, so truncation and
      Dafny's division agree). */
  function ThreadCount(imgTagSize: nat): nat {
    imgTagSize / 10
  }

  datatype PoolLimits = PoolLimits(maxTotal: int, maxPerRoute: int)

  /** `createHttpClient(imgTagSize, nThreads)`: the limits it installs. */
  function ConnectionLimits(imgTagSize: nat): PoolLimits {
    PoolLimits(imgTagSize, ThreadCount(imgTagSize))
  }

  /** The connection pool's checks as the limits are set (`setMaxTotal`, then
      `setDefaultMaxPerRoute`): a limit that is not positive is refused. */
  function LimitViolation(limits: PoolLimits): Option<Exception> {
    if limits.maxTotal <= 0 then Some(IllegalArgumentException(Some("Max value may not be negative or zero")))
    else if limits.maxPerRoute <= 0 then Some(IllegalArgumentException(Some("Max per route value may not be negative or zero")))
    else None
  }

  /** The outcome of every task, and the disk after all of them. */
  datatype Run = Run(outcomes: seq<Outcome<Option<string>>>, disk: Disk)

  /** `invokeAll(tasks)`, as a run of the tasks one after the other in list order. */
  function RunTasks(plan: seq<Task>, downloadDir: Option<string>, minimumSize: int, web: Web,
                    tempDir: string, disk: Disk): (run: Run)
    ensures |run.outcomes| == |plan|
  {
    if plan == [] then Run([], disk)
    else
      var earlier := RunTasks(plan[..|plan| - 1], downloadDir, minimumSize, web, tempDir, disk);
      var task := plan[|plan| - 1];
      var step := DownloadSpec(task.src, downloadDir, Some(task.name), minimumSize, tempDir, web(task.src), earlier.disk);
      Run(earlier.outcomes + [step.outcome], step.disk)
  }

  /** The result loop: `get()` on each future in order, keeping the non-null
      files; a task's exception comes out of `get()` as an `ExecutionException`. */
  function Collect(outcomes: seq<Outcome<Option<string>>>): Outcome<seq<string>> {
    if outcomes == [] then Normal([])
    else match Collect(outcomes[..|outcomes| - 1])
      case Thrown(e) => Thrown(e)
      case Normal(images) =>
        match outcomes[|outcomes| - 1]
        case Thrown(e) => Thrown(ExecutionException(e))
        case Normal(file) => Normal(if file.Some? then images + [file.value] else images)
  }

  datatype PageStep = PageStep(outcome: Outcome<DownloadResult>, disk: Disk)

  /** The private `download()`: its result or the exception it throws, and the disk after it. */
  function PageDownloadSpec(s: Settings, fetch: PageFetch, web: Web, tempDir: string, disk: Disk): PageStep {
    match fetch
    case MalformedUrl(reason) => PageStep(Thrown(IllegalArgumentException(Some(reason))), disk)
    case Unreachable(detail) => PageStep(Thrown(IOException(detail)), disk)
    case NullDocument => PageStep(Thrown(NewDownloadException(s.pageUrl, "document is null")), disk)
    case Loaded(page) =>
      match TitleByCss(s.titleCssQuery, page)
      case Thrown(e) => PageStep(Thrown(e), disk)
      case Normal(titleByCss) =>
        var title := ComposeTitle(s.titlePrefix, s.pageNo, titleByCss, page.title);
        if title == "" then PageStep(Thrown(NewDownloadException(s.pageUrl, "title is empty")), disk)
        else if |page.imgSrcs| == 0 then PageStep(Thrown(NewDownloadException(s.pageUrl, "no image exist")), disk)
        else
          var imgTagSize := |page.imgSrcs|;
          match LimitViolation(ConnectionLimits(imgTagSize))
          case Some(e) => PageStep(Thrown(e), disk)
          case None =>
            if ThreadCount(imgTagSize) <= 0 then PageStep(Thrown(IllegalArgumentException(None)), disk)
            else
              var run := RunTasks(Plan(title, page.imgSrcs), s.downloadDir, s.minimumSize, web, tempDir, disk);
              match Collect(run.outcomes)
              case Thrown(e) => PageStep(Thrown(e), run.disk)
              case Normal(images) => PageStep(Normal(Success(s.pageUrl, images)), run.disk)
  }

  /** The state after `start()`: its outcome, the disk, the JVM properties,
      and the properties in force while `download()` ran. */
  datatype StartStep = StartStep(
    outcome: Outcome<DownloadResult>,
    disk: Disk,
    props: map<string, string>,
    during: map<string, string>)

  /** `catch (Exception e) { return DownloadResult.fail(pageUrl, e); }` */
  function Recover(pageUrl: string, outcome: Outcome<DownloadResult>): DownloadResult {
    match outcome
    case Normal(r) => r
    case Thrown(e) => Fail(pageUrl, e)
  }

  /** The proxy lines at the head of `start()`, before its `try`: the
      exception that escapes when a key or value is refused, and the property
      table as they leave it. */
  datatype ProxyStep = ProxyStep(error: Option<Exception>, props: map<string, string>)

  function SetProxySpec(p: Proxy, props: map<string, string>): ProxyStep {
    if !p.active then ProxyStep(None, props)
    else match SystemProperties.Set(props, p.hostName, p.hostValue)
      case Thrown(e) => ProxyStep(Some(e), props)
      case Normal(withHost) =>
        match SystemProperties.Set(withHost, p.portName, Some(IntToString(p.portValue)))
        case Thrown(e) => ProxyStep(Some(e), withHost)
        case Normal(withProxy) => ProxyStep(None, withProxy)
  }

  /** `clearProperty(key)` for a key that was set, so is neither null nor empty. */
  function Cleared(props: map<string, string>, key: Option<string>): map<string, string> {
    if key.Some? then props - {key.value} else props
  }

  /** `start()`: a failure to set the proxy escapes; otherwise the page is
      downloaded, its exception turned into a failed result, and the
      `finally` clears both keys. */
  function StartSpec(s: Settings, p: Proxy, fetch: PageFetch, web: Web, tempDir: string, disk: Disk,
                     props: map<string, string>): StartStep
  {
    var ps := SetProxySpec(p, props);
    if ps.error.Some? then StartStep(Thrown(ps.error.value), disk, ps.props, ps.props)
    else
      var d := PageDownloadSpec(s, fetch, web, tempDir, disk);
      var after := if p.active then Cleared(Cleared(ps.props, p.hostName), p.portName) else ps.props;
      StartStep(Normal(Recover(s.pageUrl, d.outcome)), d.disk, after, ps.props)
  }

  /** An `ImageDownloader` built for `task`. */
  predicate Matches(d: ImageDownloader, task: Task, downloadDir: Option<string>, minimumSize: int)
    reads d
  {
    d.imgSrc == task.src && d.title == Some(task.name) && d.destDir == downloadDir && d.minimumSize == minimumSize
  }

  /** The task loop of `download()`: one `ImageDownloader` per non-empty `src`. */
  method CollectTasks(title: string, srcs: seq<string>, downloadDir: Option<string>, minimumSize: int)
    returns (tasks: seq<ImageDownloader>)
    ensures |tasks| == |Plan(title, srcs)|
    ensures forall j :: 0 <= j < |tasks| ==>
              fresh(tasks[j]) && Matches(tasks[j], Plan(title, srcs)[j], downloadDir, minimumSize)
  {
    tasks := [];
    var count := 0;
    var i := 0;
    while i < |srcs|
      invariant 0 <= i <= |srcs|
      invariant count == |tasks| == |Plan(title, srcs[..i])|
      invariant forall j :: 0 <= j < |tasks| ==>
                  fresh(tasks[j]) && Matches(tasks[j], Plan(title, srcs[..i])[j], downloadDir, minimumSize)
    {
      ghost var planned := Plan(title, srcs[..i]);
      assert srcs[..i + 1][..i] == srcs[..i];
      assert Plan(title, srcs[..i + 1])
             == if srcs[i] == "" then planned else planned + [Task(srcs[i], TaskName(title, |planned| + 1))];
      var imgSrc := srcs[i];
      if imgSrc != "" {
        count := count + 1;
        var downloader := new ImageDownloader(imgSrc, downloadDir, Some(TaskName(title, count)), minimumSize);
        tasks := tasks + [downloader];
      }
      i := i + 1;
    }
    assert srcs[..i] == srcs;
  }

  /** `invokeAll(tasks)`: every task runs to its end, in list order here. */
  method InvokeAll(tasks: seq<ImageDownloader>, ghost plan: seq<Task>, downloadDir: Option<string>,
                   minimumSize: int, web: Web, fs: FileStore)
    returns (outcomes: seq<Outcome<Option<string>>>)
    requires |tasks| == |plan|
    requires forall j :: 0 <= j < |tasks| ==> Matches(tasks[j], plan[j], downloadDir, minimumSize)
    modifies fs, tasks
    ensures Run(outcomes, fs.State()) == RunTasks(plan, downloadDir, minimumSize, web, fs.tempDir, old(fs.State()))
  {
    outcomes := [];
    var i := 0;
    while i < |tasks|
      invariant 0 <= i <= |tasks|
      invariant Run(outcomes, fs.State()) == RunTasks(plan[..i], downloadDir, minimumSize, web, fs.tempDir, old(fs.State()))
      invariant forall j :: 0 <= j < |tasks| ==> Matches(tasks[j], plan[j], downloadDir, minimumSize)
    {
      assert plan[..i + 1][..i] == plan[..i];
      ghost var before := fs.State();
      assert Matches(tasks[i], plan[i], downloadDir, minimumSize);
      var outcome := tasks[i].Download(web(tasks[i].imgSrc), fs);
      ghost var step := DownloadSpec(plan[i].src, downloadDir, Some(plan[i].name), minimumSize, fs.tempDir,
                                     web(plan[i].src), before);
      assert outcome == step.outcome && fs.State() == step.disk;
      outcomes := outcomes + [outcome];
      i := i + 1;
    }
    assert plan[..i] == plan;
  }

  /** The result loop of `download()`. */
  method CollectImages(outcomes: seq<Outcome<Option<string>>>) returns (r: Outcome<seq<string>>)
    ensures r == Collect(outcomes)
  {
    var images: seq<string> := [];
    var i := 0;
    while i < |outcomes|
      invariant 0 <= i <= |outcomes|
      invariant Collect(outcomes[..i]) == Normal(images)
    {
      assert outcomes[..i + 1][..i] == outcomes[..i];
      match outcomes[i] {
        case Thrown(e) =>
          CollectKeepsFirstThrown(outcomes[..i + 1], outcomes[i + 1..]);
          assert outcomes[..i + 1] + outcomes[i + 1..] == outcomes;
          return Thrown(ExecutionException(e));
        case Normal(file) =>
          if file.Some? {
            images := images + [file.value];
          }
      }
      i := i + 1;
    }
    assert outcomes[..i] == outcomes;
    return Normal(images);
  }

  /** Once a future has thrown, later ones do not matter. */
  lemma {:induction false} CollectKeepsFirstThrown(before: seq<Outcome<Option<string>>>, after: seq<Outcome<Option<string>>>)
    requires Collect(before).Thrown?
    ensures Collect(before + after) == Collect(before)
  {
    if after != [] {
      var all := before + after;
      assert all[..|all| - 1] == before + after[..|after| - 1];
      CollectKeepsFirstThrown(before, after[..|after| - 1]);
    } else {
      assert before + after == before;
    }
  }

  /** One page download. The setters are the only other mutators. */
  class PageImageDownloader {
    const pageUrl: string
    const downloadDir: Option<string>
    const pageNo: int
    const titlePrefix: Option<string>
    const titleCssQuery: Option<string>
    var minimumSize: int
    var proxyActive: bool
    var proxyHostName: Option<string>
    var proxyHostValue: Option<string>
    var proxyPortName: Option<string>
    var proxyPortValue: int
    /** Milliseconds; it only bounds the page fetch and image sockets. */
    var timeout: int

    /** The five-argument constructor; the shorter ones pass 0, null, null. */
    constructor (pageUrl: string, downloadDir: Option<string>, pageNo: int, titlePrefix: Option<string>,
                 titleCssQuery: Option<string>)
      ensures Config() == Settings(pageUrl, downloadDir, titlePrefix, titleCssQuery, pageNo, 0)
      ensures ProxyConfig() == Proxy(false, None, None, None, 0)
      ensures timeout == 60 * 1000
    {
      this.pageUrl := pageUrl;
      this.downloadDir := downloadDir;
      this.pageNo := pageNo;
      this.titlePrefix := titlePrefix;
      this.titleCssQuery := titleCssQuery;
      minimumSize := 0;
      proxyActive := false;
      proxyHostName, proxyHostValue, proxyPortName, proxyPortValue := None, None, None, 0;
      timeout := 60 * 1000;
    }

    function Config(): Settings
      reads this
    {
      Settings(pageUrl, downloadDir, titlePrefix, titleCssQuery, pageNo, minimumSize)
    }

    function ProxyConfig(): Proxy
      reads this
    {
      Proxy(proxyActive, proxyHostName, proxyHostValue, proxyPortName, proxyPortValue)
    }

    /** `setMinimumImageSize(long)`. */
    method SetMinimumImageSize(size: int)
      modifies this`minimumSize
      ensures minimumSize == size
    {
      minimumSize := size;
    }

    /** `setTimeout(int)`. */
    method SetTimeout(millis: int)
      modifies this`timeout
      ensures timeout == millis
    {
      timeout := millis;
    }

    /** `setProxyInfo(...)`. */
    method SetProxyInfo(active: bool, hostName: Option<string>, hostValue: Option<string>,
                        portName: Option<string>, portValue: int)
      modifies this`proxyActive, this`proxyHostName, this`proxyHostValue, this`proxyPortName, this`proxyPortValue
      ensures ProxyConfig() == Proxy(active, hostName, hostValue, portName, portValue)
    {
      proxyActive, proxyHostName, proxyHostValue := active, hostName, hostValue;
      proxyPortName, proxyPortValue := portName, portValue;
    }

    /** `start()`. */
    method Start(fetch: PageFetch, web: Web, fs: FileStore, sys: SystemProperties.Properties)
      returns (r: Outcome<DownloadResult>)
      modifies fs, sys
      ensures var st := StartSpec(Config(), ProxyConfig(), fetch, web, fs.tempDir, old(fs.State()), old(sys.props));
              r == st.outcome && fs.State() == st.disk && sys.props == st.props
    {
      var error := SetProxy(sys);
      if error.Some? {
        return Thrown(error.value);
      }
      var outcome := Download(fetch, web, fs);
      r := Normal(Recover(pageUrl, outcome));
      if proxyActive {
        ClearProxy(sys);
      }
    }

    /** Lines 170-174 of `start()`. */
    method SetProxy(sys: SystemProperties.Properties) returns (error: Option<Exception>)
      modifies sys
      ensures ProxyStep(error, sys.props) == SetProxySpec(ProxyConfig(), old(sys.props))
    {
      error := None;
      if proxyActive {
        error := sys.SetProperty(proxyHostName, proxyHostValue);
        if error.None? {
          error := sys.SetProperty(proxyPortName, Some(IntToString(proxyPortValue)));
        }
      }
    }

    /** The `finally` of `start()`, once both keys were set. */
    method ClearProxy(sys: SystemProperties.Properties)
      requires proxyHostName.Some? && proxyHostName.value != ""
      requires proxyPortName.Some? && proxyPortName.value != ""
      modifies sys
      ensures sys.props == Cleared(Cleared(old(sys.props), proxyHostName), proxyPortName)
    {
      var error := sys.ClearProperty(proxyHostName);
      assert error.None?;
      error := sys.ClearProperty(proxyPortName);
      assert error.None?;
    }

    /** The private `download()`. */
    method Download(fetch: PageFetch, web: Web, fs: FileStore) returns (r: Outcome<DownloadResult>)
      modifies fs
      ensures PageStep(r, fs.State()) == PageDownloadSpec(Config(), fetch, web, fs.tempDir, old(fs.State()))
    {
      var page: Page;
      match fetch {
        case MalformedUrl(reason) => return Thrown(IllegalArgumentException(Some(reason)));
        case Unreachable(detail) => return Thrown(IOException(detail));
        case NullDocument => return Thrown(NewDownloadException(pageUrl, "document is null"));
        case Loaded(p) => page := p;
      }
      var titleByCss: Option<string> := None;
      if titleCssQuery.Some? {
        if page.cssFirstText.None? {
          return Thrown(NullPointerException(None));
        }
        titleByCss := page.cssFirstText;
      }
      var title := ComposeTitle(titlePrefix, pageNo, titleByCss, page.title);
      if title == "" {
        return Thrown(NewDownloadException(pageUrl, "title is empty"));
      }
      if |page.imgSrcs| == 0 {
        return Thrown(NewDownloadException(pageUrl, "no image exist"));
      }
      var imgTagSize := |page.imgSrcs|;
      var nThreads := ThreadCount(imgTagSize);
      var rejected := LimitViolation(ConnectionLimits(imgTagSize));
      if rejected.Some? {
        return Thrown(rejected.value);
      }
      var tasks := CollectTasks(title, page.imgSrcs, downloadDir, minimumSize);
      if nThreads <= 0 {
        return Thrown(IllegalArgumentException(None));   // Executors.newFixedThreadPool(0)
      }
      var outcomes := InvokeAll(tasks, Plan(title, page.imgSrcs), downloadDir, minimumSize, web, fs);
      var images := CollectImages(outcomes);
      match images {
        case Thrown(e) => return Thrown(e);
        case Normal(files) => return Normal(Success(pageUrl, files));
      }
    }
  }
}
