/** DownloadResult.java: the record a page download returns. */
module DownloadResults {
  import opened Optional
  import opened Exceptions

  /** `images == None` stands for a `null` list; files are paths. */
  datatype DownloadResult = DownloadResult(
    pageUrl: string,
    result: bool,
    count: int,
    message: Option<string>,
    images: Option<seq<string>>)

  /** What the two factories guarantee of every result they build: a success
      counts its list and has an empty message, a failure has no list. */
  predicate Consistent(r: DownloadResult) {
    && (r.result ==> r.images.Some? && r.count == |r.images.value| && r.message == Some(""))
    && (!r.result ==> r.count == 0 && r.images.None?)
  }

  /** `DownloadResult.success(url, images)`. */
  function Success(url: string, images: seq<string>): (r: DownloadResult)
    ensures Consistent(r) && r.result
    ensures r.pageUrl == url && r.images == Some(images)
  {
    DownloadResult(url, true, |images|, Some(""), Some(images))
  }

  /** `DownloadResult.fail(url, error)`: the message is the error's own. */
  function Fail(url: string, error: Exception): (r: DownloadResult)
    ensures Consistent(r) && !r.result
    ensures r.pageUrl == url && r.message == GetMessage(error)
  {
    DownloadResult(url, false, 0, GetMessage(error), None)
  }
}
