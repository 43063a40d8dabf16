/** ImageDownloader.java: fetch one image over HTTP, check it, name it and
    save it under a destination directory. */
module ImageDownloading {
  import opened Optional
  import opened Text
  import opened Exceptions
  import opened Files

  /** `DEFAULT_IMAGE_SUFFIX`. */
  const DefaultImageSuffix: string := "jpg"

  /** `IMAGE_SUFFIX_LIST`. */
  const ImageSuffixes: seq<string> := ["png", "jpg", "jpeg", "gif", "webp", "bmp"]

  /** One `InputStream.read(buffer)` on the response body: `Bytes(d)` returns
      |d| (so an empty `d` returns 0), `EndOfStream` returns -1 and
      `ReadFailure` throws an `IOException`. Running out of reads is -1. */
  datatype Read = Bytes(data: seq<byte>) | EndOfStream | ReadFailure

  /** An `HttpEntity`: the declared length (-1 when unknown) and the body. */
  datatype Entity = Entity(contentLength: int, content: seq<Read>)

  /** `getLastHeader("Content-Type")`: no such header (`null`), a header
      whose value is `null`, or the header's value. */
  datatype ContentTypeHeader = NoHeader | NullValue | HeaderValue(value: string)

  datatype Response = Response(entity: Option<Entity>, contentType: ContentTypeHeader)

  /** The request for one image URL. `new HttpGet(imgSrc)` parses the URL with
      `URI.create`, which throws an unchecked `IllegalArgumentException` (with
      the parser's message) for a `src` that is not a URI, such as one holding
      a space; no `catch` of `download()` takes it. Otherwise
      `httpClient.execute(get)` runs. For a relative or protocol-relative
      `src` (`/img/a.jpg`, `//cdn/x.png`) it finds no target host and throws
      an unchecked `IllegalStateException`, which no `catch` takes either.
      Else it throws a `ClientProtocolException` or an `IOException` (both
      caught, and ending alike) or it answers. */
  datatype Exchange =
    | InvalidUri(reason: string)
    | NoTargetHost(detail: Option<string>)
    | ConnectFailed
    | Answered(response: Response)

  /** The lower-cased text after the last '.' is in `IMAGE_SUFFIX_LIST`. */
  predicate HasImageSuffix(name: string) {
    ToLower(SubstringAfterLast(name, '.')) in ImageSuffixes
  }

  /** The file name `download()` makes when no title was given: the last
      segment of the URL, kept when its extension is a known image suffix,
      otherwise extended by "." and the subtype the `Content-Type` value has
      after its last '/', or by ".jpg" when there is none. */
  function DeriveName(imgSrc: string, contentType: string): (name: string)
    ensures SubstringAfterLast(imgSrc, '/') <= name
    ensures '/' !in name
    ensures name != ""
  {
    var base := SubstringAfterLast(imgSrc, '/');
    if HasImageSuffix(base) then
      assert SubstringAfterLast(base, '.') != "";
      base
    else
      var suffix := SubstringAfterLast(contentType, '/');
      if suffix == "" then base + "." + DefaultImageSuffix else base + "." + suffix
  }

  /** The directory `download()` writes into: `destDir`, or the temp
      directory when it is null. */
  function Destination(destDir: Option<string>, tempDir: string): string {
    if destDir.None? then tempDir else destDir.value
  }

  datatype Transfer = Transfer(written: seq<byte>, complete: bool)

  /** The copy loop `while ((length = in.read(buffer)) > 0) out.write(...)`:
      the bytes it writes, and whether it stops without an `IOException`. */
  function Drain(steps: seq<Read>): Transfer {
    if steps == [] then Transfer([], true)
    else match steps[0]
      case Bytes(d) =>
        if |d| > 0 then var t := Drain(steps[1..]); Transfer(d + t.written, t.complete)
        else Transfer([], true)
      case EndOfStream => Transfer([], true)
      case ReadFailure => Transfer([], false)
  }

  /** A read with which the copy loop goes on: one that returns a positive count. */
  predicate Delivers(r: Read) {
    r.Bytes? && |r.data| > 0
  }

  /** The bytes of a sequence of reads, in order. */
  function Concat(steps: seq<Read>): seq<byte> {
    if steps == [] then [] else (if steps[0].Bytes? then steps[0].data else []) + Concat(steps[1..])
  }

  /** The file's bytes after `new FileOutputStream(path)` and the copy loop;
      on an `IOException` the path is deleted. */
  function Save(disk: Disk, path: string, content: seq<Read>): Disk {
    if !CanCreate(disk, path) then DeleteTree(disk, path)
    else
      var t := Drain(content);
      if t.complete then Disk(disk.files[path := t.written], disk.dirs) else DeleteTree(disk, path)
  }

  /** The state after one `download()`: its outcome, the `title` field, the disk. */
  datatype Step = Step(outcome: Outcome<Option<string>>, title: Option<string>, disk: Disk)

  /** `download()` on an instance whose fields hold the first four arguments;
      `tempDir` is `FileUtils.getTempDirectory()`. */
  function DownloadSpec(imgSrc: string, destDir: Option<string>, title: Option<string>, minimumSize: int,
                        tempDir: string, exchange: Exchange, disk: Disk): Step
  {
    if exchange.InvalidUri? then Step(Thrown(IllegalArgumentException(Some(exchange.reason))), title, disk)
    else if exchange.NoTargetHost? then Step(Thrown(IllegalStateException(exchange.detail)), title, disk)
    else if exchange.ConnectFailed? then Step(Normal(None), title, disk)
    else
      var response := exchange.response;
      if response.entity.None? then Step(Normal(None), title, disk)
      else if response.entity.value.contentLength < minimumSize then Step(Normal(None), title, disk)
      else match response.contentType
        case NoHeader => Step(Thrown(NullPointerException(None)), title, disk)
        case NullValue => Step(Normal(None), title, disk)
        case HeaderValue(contentType) =>
          if !("image" <= contentType) then Step(Normal(None), title, disk)
          else
            var name := if title.Some? then title.value else DeriveName(imgSrc, contentType);
            var destPath := Destination(destDir, tempDir);
            if destPath !in disk.dirs then Step(Normal(None), Some(name), disk)
            else
              var imageFile := Join(destPath, name);
              Step(Normal(Some(imageFile)), Some(name), Save(disk, imageFile, response.entity.value.content))
  }

  /** One image download. `download()` writes the name it makes back into `title`. */
  class ImageDownloader {
    const imgSrc: string
    const destDir: Option<string>
    var title: Option<string>
    var minimumSize: int

    /** The four-argument constructor; the shorter ones pass null, null, 0. */
    constructor (imgSrc: string, destDir: Option<string>, title: Option<string>, minimumSize: int)
      ensures this.imgSrc == imgSrc && this.destDir == destDir
      ensures this.title == title && this.minimumSize == minimumSize
    {
      this.imgSrc := imgSrc;
      this.destDir := destDir;
      this.title := title;
      this.minimumSize := minimumSize;
    }

    /** `setMinimumSize(int)`. */
    method SetMinimumSize(size: int)
      modifies this`minimumSize
      ensures minimumSize == size
    {
      minimumSize := size;
    }

    /** `download()` (and `call()`, which only calls it): the file it returns,
        `None` for `null`, or the exception it lets escape. */
    method Download(exchange: Exchange, fs: FileStore) returns (r: Outcome<Option<string>>)
      modifies this`title, fs
      ensures var s := DownloadSpec(imgSrc, destDir, old(title), minimumSize, fs.tempDir, exchange, old(fs.State()));
              r == s.outcome && title == s.title && fs.State() == s.disk
      ensures old(title).Some? ==> title == old(title)
    {
      if exchange.InvalidUri? {
        return Thrown(IllegalArgumentException(Some(exchange.reason)));   // new HttpGet(imgSrc)
      }
      if exchange.NoTargetHost? {
        return Thrown(IllegalStateException(exchange.detail));        // execute(get) without a host
      }
      if exchange.ConnectFailed? {
        return Normal(None);            // "connect fail" / "download fail" is only logged
      }
      var response := exchange.response;
      if response.entity.None? {
        return Normal(None);            // DownloadException "Entity is null", caught
      }
      var entity := response.entity.value;
      if entity.contentLength < minimumSize {
        return Normal(None);
      }
      var contentType: string;
      match response.contentType {
        case NoHeader =>
          return Thrown(NullPointerException(None));   // getValue() on a null header
        case NullValue =>
          return Normal(None);          // DownloadException "contentType is null", caught
        case HeaderValue(v) =>
          contentType := v;
      }
      if !("image" <= contentType) {
        return Normal(None);            // DownloadException "it is not a image. ...", caught
      }
      if title.None? {
        title := Some(DeriveName(imgSrc, contentType));
      }
      var destPath := Destination(destDir, fs.tempDir);
      if !fs.IsDirectory(destPath) {
        return Normal(None);            // DownloadException "destination is not a directory. ...", caught
      }
      var imageFile := Join(destPath, title.value);
      SaveImage(fs, imageFile, entity.content);
      return Normal(Some(imageFile));
    }
  }

  /** The inner `try` of `download()`: open the file, run the copy loop, and
      delete the file when an `IOException` ends either. */
  method SaveImage(fs: FileStore, imageFile: string, content: seq<Read>)
    modifies fs
    ensures fs.State() == Save(old(fs.State()), imageFile, content)
  {
    ghost var before := fs.State();
    var created := fs.Create(imageFile);
    if !created {
      fs.DeleteQuietly(imageFile);
      return;
    }
    var i := 0;
    while i < |content| && Delivers(content[i])
      invariant 0 <= i <= |content|
      invariant imageFile in fs.files && fs.dirs == before.dirs
      invariant fs.files == before.files[imageFile := fs.files[imageFile]]
      invariant fs.files[imageFile] + Drain(content[i..]).written == Drain(content).written
      invariant Drain(content[i..]).complete == Drain(content).complete
      decreases |content| - i
    {
      assert content[i..][1..] == content[i + 1..];
      fs.Write(imageFile, content[i].data);
      i := i + 1;
    }
    var failed := i < |content| && content[i].ReadFailure?;
    assert !failed <==> Drain(content).complete;
    if failed {
      DeleteTreeForgetsContents(before, imageFile, fs.files[imageFile]);
      assert fs.State() == Disk(before.files[imageFile := fs.files[imageFile]], before.dirs);
      fs.DeleteQuietly(imageFile);
    } else {
      assert Drain(content[i..]).written == [];
      assert fs.files[imageFile] + [] == fs.files[imageFile];
      assert fs.files == before.files[imageFile := Drain(content).written];
    }
  }
}
