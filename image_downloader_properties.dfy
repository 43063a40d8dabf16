/** What ImageDownloader.download() promises, stated over `DownloadSpec`,
    which `ImageDownloader.Download` is proved to follow. */
module ImageDownloadProperties {
  import opened Optional
  import opened Text
  import opened Exceptions
  import opened Files
  import opened ImageDownloading

  /** No entity: `null`, no file touched, title kept. */
  lemma MissingEntityReturnsNull(imgSrc: string, destDir: Option<string>, title: Option<string>, minimumSize: int,
                                 tempDir: string, header: ContentTypeHeader, disk: Disk)
    ensures DownloadSpec(imgSrc, destDir, title, minimumSize, tempDir, Answered(Response(None, header)), disk)
            == Step(Normal(None), title, disk)
  {
  }

  /** A declared length below the minimum gives `null` whatever the header
      and the body are. */
  lemma TooSmallReturnsNull(imgSrc: string, destDir: Option<string>, title: Option<string>, minimumSize: int,
                            tempDir: string, entity: Entity, header: ContentTypeHeader, disk: Disk)
    requires entity.contentLength < minimumSize
    ensures DownloadSpec(imgSrc, destDir, title, minimumSize, tempDir, Answered(Response(Some(entity), header)), disk)
            == Step(Normal(None), title, disk)
  {
  }

  /** An unknown length (-1) is below every minimum that is not negative,
      the default 0 included, so such an image is skipped. */
  lemma UnknownLengthReturnsNull(imgSrc: string, destDir: Option<string>, title: Option<string>, minimumSize: int,
                                 tempDir: string, content: seq<Read>, header: ContentTypeHeader, disk: Disk)
    requires minimumSize >= 0
    ensures DownloadSpec(imgSrc, destDir, title, minimumSize, tempDir,
                         Answered(Response(Some(Entity(-1, content)), header)), disk)
            == Step(Normal(None), title, disk)
  {
    TooSmallReturnsNull(imgSrc, destDir, title, minimumSize, tempDir, Entity(-1, content), header, disk);
  }

  /** A length at or above the minimum goes on to the `Content-Type` header;
      a missing header is dereferenced and the `NullPointerException` escapes. */
  lemma MissingContentTypeEscapes(imgSrc: string, destDir: Option<string>, title: Option<string>, minimumSize: int,
                                  tempDir: string, entity: Entity, disk: Disk)
    requires entity.contentLength >= minimumSize
    ensures DownloadSpec(imgSrc, destDir, title, minimumSize, tempDir, Answered(Response(Some(entity), NoHeader)), disk)
            == Step(Thrown(NullPointerException(None)), title, disk)
  {
  }

  /** A `src` that `URI.create` refuses: its `IllegalArgumentException`
      escapes before any request, and nothing changes. */
  lemma InvalidSrcEscapes(imgSrc: string, destDir: Option<string>, title: Option<string>, minimumSize: int,
                          tempDir: string, reason: string, disk: Disk)
    ensures DownloadSpec(imgSrc, destDir, title, minimumSize, tempDir, InvalidUri(reason), disk)
            == Step(Thrown(IllegalArgumentException(Some(reason))), title, disk)
  {
  }

  /** A `src` without a host: the `IllegalStateException` of `execute`
      escapes, and nothing changes. */
  lemma NoTargetHostEscapes(imgSrc: string, destDir: Option<string>, title: Option<string>, minimumSize: int,
                            tempDir: string, detail: Option<string>, disk: Disk)
    ensures DownloadSpec(imgSrc, destDir, title, minimumSize, tempDir, NoTargetHost(detail), disk)
            == Step(Thrown(IllegalStateException(detail)), title, disk)
  {
  }

  /** The exceptions `download()` lets escape, for a given request: the
      refusal of a `src` that is not a URI, the missing target host of a
      relative `src`, and the `NullPointerException` of a missing
      `Content-Type` header. */
  predicate EscapesFrom(exchange: Exchange, e: Exception) {
    || (exchange.InvalidUri? && e == IllegalArgumentException(Some(exchange.reason)))
    || (exchange.NoTargetHost? && e == IllegalStateException(exchange.detail))
    || (exchange.Answered? && exchange.response.contentType == NoHeader && e == NullPointerException(None))
  }

  /** The kinds of exception that can escape `download()` at all. */
  predicate Uncaught(e: Exception) {
    e == NullPointerException(None) || e.IllegalArgumentException? || e.IllegalStateException?
  }

  /** A request `execute` gets to send: the `src` is a URI with a host. */
  predicate Requestable(exchange: Exchange) {
    exchange.ConnectFailed? || exchange.Answered?
  }

  /** Every exception that escapes `download()` is one of those three; a
      requestable `src` can only let the `NullPointerException` escape. */
  lemma OnlyUncaughtExceptionsEscape(imgSrc: string, destDir: Option<string>, title: Option<string>, minimumSize: int,
                                tempDir: string, exchange: Exchange, disk: Disk)
    ensures var s := DownloadSpec(imgSrc, destDir, title, minimumSize, tempDir, exchange, disk);
            s.outcome.Thrown? ==> EscapesFrom(exchange, s.outcome.error) && Uncaught(s.outcome.error)
    ensures var s := DownloadSpec(imgSrc, destDir, title, minimumSize, tempDir, exchange, disk);
            s.outcome.Thrown? && Requestable(exchange) ==> s.outcome.error == NullPointerException(None)
  {
  }

  /** A content type that does not start with "image" gives `null` and no file. */
  lemma NonImageReturnsNull(imgSrc: string, destDir: Option<string>, title: Option<string>, minimumSize: int,
                            tempDir: string, entity: Entity, contentType: string, disk: Disk)
    requires entity.contentLength >= minimumSize && !("image" <= contentType)
    ensures DownloadSpec(imgSrc, destDir, title, minimumSize, tempDir,
                         Answered(Response(Some(entity), HeaderValue(contentType))), disk)
            == Step(Normal(None), title, disk)
  {
  }

  /** Only a returned file changes the disk: every `null` result and every
      escaping exception leave it as it was. */
  lemma NullResultLeavesDisk(imgSrc: string, destDir: Option<string>, title: Option<string>, minimumSize: int,
                             tempDir: string, exchange: Exchange, disk: Disk)
    ensures var s := DownloadSpec(imgSrc, destDir, title, minimumSize, tempDir, exchange, disk);
            (s.outcome.Thrown? || s.outcome.value.None?) ==> s.disk == disk
  {
  }

  /** A returned file is the title inside the destination directory (the temp
      directory when `destDir` is null), and that directory exists. */
  lemma ReturnedFileIsTitleInDestination(imgSrc: string, destDir: Option<string>, title: Option<string>,
                                         minimumSize: int, tempDir: string, exchange: Exchange, disk: Disk)
    ensures var s := DownloadSpec(imgSrc, destDir, title, minimumSize, tempDir, exchange, disk);
            s.outcome.Normal? && s.outcome.value.Some? ==>
              && s.title.Some?
              && Destination(destDir, tempDir) in disk.dirs
              && s.outcome.value.value == Join(Destination(destDir, tempDir), s.title.value)
  {
  }

  /** A caller-supplied title is the file name as it is: no extension is added
      and the field is never rewritten. */
  lemma SuppliedTitleUsedVerbatim(imgSrc: string, destDir: Option<string>, title: string, minimumSize: int,
                                  tempDir: string, exchange: Exchange, disk: Disk)
    ensures var s := DownloadSpec(imgSrc, destDir, Some(title), minimumSize, tempDir, exchange, disk);
            && s.title == Some(title)
            && (s.outcome.Normal? && s.outcome.value.Some? ==>
                  s.outcome.value.value == Join(Destination(destDir, tempDir), title))
  {
  }

  /** An accepted image: the name is the given title or the derived one; the
      result is `null` and no change when the destination is not a directory,
      otherwise the file `Save` writes. */
  lemma AcceptedImageStep(imgSrc: string, destDir: Option<string>, title: Option<string>, minimumSize: int,
                          tempDir: string, entity: Entity, contentType: string, disk: Disk)
    requires entity.contentLength >= minimumSize && "image" <= contentType
    ensures var s := DownloadSpec(imgSrc, destDir, title, minimumSize, tempDir,
                                  Answered(Response(Some(entity), HeaderValue(contentType))), disk);
            var name := if title.Some? then title.value else DeriveName(imgSrc, contentType);
            var dest := Destination(destDir, tempDir);
            s == if dest in disk.dirs then Step(Normal(Some(Join(dest, name))), Some(name), Save(disk, Join(dest, name), entity.content))
                 else Step(Normal(None), Some(name), disk)
  {
  }

  /** Once the content type is accepted, the name is fixed and stored in the
      `title` field, even when the destination then turns out not to be a directory. */
  lemma DerivedTitleStored(imgSrc: string, destDir: Option<string>, minimumSize: int, tempDir: string,
                           entity: Entity, contentType: string, disk: Disk)
    requires entity.contentLength >= minimumSize && "image" <= contentType
    ensures DownloadSpec(imgSrc, destDir, None, minimumSize, tempDir,
                         Answered(Response(Some(entity), HeaderValue(contentType))), disk).title
            == Some(DeriveName(imgSrc, contentType))
  {
    AcceptedImageStep(imgSrc, destDir, None, minimumSize, tempDir, entity, contentType, disk);
  }

  /** A second `download()` on the same instance keeps the first name, whatever
      the second response says. */
  lemma SecondDownloadReusesName(imgSrc: string, destDir: Option<string>, minimumSize: int, tempDir: string,
                                 first: Exchange, second: Exchange, disk1: Disk, disk2: Disk)
    requires DownloadSpec(imgSrc, destDir, None, minimumSize, tempDir, first, disk1).title.Some?
    ensures var s1 := DownloadSpec(imgSrc, destDir, None, minimumSize, tempDir, first, disk1);
            var s2 := DownloadSpec(imgSrc, destDir, s1.title, minimumSize, tempDir, second, disk2);
            && s2.title == s1.title
            && (s2.outcome.Normal? && s2.outcome.value.Some? ==>
                  s2.outcome.value.value == Join(Destination(destDir, tempDir), s1.title.value))
  {
    var s1 := DownloadSpec(imgSrc, destDir, None, minimumSize, tempDir, first, disk1);
    SuppliedTitleUsedVerbatim(imgSrc, destDir, s1.title.value, minimumSize, tempDir, second, disk2);
  }

  /** A destination that is not a directory gives `null` and no file. */
  lemma DestinationNotDirectoryReturnsNull(imgSrc: string, destDir: Option<string>, title: Option<string>,
                                           minimumSize: int, tempDir: string, entity: Entity, contentType: string,
                                           disk: Disk)
    requires entity.contentLength >= minimumSize && "image" <= contentType
    requires Destination(destDir, tempDir) !in disk.dirs
    ensures DownloadSpec(imgSrc, destDir, title, minimumSize, tempDir,
                         Answered(Response(Some(entity), HeaderValue(contentType))), disk).outcome == Normal(None)
    ensures DownloadSpec(imgSrc, destDir, title, minimumSize, tempDir,
                         Answered(Response(Some(entity), HeaderValue(contentType))), disk).disk == disk
  {
  }

  /** The copy loop writes exactly the chunks of the reads before the first
      one that returns 0 or -1 or throws, in order; it completes unless that
      read throws. */
  lemma {:induction false} DrainCopiesUntilFirstStop(steps: seq<Read>, k: nat)
    requires k <= |steps|
    requires forall i :: 0 <= i < k ==> Delivers(steps[i])
    requires k < |steps| ==> !Delivers(steps[k])
    ensures Drain(steps).written == Concat(steps[..k])
    ensures Drain(steps).complete <==> (k == |steps| || !steps[k].ReadFailure?)
  {
    if k == 0 {
      assert steps[..0] == [];
    } else {
      DrainCopiesUntilFirstStop(steps[1..], k - 1);
      assert steps[1..][..k - 1] == steps[..k][1..];
    }
  }

  /** A successful save leaves the file holding the body and nothing else changed. */
  lemma SavedFileHoldsBody(imgSrc: string, destDir: Option<string>, title: Option<string>, minimumSize: int,
                           tempDir: string, entity: Entity, contentType: string, disk: Disk)
    requires entity.contentLength >= minimumSize && "image" <= contentType
    requires Destination(destDir, tempDir) in disk.dirs
    requires var name := if title.Some? then title.value else DeriveName(imgSrc, contentType);
             CanCreate(disk, Join(Destination(destDir, tempDir), name))
    requires Drain(entity.content).complete
    ensures var name := if title.Some? then title.value else DeriveName(imgSrc, contentType);
            var path := Join(Destination(destDir, tempDir), name);
            var s := DownloadSpec(imgSrc, destDir, title, minimumSize, tempDir,
                                  Answered(Response(Some(entity), HeaderValue(contentType))), disk);
            s.outcome == Normal(Some(path)) && s.disk == Disk(disk.files[path := Drain(entity.content).written], disk.dirs)
  {
  }

  /** When the file cannot be opened or a read throws, the file is deleted,
      yet its path is still returned. */
  lemma WriteErrorDeletesButReturnsFile(imgSrc: string, destDir: Option<string>, title: Option<string>,
                                        minimumSize: int, tempDir: string, entity: Entity, contentType: string,
                                        disk: Disk)
    requires entity.contentLength >= minimumSize && "image" <= contentType
    requires Destination(destDir, tempDir) in disk.dirs
    requires var name := if title.Some? then title.value else DeriveName(imgSrc, contentType);
             !CanCreate(disk, Join(Destination(destDir, tempDir), name)) || !Drain(entity.content).complete
    ensures var name := if title.Some? then title.value else DeriveName(imgSrc, contentType);
            var path := Join(Destination(destDir, tempDir), name);
            var s := DownloadSpec(imgSrc, destDir, title, minimumSize, tempDir,
                                  Answered(Response(Some(entity), HeaderValue(contentType))), disk);
            s.outcome == Normal(Some(path)) && path !in s.disk.files && path !in s.disk.dirs
  {
    var name := if title.Some? then title.value else DeriveName(imgSrc, contentType);
    var path := Join(Destination(destDir, tempDir), name);
    AcceptedImageStep(imgSrc, destDir, title, minimumSize, tempDir, entity, contentType, disk);
    assert Save(disk, path, entity.content) == DeleteTree(disk, path);
    assert Under(path, path);
  }

  /** An empty caller-supplied title names the destination directory itself:
      opening it for writing fails, and the cleanup deletes the whole
      destination directory tree, whose path is then returned. */
  lemma EmptyTitleDeletesDestination(imgSrc: string, dest: string, minimumSize: int, tempDir: string,
                                     entity: Entity, contentType: string, disk: Disk)
    requires entity.contentLength >= minimumSize && "image" <= contentType
    requires dest in disk.dirs
    ensures var s := DownloadSpec(imgSrc, Some(dest), Some(""), minimumSize, tempDir,
                                  Answered(Response(Some(entity), HeaderValue(contentType))), disk);
            && s.outcome == Normal(Some(dest))
            && dest !in s.disk.dirs
            && forall p :: p in s.disk.files ==> !Under(p, dest)
  {
  }

  /** A name whose extension is a known image suffix is kept as it is by the
      derivation, whatever the content type. */
  lemma KnownSuffixNameKept(dir: string, name: string, contentType: string)
    requires '/' !in name && HasImageSuffix(name)
    ensures DeriveName(dir + "/" + name, contentType) == name
  {
    SubstringAfterLastOfJoin(dir, '/', name);
  }

  /** A suffix whose lower-cased form is a known image suffix has no '.'. */
  lemma KnownSuffixHasNoDot(w: string)
    requires ToLower(w) in ImageSuffixes
    ensures '.' !in w
  {
    forall i | 0 <= i < |w|
      ensures w[i] != '.'
    {
      assert ToLower(w)[i] == LowerAscii(w[i]);
      assert '.' !in ToLower(w);
    }
  }

  /** Appending "." and a known suffix gives a name with a known suffix. */
  lemma AppendedSuffixRecognised(base: string, suffix: string)
    requires ToLower(suffix) in ImageSuffixes
    ensures HasImageSuffix(base + "." + suffix)
  {
    KnownSuffixHasNoDot(suffix);
    SubstringAfterLastOfJoin(base, '.', suffix);
    assert base + "." + suffix == base + ['.'] + suffix;
  }

  /** The derived name ends with a known image suffix when the URL's segment
      already has one, when ".jpg" is appended, or when the content-type
      subtype is one of the known suffixes. */
  lemma DerivedNameRecognised(imgSrc: string, contentType: string)
    requires var subtype := SubstringAfterLast(contentType, '/');
             HasImageSuffix(SubstringAfterLast(imgSrc, '/')) || subtype == "" || ToLower(subtype) in ImageSuffixes
    ensures HasImageSuffix(DeriveName(imgSrc, contentType))
  {
    var base := SubstringAfterLast(imgSrc, '/');
    var subtype := SubstringAfterLast(contentType, '/');
    if !HasImageSuffix(base) {
      if subtype == "" {
        assert ToLower(DefaultImageSuffix) == "jpg";
        AppendedSuffixRecognised(base, DefaultImageSuffix);
      } else {
        AppendedSuffixRecognised(base, subtype);
      }
    }
  }

  /** Hence deriving again from a URL that ends in such a derived name gives the same name. */
  lemma DerivedNameStable(imgSrc: string, dir: string, contentType: string, laterContentType: string)
    requires var subtype := SubstringAfterLast(contentType, '/');
             HasImageSuffix(SubstringAfterLast(imgSrc, '/')) || subtype == "" || ToLower(subtype) in ImageSuffixes
    ensures DeriveName(dir + "/" + DeriveName(imgSrc, contentType), laterContentType) == DeriveName(imgSrc, contentType)
  {
    DerivedNameRecognised(imgSrc, contentType);
    KnownSuffixNameKept(dir, DeriveName(imgSrc, contentType), laterContentType);
  }
}
