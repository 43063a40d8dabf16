/** The part of the file system the downloader touches (`java.io.File`,
    `FileOutputStream`, `FileUtils.deleteQuietly`): files as byte contents
    keyed by path, and the set of paths that are directories. */
module Files {
  import opened Text

  type byte = bv8

  datatype Disk = Disk(files: map<string, seq<byte>>, dirs: set<string>)

  /** The path of `new File(dir, name)`. Like `java.io.File`, an empty child
      name resolves to the parent itself. */
  function Join(dir: string, name: string): string {
    if name == "" then dir else dir + "/" + name
  }

  /** Two non-empty names in one directory give two different paths. */
  lemma JoinInjective(dir: string, a: string, b: string)
    requires a != "" && b != ""
    requires Join(dir, a) == Join(dir, b)
    ensures a == b
  {
    var n := |dir| + 1;
    assert Join(dir, a)[n..] == a;
    assert Join(dir, b)[n..] == b;
  }

  /** `path` is `root` or lies inside the directory `root`. */
  predicate Under(path: string, root: string) {
    path == root || root + "/" <= path
  }

  /** `new FileOutputStream(path)` succeeds: the path is not a directory and
      the directory it lies in exists (a path without '/' lies in the
      working directory). */
  predicate CanCreate(disk: Disk, path: string) {
    && path !in disk.dirs
    && var k := LastIndexOf(path, '/');
       k < 0 || path[..k] in disk.dirs
  }

  /** `FileUtils.deleteQuietly(path)`: a file is removed, a directory is
      removed with everything beneath it, a missing path changes nothing. */
  function DeleteTree(disk: Disk, root: string): (d: Disk)
    ensures forall p :: p in d.files <==> p in disk.files && !Under(p, root)
    ensures forall p :: p in d.files ==> d.files[p] == disk.files[p]
    ensures forall p :: p in d.dirs <==> p in disk.dirs && !Under(p, root)
  {
    Disk(map p | p in disk.files && !Under(p, root) :: disk.files[p],
         set p | p in disk.dirs && !Under(p, root))
  }

  /** What a file may have held before it is deleted makes no difference. */
  lemma DeleteTreeForgetsContents(disk: Disk, path: string, data: seq<byte>)
    ensures DeleteTree(Disk(disk.files[path := data], disk.dirs), path) == DeleteTree(disk, path)
  {
    var a := DeleteTree(Disk(disk.files[path := data], disk.dirs), path);
    var b := DeleteTree(disk, path);
    assert a.files.Keys == b.files.Keys;
    assert a.files == b.files;
  }

  /** The file system as a mutable object shared by every download. */
  class FileStore {
    var files: map<string, seq<byte>>
    var dirs: set<string>
    /** The value of `FileUtils.getTempDirectory()`. */
    const tempDir: string

    constructor (disk: Disk, tempDir: string)
      ensures State() == disk && this.tempDir == tempDir
    {
      files := disk.files;
      dirs := disk.dirs;
      this.tempDir := tempDir;
    }

    function State(): Disk
      reads this
    {
      Disk(files, dirs)
    }

    /** `File.isDirectory()`. */
    predicate IsDirectory(path: string)
      reads this
    {
      path in dirs
    }

    /** `new FileOutputStream(path)`: creates or truncates the file, or fails. */
    method Create(path: string) returns (created: bool)
      modifies this
      ensures created == CanCreate(old(State()), path)
      ensures State() == if created then Disk(old(files)[path := []], old(dirs)) else old(State())
    {
      created := CanCreate(State(), path);
      if created {
        files := files[path := []];
      }
    }

    /** `OutputStream.write` on an open file: appends the bytes. */
    method Write(path: string, data: seq<byte>)
      requires path in files
      modifies this
      ensures files == old(files)[path := old(files)[path] + data] && dirs == old(dirs)
    {
      files := files[path := files[path] + data];
    }

    /** `FileUtils.deleteQuietly(path)`. */
    method DeleteQuietly(path: string)
      modifies this
      ensures State() == DeleteTree(old(State()), path)
    {
      var d := DeleteTree(State(), path);
      files, dirs := d.files, d.dirs;
    }
  }
}
