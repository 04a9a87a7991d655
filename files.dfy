/**
 * The local disk as the pipeline sees it: files by path, each the sequence
 * of lines Python's line iteration yields, beside a fixed set of existing
 * directories; and the Python exceptions the pipeline can raise.
 */
module Files {
  import opened Strings

  type Path = string
  type Lines = seq<string>
  type FileMap = map<Path, Lines>

  /** The exceptions the pipeline's Python code can raise. */
  datatype PyError =
    | FileNotFound(path: Path)   // open() of a missing file or directory, os.remove() of a missing file
    | IndexError                 // a list index out of range
    | KeyError(key: string)      // a missing dictionary key
    | UnpackBool                 // `a, b = False`

  /** What a Python call ends with: a value, or an exception. */
  datatype Raised<T> = Returned(value: T) | Raised(error: PyError)

  /** The directory part of a Windows-style relative path: what precedes its last `\`. */
  function ParentDir(p: Path): string {
    if p == [] then "" else if p[|p| - 1] == '\\' then p[..|p| - 1] else ParentDir(p[..|p| - 1])
  }

  lemma {:induction false} ParentDirOfName(dir: string, name: string)
    requires '\\' !in name
    ensures ParentDir(dir + "\\" + name) == dir
    ensures ParentDir(name) == ""
    decreases |name|
  {
    if name != [] {
      var p := dir + "\\" + name;
      assert p[..|p| - 1] == dir + "\\" + name[..|name| - 1];
      assert name[|name| - 1] != '\\';
      ParentDirOfName(dir, name[..|name| - 1]);
    } else {
      assert (dir + "\\" + name)[..|dir|] == dir;
    }
  }

  /** `open(p, 'w')` succeeds when the directory part exists; the working directory always does. */
  predicate Creatable(dirs: set<string>, p: Path) {
    ParentDir(p) == "" || ParentDir(p) in dirs
  }

  /** `os.remove(p)`. */
  function RemoveFile(fs: FileMap, p: Path): (Raised<()>, FileMap) {
    if p in fs then (Returned(()), fs - {p}) else (Raised(FileNotFound(p)), fs)
  }

  /** The disk, updated in place by the pipeline's file operations. */
  class Workspace {
    var files: FileMap
    const dirs: set<string>

    constructor (files: FileMap, dirs: set<string>)
      ensures this.files == files && this.dirs == dirs
    {
      this.files := files;
      this.dirs := dirs;
    }

    /** `readlines()` of `p`, or the exception `open(p, 'r')` raises. */
    function Read(p: Path): (r: Raised<Lines>)
      reads this
      ensures r.Returned? <==> p in files
      ensures r.Returned? ==> r.value == files[p]
      ensures r.Raised? ==> r.error == FileNotFound(p)
    {
      if p in files then Returned(files[p]) else Raised(FileNotFound(p))
    }

    /** `open(p, 'w')`: creates or truncates `p`. */
    method OpenForWrite(p: Path) returns (r: Raised<()>)
      modifies this
      ensures r == if Creatable(dirs, p) then Returned(()) else Raised(FileNotFound(p))
      ensures files == if r.Returned? then old(files)[p := []] else old(files)
    {
      if Creatable(dirs, p) {
        files := files[p := []];
        r := Returned(());
      } else {
        r := Raised(FileNotFound(p));
      }
    }

    /** `f.write(line)` on a file opened for writing. */
    method Append(p: Path, line: string)
      requires p in files
      modifies this
      ensures files == old(files)[p := old(files)[p] + [line]]
    {
      files := files[p := files[p] + [line]];
    }

    /** The file a foreign process leaves at `p`. */
    method Deposit(p: Path, content: Lines)
      modifies this
      ensures files == old(files)[p := content]
    {
      files := files[p := content];
    }

    /** `os.remove(p)`. */
    method Remove(p: Path) returns (r: Raised<()>)
      modifies this
      ensures (r, files) == RemoveFile(old(files), p)
    {
      if p in files {
        files := files - {p};
        r := Returned(());
      } else {
        r := Raised(FileNotFound(p));
      }
    }
  }
}
