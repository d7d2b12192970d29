/**
 * The file system the coding assistant's tools (mini_projects/single-file-agent/agent.py)
 * work on, and what each file tool answers and changes. A path is the list
 * of its components; the tools receive path strings, which are resolved by
 * splitting at '/' and dropping empty and "." components.
 */
module Files {
  import opened Strings

  type Path = seq<string>

  /** Files with their contents, and directories; the current directory is `[]` */
  datatype FileSystem = FileSystem(files: map<Path, string>, dirs: set<Path>)

  /**
   * A file system the OS could show: the current directory exists, no path
   * is both a file and a directory, and every proper prefix of a file or a
   * directory is a directory.
   */
  predicate Valid(fs: FileSystem) {
    && [] in fs.dirs
    && (forall q :: q in fs.files ==> q !in fs.dirs)
    && (forall q, k :: q in fs.files && 0 <= k < |q| ==> q[..k] in fs.dirs)
    && (forall q, k :: q in fs.dirs && 0 <= k < |q| ==> q[..k] in fs.dirs)
  }

  /** The components that name something: not empty and not "." */
  function Named(parts: seq<string>): (names: seq<string>)
    ensures forall i :: 0 <= i < |names| ==> names[i] != "" && names[i] != "."
    ensures |names| <= |parts|
  {
    if parts == [] then []
    else (if parts[0] != "" && parts[0] != "." then [parts[0]] else []) + Named(parts[1..])
  }

  /** The path a path string names */
  function Resolve(path: string): Path {
    Named(Split(path, "/"))
  }

  /**
   * A path string that can only name a directory: it ends with "/" or
   * "/.", so the OS looks it up as a directory.
   */
  predicate DirectoryForm(path: string) {
    path == "." || EndsWith(path, "/") || EndsWith(path, "/.")
  }

  /**
   * What a path string leads to; `BelowFile` is a path that goes through a
   * file, either below it or naming it in directory form
   */
  datatype Node = FileNode(content: string) | DirNode | NoNode | BelowFile

  /** Some proper prefix of `p` is a file, so `p` cannot be opened */
  predicate UnderFile(fs: FileSystem, p: Path) {
    exists k :: 0 <= k < |p| && p[..k] in fs.files
  }

  /** The node at `path`; the empty string names nothing */
  function NodeAt(fs: FileSystem, path: string): (n: Node)
    ensures n.FileNode? ==> path != "" && Resolve(path) in fs.files && !DirectoryForm(path)
    ensures n.DirNode? ==> path != "" && Resolve(path) in fs.dirs
    ensures n.BelowFile? ==> UnderFile(fs, Resolve(path)) || (Resolve(path) in fs.files && DirectoryForm(path))
  {
    if path == "" then NoNode
    else
      var p := Resolve(path);
      if p in fs.files then (if DirectoryForm(path) then BelowFile else FileNode(fs.files[p]))
      else if p in fs.dirs then DirNode
      else if UnderFile(fs, p) then BelowFile
      else NoNode
  }

  /** `os.path.exists(path)` */
  predicate Exists(fs: FileSystem, path: string) {
    NodeAt(fs, path).FileNode? || NodeAt(fs, path).DirNode?
  }

  /** The OS errors the file tools can meet */
  datatype OsError = NoSuchFile | IsADirectory | NotADirectory

  /** `str(e)` of such an error, in CPython's format for the given path */
  function ErrorText(e: OsError, path: string): string {
    match e
    case NoSuchFile => "[Errno 2] No such file or directory: '" + path + "'"
    case IsADirectory => "[Errno 21] Is a directory: '" + path + "'"
    case NotADirectory => "[Errno 20] Not a directory: '" + path + "'"
  }

  // ----- _read_file -----

  /** `_read_file(path)` */
  function ReadFileResult(fs: FileSystem, path: string): string {
    match NodeAt(fs, path)
    case FileNode(content) => "File content of " + path + ": \n" + content
    case NoNode => "File not found: " + path
    case DirNode => "Error reading file: " + ErrorText(IsADirectory, path)
    case BelowFile => "Error reading file: " + ErrorText(NotADirectory, path)
  }

  // ----- _list_files -----

  /** The names directly inside the directory `p`, i.e. `os.listdir` */
  function Children(fs: FileSystem, p: Path): set<string> {
    set q | q in fs.files.Keys + fs.dirs && |q| == |p| + 1 && q[..|p|] == p :: q[|p|]
  }

  /** The line listing one entry of `p` */
  function EntryLine(fs: FileSystem, p: Path, name: string): string {
    if p + [name] in fs.dirs then "[DIR] " + name + "/" else "[FILE] " + name
  }

  /** The lines for the entries, in the order of `names` */
  function EntryLines(fs: FileSystem, p: Path, names: seq<string>): (lines: seq<string>)
    ensures |lines| == |names|
    ensures forall i :: 0 <= i < |names| ==> lines[i] == EntryLine(fs, p, names[i])
  {
    seq(|names|, i requires 0 <= i < |names| => EntryLine(fs, p, names[i]))
  }

  const NotADirectoryPrefix := "[Error] Directory does not exist or is not a directory: "

  /** `_list_files(path)` */
  function ListFilesResult(fs: FileSystem, path: string): string {
    if !NodeAt(fs, path).DirNode? then NotADirectoryPrefix + path
    else
      var p := Resolve(path);
      var lines := EntryLines(fs, p, SortedElements(Children(fs, p)));
      if lines == [] then "Empty directory: " + path
      else "Content of " + path + ":\n" + Join(lines, "\n")
  }

  /**
   * The listing of a directory names each entry once, in sorted order, and
   * tags each as a directory or a file; it is "Empty directory" exactly when
   * the directory has no entries.
   */
  lemma ListingOfDirectory(fs: FileSystem, path: string)
    requires NodeAt(fs, path).DirNode?
    ensures var p := Resolve(path);
      var names := SortedElements(Children(fs, p));
      && (Children(fs, p) == {} <==> ListFilesResult(fs, path) == "Empty directory: " + path)
      && (Children(fs, p) != {} ==>
            ListFilesResult(fs, path) == "Content of " + path + ":\n" + Join(EntryLines(fs, p, names), "\n"))
      && (forall n :: n in names <==> n in Children(fs, p))
      && (forall i, j :: 0 <= i < j < |names| ==> StrLt(names[i], names[j]))
  {
    var p := Resolve(path);
    var names := SortedElements(Children(fs, p));
    var lines := EntryLines(fs, p, names);
    assert |lines| == |Children(fs, p)|;
    EmptyDirectoryDiffers(path, Join(lines, "\n"));
  }

  lemma EmptyDirectoryDiffers(path: string, body: string)
    ensures "Content of " + path + ":\n" + body != "Empty directory: " + path
  {
    var a := "Content of " + path + ":\n" + body;
    var b := "Empty directory: " + path;
    if |a| == |b| {
      assert a[0] == 'C' && b[0] == 'E';
    }
  }

  /** A listing that is not a directory's is the error message. */
  lemma ListingOfNonDirectory(fs: FileSystem, path: string)
    requires !NodeAt(fs, path).DirNode?
    ensures ListFilesResult(fs, path) == NotADirectoryPrefix + path
  {
  }

  // ----- _edit_file -----

  /** What a tool answers, and the file system after it */
  datatype Effect = Effect(result: string, fs: FileSystem)

  /** The proper prefixes of `p` */
  function Ancestors(p: Path): (a: set<Path>)
    ensures forall k :: 0 <= k < |p| ==> p[..k] in a
    ensures forall q :: q in a ==> |q| < |p| && q == p[..|q|]
  {
    set k | 0 <= k < |p| :: p[..k]
  }

  /** Writing `text` to the file `p` after `os.makedirs` of its directory */
  function Write(fs: FileSystem, p: Path, text: string): FileSystem {
    FileSystem(fs.files[p := text], fs.dirs + Ancestors(p))
  }

  /** `os.makedirs(path)` of a directory-form path, which creates `p` and the directories above it */
  function MakeDirs(fs: FileSystem, p: Path): FileSystem {
    fs.(dirs := fs.dirs + Ancestors(p) + {p})
  }

  function EditError(e: OsError, path: string): string {
    "Error editing file: " + ErrorText(e, path)
  }

  /** `_edit_file(path, old_text, new_text)` */
  function EditFileEffect(fs: FileSystem, path: string, oldText: string, newText: string): Effect {
    var node := NodeAt(fs, path);
    var p := Resolve(path);
    if Exists(fs, path) && oldText != "" then
      match node
      case FileNode(content) =>
        if !Contains(content, oldText) then Effect("Text not found in " + path + ": \n'" + oldText + "'", fs)
        else Effect("Text updated successfully: " + path,
                    fs.(files := fs.files[p := ReplaceAll(content, oldText, newText)]))
      case _ => Effect(EditError(IsADirectory, path), fs)
    else
      match node
      case NoNode =>
        if path == "" then Effect(EditError(NoSuchFile, path), fs)
        else if DirectoryForm(path) then Effect(EditError(IsADirectory, path), MakeDirs(fs, p))
        else Effect("Successfully created: " + path, Write(fs, p, newText))
      case FileNode(_) => Effect("Successfully created: " + path, Write(fs, p, newText))
      case DirNode => Effect(EditError(IsADirectory, path), fs)
      case BelowFile => Effect(EditError(NotADirectory, path), fs)
  }

  /**
   * Editing an existing file with a non-empty `old_text`: when it does not
   * occur the answer says so and nothing changes; otherwise every
   * occurrence is replaced and no other file or directory changes.
   */
  lemma EditReplaces(fs: FileSystem, path: string, oldText: string, newText: string)
    requires NodeAt(fs, path).FileNode? && oldText != ""
    ensures var content := NodeAt(fs, path).content;
      var e := EditFileEffect(fs, path, oldText, newText);
      && (!Contains(content, oldText) ==> e.fs == fs && e.result == "Text not found in " + path + ": \n'" + oldText + "'")
      && (Contains(content, oldText) ==>
            && e.result == "Text updated successfully: " + path
            && e.fs.dirs == fs.dirs
            && e.fs.files.Keys == fs.files.Keys
            && e.fs.files[Resolve(path)] == ReplaceAll(content, oldText, newText)
            && (forall q :: q in fs.files && q != Resolve(path) ==> e.fs.files[q] == fs.files[q]))
  {
  }

  /**
   * Editing a missing file, or with an empty `old_text`, makes the file's
   * content exactly `new_text`, overwriting what was there, creates the
   * missing directories above it and changes no other file.
   */
  lemma EditCreates(fs: FileSystem, path: string, oldText: string, newText: string)
    requires NodeAt(fs, path).FileNode? || (NodeAt(fs, path).NoNode? && path != "" && !DirectoryForm(path))
    requires oldText == "" || NodeAt(fs, path).NoNode?
    ensures var e := EditFileEffect(fs, path, oldText, newText);
      && e.result == "Successfully created: " + path
      && e.fs.files == fs.files[Resolve(path) := newText]
      && e.fs.dirs == fs.dirs + Ancestors(Resolve(path))
  {
  }

  /** Every other case of an edit is an error answer and changes nothing. */
  lemma EditFails(fs: FileSystem, path: string, oldText: string, newText: string)
    requires NodeAt(fs, path).DirNode? || NodeAt(fs, path).BelowFile? || path == ""
    ensures var e := EditFileEffect(fs, path, oldText, newText);
      e.fs == fs && StartsWith(e.result, "Error editing file: ")
  {
  }

  /**
   * Editing a missing path in directory form ("new/") creates it as a
   * directory, with the directories above it, and then fails to open it
   * for writing; no file changes.
   */
  lemma EditMakesDirectory(fs: FileSystem, path: string, oldText: string, newText: string)
    requires NodeAt(fs, path).NoNode? && path != "" && DirectoryForm(path)
    ensures var e := EditFileEffect(fs, path, oldText, newText);
      && e.result == EditError(IsADirectory, path)
      && e.fs.files == fs.files
      && e.fs.dirs == fs.dirs + Ancestors(Resolve(path)) + {Resolve(path)}
  {
    assert !Exists(fs, path);
    var e := EditFileEffect(fs, path, oldText, newText);
    assert e == Effect(EditError(IsADirectory, path), MakeDirs(fs, Resolve(path)));
  }

  /** Creating a directory that is neither a file nor below a file keeps the file system valid. */
  lemma MakeDirsKeepsValid(fs: FileSystem, p: Path)
    requires Valid(fs) && p !in fs.files && !UnderFile(fs, p)
    ensures Valid(MakeDirs(fs, p))
  {
    var m := MakeDirs(fs, p);
    forall q | q in Ancestors(p) ensures q !in fs.files {
      assert q == p[..|q|];
    }
    forall q, k | q in m.dirs && 0 <= k < |q| ensures q[..k] in m.dirs {
      if q in Ancestors(p) {
        assert q[..k] == p[..k];
      } else if q == p {
        assert q[..k] in Ancestors(p);
      }
    }
  }

  /** Writing a file that is neither a directory nor below a file keeps the file system valid. */
  lemma WriteKeepsValid(fs: FileSystem, p: Path, text: string)
    requires Valid(fs) && p !in fs.dirs && !UnderFile(fs, p)
    ensures Valid(Write(fs, p, text))
  {
    var w := Write(fs, p, text);
    forall q | q in Ancestors(p) ensures q !in fs.files {
      assert q == p[..|q|];
    }
    forall q, k | q in w.files && 0 <= k < |q| ensures q[..k] in w.dirs {
      if q == p {
        assert q[..k] in Ancestors(p);
      }
    }
    forall q, k | q in w.dirs && 0 <= k < |q| ensures q[..k] in w.dirs {
      if q in Ancestors(p) {
        assert q[..k] == p[..k];
      }
    }
  }

  /** Every edit keeps a valid file system valid. */
  lemma EditKeepsValid(fs: FileSystem, path: string, oldText: string, newText: string)
    requires Valid(fs)
    ensures Valid(EditFileEffect(fs, path, oldText, newText).fs)
  {
    var node := NodeAt(fs, path);
    var p := Resolve(path);
    if node.NoNode? && path != "" {
      if DirectoryForm(path) {
        MakeDirsKeepsValid(fs, p);
      } else {
        WriteKeepsValid(fs, p, newText);
      }
    } else if node.FileNode? {
      if !(oldText != "") {
        assert p !in fs.dirs;
        assert !UnderFile(fs, p) by {
          forall k | 0 <= k < |p| ensures p[..k] !in fs.files {
            assert p[..k] in fs.dirs;
          }
        }
        WriteKeepsValid(fs, p, newText);
      }
    }
  }

  /** Reading a file answers its whole content after a fixed header. */
  lemma ReadGivesContent(fs: FileSystem, path: string)
    requires NodeAt(fs, path).FileNode?
    ensures var header := "File content of " + path + ": \n";
      var r := ReadFileResult(fs, path);
      StartsWith(r, header) && r[|header|..] == fs.files[Resolve(path)]
  {
    var header := "File content of " + path + ": \n";
    var r := ReadFileResult(fs, path);
    assert r == header + fs.files[Resolve(path)];
  }

  /** Reading a file in directory form ("f.txt/") fails: the OS will not look up a file as a directory. */
  lemma ReadFileAsDirectory(fs: FileSystem, path: string)
    requires path != "" && Resolve(path) in fs.files && DirectoryForm(path)
    ensures ReadFileResult(fs, path) == "Error reading file: " + ErrorText(NotADirectory, path)
    ensures ListFilesResult(fs, path) == NotADirectoryPrefix + path
  {
  }

  /** After an edit that creates or overwrites a file, reading it gives `new_text`. */
  lemma ReadAfterCreate(fs: FileSystem, path: string, oldText: string, newText: string)
    requires NodeAt(fs, path).FileNode? || (NodeAt(fs, path).NoNode? && path != "" && !DirectoryForm(path))
    requires oldText == "" || NodeAt(fs, path).NoNode?
    ensures ReadFileResult(EditFileEffect(fs, path, oldText, newText).fs, path)
      == "File content of " + path + ": \n" + newText
  {
    EditCreates(fs, path, oldText, newText);
  }

  /** After an edit that replaced text, reading the file gives the replaced content. */
  lemma ReadAfterReplace(fs: FileSystem, path: string, oldText: string, newText: string)
    requires NodeAt(fs, path).FileNode? && oldText != "" && Contains(NodeAt(fs, path).content, oldText)
    ensures ReadFileResult(EditFileEffect(fs, path, oldText, newText).fs, path)
      == "File content of " + path + ": \n" + ReplaceAll(NodeAt(fs, path).content, oldText, newText)
  {
    EditReplaces(fs, path, oldText, newText);
  }
}
