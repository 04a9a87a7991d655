/**
 * Fetching one remote log dataset (`get_file_from_ftp` in utils.py): the
 * names derived from the dataset name, the transfer script, and the file
 * lifecycle around the transfer.
 */
module Retrieval {
  import opened Strings
  import opened Files

  /** The transfer script is always written to the same file in the working directory. */
  const ScriptFile: Path := "moveit_commands.txt"

  /** The remote dataset holding one system's job log for one day. */
  function DatasetName(system: string, token: string): string {
    "PR1.T.LOG.DIARIO.SYS" + system + "." + token
  }

  /** `dataset_name.split(".")[5]`: raises when the name has fewer than six segments. */
  function DateField(name: string): Raised<string> {
    var parts := Split(name, '.');
    if |parts| > 5 then Returned(parts[5]) else Raised(IndexError)
  }

  /** `'_'.join(dataset_name.replace(".", "_").split("_")[4:]) + '.txt'`. */
  function LocalFileName(name: string): Path {
    Join(Drop(Split(ReplaceChar(name, '.', '_'), '_'), 4), '_') + ".txt"
  }

  /** The three lines of the command script handed to the transfer client. */
  function ScriptLines(name: string, local: Path): Lines {
    ["prompt\n", "get '" + name + "' " + local + "\n", "quit\n"]
  }

  /** What the external transfer client does: leaves the requested file, or exits non-zero. */
  datatype Transfer = Delivered(content: Lines) | TransferFailed(stderr: string)

  /** The Python return value: the pair `(local_file, date)`, or the bare `False`. */
  datatype Fetched = Fetched(localFile: Path, date: string) | FetchedFalse

  /** `get_file_from_ftp` as a function of the disk before the call. */
  function Fetch(fs: FileMap, name: string, transfer: Transfer): (Raised<Fetched>, FileMap) {
    match DateField(name)
    case Raised(e) => (Raised(e), fs)
    case Returned(date) =>
      var local := LocalFileName(name);
      var scripted := fs[ScriptFile := ScriptLines(name, local)];
      match transfer
      case Delivered(content) => (Returned(Fetched(local, date)), scripted[local := content] - {ScriptFile})
      case TransferFailed(_) => (Returned(FetchedFalse), scripted - {ScriptFile})
  }

  /**
   * Writes the script, runs the transfer (its outcome is the parameter
   * `transfer`) and removes the script again on both paths.
   */
  method GetFileFromFtp(ws: Workspace, name: string, transfer: Transfer) returns (r: Raised<Fetched>)
    modifies ws
    ensures (r, ws.files) == Fetch(old(ws.files), name, transfer)
  {
    var parts := Split(name, '.');
    if |parts| <= 5 {
      return Raised(IndexError);
    }
    var date := parts[5];
    var local := LocalFileName(name);
    WriteScript(ws, name, local);
    match transfer
    case Delivered(content) =>
      ws.Deposit(local, content);
      var removed := ws.Remove(ScriptFile);
      r := Returned(Fetched(local, date));
    case TransferFailed(_) =>
      var removed := ws.Remove(ScriptFile);
      r := Returned(FetchedFalse);
  }

  /** `with open("moveit_commands.txt", "w")` and its three writes; the working directory always exists. */
  method WriteScript(ws: Workspace, name: string, local: Path)
    modifies ws
    ensures ws.files == old(ws.files)[ScriptFile := ScriptLines(name, local)]
  {
    ParentDirOfName("", ScriptFile);
    var created := ws.OpenForWrite(ScriptFile);
    var script := ScriptLines(name, local);
    ws.Append(ScriptFile, script[0]);
    ws.Append(ScriptFile, script[1]);
    ws.Append(ScriptFile, script[2]);
    assert [] + [script[0]] + [script[1]] + [script[2]] == script;
  }

  /**
   * The script file is gone after every call that got as far as writing it
   * (success and failure alike); a failed transfer returns `False` and
   * leaves the disk as it was apart from that; a name with fewer than six
   * segments raises before anything is written. A delivered transfer always
   * returns `(local, date)`, but when the local file is the script file
   * itself, removing the script deletes the download as well.
   */
  lemma FetchRemovesScript(fs: FileMap, name: string, transfer: Transfer)
    ensures DateField(name).Raised? ==> Fetch(fs, name, transfer) == (Raised(IndexError), fs)
    ensures DateField(name).Returned? ==> ScriptFile !in Fetch(fs, name, transfer).1
    ensures DateField(name).Returned? && transfer.TransferFailed?
            ==> Fetch(fs, name, transfer) == (Returned(FetchedFalse), fs - {ScriptFile})
    ensures DateField(name).Returned? && transfer.Delivered?
            ==> Fetch(fs, name, transfer).0 == Returned(Fetched(LocalFileName(name), DateField(name).value))
    ensures DateField(name).Returned? && transfer.Delivered? && LocalFileName(name) != ScriptFile
            ==> Fetch(fs, name, transfer).1 == (fs - {ScriptFile})[LocalFileName(name) := transfer.content]
    ensures DateField(name).Returned? && transfer.Delivered? && LocalFileName(name) == ScriptFile
            ==> Fetch(fs, name, transfer).1 == fs - {ScriptFile}
  {
    if DateField(name).Returned? {
      var local := LocalFileName(name);
      var scripted := fs[ScriptFile := ScriptLines(name, local)];
      assert scripted - {ScriptFile} == fs - {ScriptFile};
      if transfer.Delivered? && local != ScriptFile {
        assert scripted[local := transfer.content] - {ScriptFile} == (fs - {ScriptFile})[local := transfer.content];
      }
    }
  }

  /** The six dot-separated segments of a dataset name. */
  function Segments(system: string, token: string): seq<string> {
    ["PR1", "T", "LOG", "DIARIO", "SYS" + system, token]
  }

  lemma SegmentsJoin(system: string, token: string)
    ensures Join(Segments(system, token), '.') == DatasetName(system, token)
  {
    var parts := Segments(system, token);
    var tail := "SYS" + system + "." + token;
    assert parts[4..][1..] == parts[5..] == [token];
    assert Join(parts[4..], '.') == tail;
    assert parts[3..][1..] == parts[4..];
    assert Join(parts[3..], '.') == "DIARIO." + tail;
    assert parts[2..][1..] == parts[3..];
    assert Join(parts[2..], '.') == "LOG." + ("DIARIO." + tail);
    assert parts[1..][1..] == parts[2..];
    assert Join(parts[1..], '.') == "T." + ("LOG." + ("DIARIO." + tail));
    assert Join(parts, '.') == "PR1." + ("T." + ("LOG." + ("DIARIO." + tail)));
    assert "PR1." + ("T." + ("LOG." + ("DIARIO." + tail))) == "PR1.T.LOG.DIARIO." + tail;
  }

  lemma SegmentsClean(system: string, token: string)
    requires '.' !in system && '_' !in system && '.' !in token && '_' !in token
    ensures forall i :: 0 <= i < 6 ==> '.' !in Segments(system, token)[i] && '_' !in Segments(system, token)[i]
  {
    var sys := "SYS" + system;
    assert forall k :: 0 <= k < |sys| ==> sys[k] == (if k < 3 then "SYS"[k] else system[k - 3]);
  }

  /**
   * For `PR1.T.LOG.DIARIO.SYS<system>.<token>` the segments are the six
   * parts of the name, the date field is the token itself and the local
   * file is `SYS<system>_<token>.txt`.
   */
  lemma NameDecomposition(system: string, token: string)
    requires '.' !in system && '_' !in system && '.' !in token && '_' !in token
    ensures Split(DatasetName(system, token), '.') == ["PR1", "T", "LOG", "DIARIO", "SYS" + system, token]
    ensures DateField(DatasetName(system, token)) == Returned(token)
    ensures LocalFileName(DatasetName(system, token)) == "SYS" + system + "_" + token + ".txt"
  {
    var parts := Segments(system, token);
    SegmentsJoin(system, token);
    SegmentsClean(system, token);
    SplitJoin(parts, '.');
    ReplaceSeparator(parts, '.', '_');
    SplitJoin(parts, '_');
    assert Drop(parts, 4) == [parts[4], parts[5]];
    assert Join([parts[4], parts[5]], '_') == parts[4] + "_" + parts[5];
  }
}
