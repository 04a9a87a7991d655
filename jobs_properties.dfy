/**
 * What the pipeline of `process_files` does with the two datasets it can
 * build: the names and paths each dataset uses, the disk after one dataset,
 * and how the whole run ends.
 */
module JobsProperties {
  import opened Wrappers
  import opened Strings
  import opened Files
  import opened DateCodec
  import opened Retrieval
  import opened LogCleaner
  import opened EnvFilter
  import opened Jobs

  // ---------------------------------------------------------------------------
  // Names
  // ---------------------------------------------------------------------------

  /** A string shaped like the date token: seven characters, digits or the suffix letters. */
  predicate TokenText(tok: string) {
    |tok| == 7 && forall k :: 0 <= k < 7 ==> TokenChar(tok[k])
  }

  /** The two systems a dataset can belong to. */
  predicate System(system: string) {
    system == "A" || system == "B"
  }

  /** The environments reported for a system's dataset. */
  function EnvsOf(system: string): seq<string> {
    if system == "A" then SysaEnv else SysbEnv
  }

  /** `SYS<system>_<token>`: the local file name without its extension. */
  function Stem(system: string, tok: string): string {
    "SYS" + system + "_" + tok
  }

  lemma TokenIsPlain(tok: string)
    requires TokenText(tok)
    ensures '.' !in tok && '_' !in tok && '\\' !in tok
    ensures forall k :: 0 <= k < |tok| ==> LowerChar(tok[k]) != 'a'
  {
  }

  lemma StemIsPlain(system: string, tok: string)
    requires System(system) && TokenText(tok)
    ensures |Stem(system, tok)| == 12
    ensures '.' !in Stem(system, tok) && '\\' !in Stem(system, tok)
  {
    TokenIsPlain(tok);
    var head := "SYS" + system + "_";
    assert forall k :: 0 <= k < 12 ==> Stem(system, tok)[k] == if k < 5 then head[k] else tok[k - 5];
  }

  /** The local file of a dataset is `SYS<system>_<token>.txt`, and its date field is the token. */
  lemma LocalNames(system: string, tok: string)
    requires System(system) && TokenText(tok)
    ensures DateField(DatasetName(system, tok)) == Returned(tok)
    ensures LocalFileName(DatasetName(system, tok)) == Stem(system, tok) + ".txt"
  {
    TokenIsPlain(tok);
    NameDecomposition(system, tok);
  }

  /** The cleaned copy of `SYS<system>_<token>.txt` is `SYS<system>_<token>_cleaned.txt`. */
  lemma CleanedName(system: string, tok: string)
    requires System(system) && TokenText(tok)
    ensures CleanedFileName(Stem(system, tok) + ".txt") == Stem(system, tok) + "_cleaned.txt"
  {
    var stem := Stem(system, tok);
    StemIsPlain(system, tok);
    SplitAtSeparator(stem, '.', "txt");
    assert stem + ".txt" == stem + ['.'] + "txt";
  }

  /** The lower-cased name of a SYSA dataset holds `sysa`. */
  lemma SysaNameMentionsSysa(tok: string)
    requires TokenText(tok)
    ensures Contains(Lower(DatasetName("A", tok)), "sysa")
  {
    var l := Lower(DatasetName("A", tok));
    assert l[17..21] == "sysa";
    ContainsFromOccurrence(l, "sysa", 17);
  }

  /** The lower-cased name of a SYSB dataset holds `sysb` and not `sysa`: its only `a` is in `diario`. */
  lemma SysbNameMentionsOnlySysb(tok: string)
    requires TokenText(tok)
    ensures Contains(Lower(DatasetName("B", tok)), "sysb")
    ensures !Contains(Lower(DatasetName("B", tok)), "sysa")
  {
    var name := DatasetName("B", tok);
    var l := Lower(name);
    assert l[17..21] == "sysb";
    ContainsFromOccurrence(l, "sysb", 17);
    TokenIsPlain(tok);
    var pre := "PR1.T.LOG.DIARIO.SYSB.";
    assert name == pre + tok;
    forall i | 0 <= i && i + 4 <= |l| ensures !OccursAt(l, "sysa", i) {
      if i + 3 >= 22 {
        assert l[i + 3] == LowerChar(tok[i + 3 - 22]);
        assert l[i..i + 4][3] != 'a';
      } else if i + 3 != 12 {
        assert l[i + 3] == LowerChar(pre[i + 3]);
        assert pre[i + 3] != 'A' && pre[i + 3] != 'a';
        assert l[i..i + 4][3] != 'a';
      } else {
        assert l[9] == '.';
        assert l[i..i + 4][0] != 's';
      }
    }
    ContainsIff(l, "sysa");
  }

  /** The environments chosen for a dataset are those of its system. */
  lemma EnvsOfDataset(system: string, tok: string)
    requires System(system) && TokenText(tok)
    ensures EnvsFor(DatasetName(system, tok)) == Some(EnvsOf(system))
  {
    if system == "A" {
      SysaNameMentionsSysa(tok);
    } else {
      SysbNameMentionsOnlySysb(tok);
    }
  }

  /** A report path is `Data\<yyddd>_<env>.txt`: its directory is `Data` and it names its environment. */
  lemma ReportPathShape(tok: string, env: string)
    requires TokenText(tok) && |env| == 3 && '\\' !in env
    ensures ParentDir(ReportPath(tok, env)) == DataDir
    ensures |ReportPath(tok, env)| == 18 && ReportPath(tok, env)[..5] == DataDir + "\\"
    ensures ReportPath(tok, env)[5..10] == tok[2..] && ReportPath(tok, env)[10] == '_'
    ensures ReportPath(tok, env)[11..14] == env && ReportPath(tok, env)[14..] == ".txt"
  {
    TokenIsPlain(tok);
    var file := Drop(tok, 2) + "_" + env + ".txt";
    assert forall k :: 0 <= k < 5 ==> Drop(tok, 2)[k] == tok[k + 2];
    assert '\\' !in file;
    assert ReportPath(tok, env) == DataDir + "\\" + file;
    ParentDirOfName(DataDir, file);
  }

  lemma ScriptFileIsPlain()
    ensures '\\' !in ScriptFile
  {
    assert ScriptFile == "moveit_commands.txt";
  }

  /** The two report paths of a system differ from each other and from the files without a directory. */
  lemma ReportPathsDistinct(system: string, tok: string, p: Path)
    requires System(system) && TokenText(tok) && '\\' !in p
    ensures var envs := EnvsOf(system);
      && ParentDir(ReportPath(tok, envs[0])) == DataDir && ParentDir(ReportPath(tok, envs[1])) == DataDir
      && ReportPath(tok, envs[0]) != ReportPath(tok, envs[1])
      && ReportPath(tok, envs[0]) != p && ReportPath(tok, envs[1]) != p
  {
    var envs := EnvsOf(system);
    ReportPathShape(tok, envs[0]);
    ReportPathShape(tok, envs[1]);
    assert ReportPath(tok, envs[0])[11] != ReportPath(tok, envs[1])[11];
    assert '\\' in ReportPath(tok, envs[0]) && '\\' in ReportPath(tok, envs[1]);
  }

  // ---------------------------------------------------------------------------
  // One dataset
  // ---------------------------------------------------------------------------

  /** The report `filter_sort_and_save` writes for a known environment `env` from the cleaned copy of `content`. */
  function ReportText(env: string, content: Lines): seq<string>
    requires env in EnvToIdms
  {
    CleanedLinesTwoFields(content);
    SelectFromTwoFieldLines(env, CleanedLines(content));
    Report(env, CleanedLines(content)).value
  }

  /**
   * The disk after a dataset whose log `content` was delivered and whose
   * reports could be written: script, local file and cleaned file gone, one
   * report per environment.
   */
  function AfterDataset(fs: FileMap, system: string, tok: string, content: Lines): FileMap
    requires System(system)
  {
    var envs := EnvsOf(system);
    (fs - {ScriptFile, Stem(system, tok) + ".txt", Stem(system, tok) + "_cleaned.txt"})
      [ReportPath(tok, envs[0]) := ReportText(envs[0], content)]
      [ReportPath(tok, envs[1]) := ReportText(envs[1], content)]
  }

  /** Removing some files and then writing two distinct ones: what one path `p` ends up holding. */
  lemma RemoveThenWrite(fs: FileMap, gone: set<Path>, p0: Path, p1: Path, r0: Lines, r1: Lines, p: Path)
    requires p0 != p1
    ensures var fs' := (fs - gone)[p0 := r0][p1 := r1];
      && (p == p0 ==> p in fs' && fs'[p] == r0)
      && (p == p1 ==> p in fs' && fs'[p] == r1)
      && (p in gone && p != p0 && p != p1 ==> p !in fs')
      && (p !in gone && p != p0 && p != p1 ==> (p in fs' <==> p in fs) && (p in fs ==> fs'[p] == fs[p]))
  {
  }

  /** For a known environment the report never raises: it is the selected lines, sorted by time, one per line. */
  lemma ReportTextSpec(env: string, content: Lines)
    requires env in EnvToIdms
    ensures SelectLines(env, CleanedLines(content)).Returned?
    ensures Report(env, CleanedLines(content)) == Returned(ReportText(env, content))
    ensures ReportText(env, content) == Terminated(SortByKey(SelectLines(env, CleanedLines(content)).value))
  {
    CleanedLinesTwoFields(content);
    SelectFromTwoFieldLines(env, CleanedLines(content));
  }

  /** After a successful dataset each environment's report path holds that environment's report. */
  lemma AfterDatasetReports(fs: FileMap, system: string, tok: string, content: Lines)
    requires System(system) && TokenText(tok)
    ensures var fs' := AfterDataset(fs, system, tok, content);
      var envs := EnvsOf(system);
      && ReportPath(tok, envs[0]) in fs' && fs'[ReportPath(tok, envs[0])] == ReportText(envs[0], content)
      && ReportPath(tok, envs[1]) in fs' && fs'[ReportPath(tok, envs[1])] == ReportText(envs[1], content)
  {
    var envs := EnvsOf(system);
    var gone := {ScriptFile, Stem(system, tok) + ".txt", Stem(system, tok) + "_cleaned.txt"};
    var p0, p1 := ReportPath(tok, envs[0]), ReportPath(tok, envs[1]);
    ScriptFileIsPlain();
    ReportPathsDistinct(system, tok, ScriptFile);
    RemoveThenWrite(fs, gone, p0, p1, ReportText(envs[0], content), ReportText(envs[1], content), p0);
    RemoveThenWrite(fs, gone, p0, p1, ReportText(envs[0], content), ReportText(envs[1], content), p1);
  }

  /** After a successful dataset the script and both transient files are gone. */
  lemma AfterDatasetRemoves(fs: FileMap, system: string, tok: string, content: Lines)
    requires System(system) && TokenText(tok)
    ensures var fs' := AfterDataset(fs, system, tok, content);
      ScriptFile !in fs' && Stem(system, tok) + ".txt" !in fs' && Stem(system, tok) + "_cleaned.txt" !in fs'
  {
    var envs := EnvsOf(system);
    var local, cleaned := Stem(system, tok) + ".txt", Stem(system, tok) + "_cleaned.txt";
    StemIsPlain(system, tok);
    ReportPathsDistinct(system, tok, local);
    ReportPathsDistinct(system, tok, cleaned);
    ScriptFileIsPlain();
    ReportPathsDistinct(system, tok, ScriptFile);
    var gone := {ScriptFile, local, cleaned};
    var p0, p1 := ReportPath(tok, envs[0]), ReportPath(tok, envs[1]);
    var r0, r1 := ReportText(envs[0], content), ReportText(envs[1], content);
    RemoveThenWrite(fs, gone, p0, p1, r0, r1, ScriptFile);
    RemoveThenWrite(fs, gone, p0, p1, r0, r1, local);
    RemoveThenWrite(fs, gone, p0, p1, r0, r1, cleaned);
  }

  /** A successful dataset leaves every file other than its script, its two transient files and its reports as it was. */
  lemma AfterDatasetKeeps(fs: FileMap, system: string, tok: string, content: Lines, p: Path)
    requires System(system) && TokenText(tok)
    requires p != ScriptFile && p != Stem(system, tok) + ".txt" && p != Stem(system, tok) + "_cleaned.txt"
    requires p != ReportPath(tok, EnvsOf(system)[0]) && p != ReportPath(tok, EnvsOf(system)[1])
    ensures var fs' := AfterDataset(fs, system, tok, content);
      (p in fs' <==> p in fs) && (p in fs ==> fs'[p] == fs[p])
  {
    var envs := EnvsOf(system);
    ScriptFileIsPlain();
    ReportPathsDistinct(system, tok, ScriptFile);
    var gone := {ScriptFile, Stem(system, tok) + ".txt", Stem(system, tok) + "_cleaned.txt"};
    RemoveThenWrite(fs, gone, ReportPath(tok, envs[0]), ReportPath(tok, envs[1]),
                    ReportText(envs[0], content), ReportText(envs[1], content), p);
  }

  /** Writing the local and cleaned files, then two reports elsewhere, then removing the two files again. */
  lemma WriteThenRemove(fs: FileMap, script: Path, local: Path, cleaned: Path, content: Lines, kept: Lines,
                        p0: Path, p1: Path, r0: Lines, r1: Lines)
    requires p0 != local && p0 != cleaned && p1 != local && p1 != cleaned
    ensures ((fs - {script})[local := content][cleaned := kept][p0 := r0][p1 := r1] - {cleaned}) - {local}
         == (fs - {script, local, cleaned})[p0 := r0][p1 := r1]
  {
  }

  // ---------------------------------------------------------------------------
  // The stages of one dataset
  // ---------------------------------------------------------------------------

  /** A name of `Stem(system, tok)` and the files derived from it: distinct, and without a directory. */
  lemma StemFiles(system: string, tok: string)
    requires System(system) && TokenText(tok)
    ensures var local, cleaned := Stem(system, tok) + ".txt", Stem(system, tok) + "_cleaned.txt";
      && local != "" && local != ScriptFile && local != cleaned
      && ParentDir(local) == "" && ParentDir(cleaned) == ""
      && '\\' !in local && '\\' !in cleaned
  {
    var stem := Stem(system, tok);
    StemIsPlain(system, tok);
    var local, cleaned := stem + ".txt", stem + "_cleaned.txt";
    assert |local| == 16 && |cleaned| == 24 && |ScriptFile| == 19;
    assert forall k :: 0 <= k < 16 ==> local[k] == if k < 12 then stem[k] else ".txt"[k - 12];
    assert forall k :: 0 <= k < 24 ==> cleaned[k] == if k < 12 then stem[k] else "_cleaned.txt"[k - 12];
    ParentDirOfName("", local);
    ParentDirOfName("", cleaned);
  }

  /** The transfer of a well-formed name: the script is written and removed, the delivered log stays. */
  lemma FetchStage(fs: FileMap, system: string, tok: string, transfer: Transfer)
    requires System(system) && TokenText(tok)
    ensures var local := Stem(system, tok) + ".txt";
      Fetch(fs, DatasetName(system, tok), transfer)
      == match transfer
         case Delivered(content) => (Returned(Fetched(local, tok)), (fs - {ScriptFile})[local := content])
         case TransferFailed(_) => (Returned(FetchedFalse), fs - {ScriptFile})
  {
    LocalNames(system, tok);
    StemFiles(system, tok);
    FetchRemovesScript(fs, DatasetName(system, tok), transfer);
  }

  /** Cleaning the delivered log into `SYS<system>_<token>_cleaned.txt`. */
  lemma CleanStage(fs: FileMap, dirs: set<string>, system: string, tok: string, content: Lines)
    requires System(system) && TokenText(tok)
    ensures var local, cleaned := Stem(system, tok) + ".txt", Stem(system, tok) + "_cleaned.txt";
      var fs1 := (fs - {ScriptFile})[local := content];
      CleanStep(fs1, dirs, local, cleaned) == (Returned(()), fs1[cleaned := CleanedLines(content)])
  {
    StemFiles(system, tok);
  }

  /** The two reports of a system, from a cleaned file: both written when `Data` exists, else the first open raises. */
  lemma ReportsStage(fs: FileMap, dirs: set<string>, system: string, tok: string, cleaned: Path, content: Lines)
    requires System(system) && TokenText(tok)
    requires cleaned in fs && fs[cleaned] == CleanedLines(content) && '\\' !in cleaned
    ensures var envs := EnvsOf(system);
      var p0, p1 := ReportPath(tok, envs[0]), ReportPath(tok, envs[1]);
      ReportsStep(fs, dirs, envs, cleaned, tok)
      == if DataDir in dirs then (Returned(()), fs[p0 := ReportText(envs[0], content)][p1 := ReportText(envs[1], content)])
         else (Raised(FileNotFound(p0)), fs)
  {
    var envs := EnvsOf(system);
    var p0, p1 := ReportPath(tok, envs[0]), ReportPath(tok, envs[1]);
    ReportPathsDistinct(system, tok, cleaned);
    ReportTextSpec(envs[0], content);
    ReportTextSpec(envs[1], content);
    assert Creatable(dirs, p0) <==> DataDir in dirs;
    assert Creatable(dirs, p1) <==> DataDir in dirs;
    var fs1 := fs[p0 := ReportText(envs[0], content)];
    assert fs1[cleaned] == fs[cleaned];
    assert envs[1..][0] == envs[1] && envs[1..][1..] == [];
  }

  /** The first stages of a delivered dataset: fetched, cleaned, and its system's environments chosen. */
  lemma DeliveredStages(fs: FileMap, dirs: set<string>, system: string, tok: string, content: Lines)
    requires System(system) && TokenText(tok)
    ensures var name, local, cleaned := DatasetName(system, tok), Stem(system, tok) + ".txt", Stem(system, tok) + "_cleaned.txt";
      var fs1 := (fs - {ScriptFile})[local := content];
      && Fetch(fs, name, Delivered(content)) == (Returned(Fetched(local, tok)), fs1)
      && local != "" && CleanedFileName(local) == cleaned
      && CleanStep(fs1, dirs, local, cleaned) == (Returned(()), fs1[cleaned := CleanedLines(content)])
      && EnvsFor(name) == Some(EnvsOf(system))
  {
    FetchStage(fs, system, tok, Delivered(content));
    StemFiles(system, tok);
    CleanedName(system, tok);
    CleanStage(fs, dirs, system, tok, content);
    EnvsOfDataset(system, tok);
  }

  /** Removing the cleaned and then the local file after the reports were written elsewhere. */
  lemma RemoveStage(fs: FileMap, system: string, tok: string, content: Lines)
    requires System(system) && TokenText(tok)
    ensures var local, cleaned := Stem(system, tok) + ".txt", Stem(system, tok) + "_cleaned.txt";
      var envs := EnvsOf(system);
      var fs3 := (fs - {ScriptFile})[local := content][cleaned := CleanedLines(content)]
                   [ReportPath(tok, envs[0]) := ReportText(envs[0], content)]
                   [ReportPath(tok, envs[1]) := ReportText(envs[1], content)];
      RemoveStep(fs3, cleaned, local) == Next(AfterDataset(fs, system, tok, content))
  {
    var local, cleaned := Stem(system, tok) + ".txt", Stem(system, tok) + "_cleaned.txt";
    var envs := EnvsOf(system);
    var p0, p1 := ReportPath(tok, envs[0]), ReportPath(tok, envs[1]);
    var r0, r1 := ReportText(envs[0], content), ReportText(envs[1], content);
    StemFiles(system, tok);
    ReportPathsDistinct(system, tok, local);
    ReportPathsDistinct(system, tok, cleaned);
    var fs3 := (fs - {ScriptFile})[local := content][cleaned := CleanedLines(content)][p0 := r0][p1 := r1];
    assert cleaned in fs3 && local in fs3 - {cleaned};
    WriteThenRemove(fs, ScriptFile, local, cleaned, content, CleanedLines(content), p0, p1, r0, r1);
  }

  /** A delivered dataset with `Data` present: the reports are written and the transient files removed. */
  lemma DeliveredWithData(fs: FileMap, dirs: set<string>, system: string, tok: string, content: Lines)
    requires System(system) && TokenText(tok) && DataDir in dirs
    ensures DatasetStep(fs, dirs, DatasetName(system, tok), Delivered(content)) == Next(AfterDataset(fs, system, tok, content))
  {
    var local, cleaned := Stem(system, tok) + ".txt", Stem(system, tok) + "_cleaned.txt";
    var fs1 := (fs - {ScriptFile})[local := content];
    var fs2 := fs1[cleaned := CleanedLines(content)];
    DeliveredStages(fs, dirs, system, tok, content);
    StemFiles(system, tok);
    ReportsStage(fs2, dirs, system, tok, cleaned, content);
    RemoveStage(fs, system, tok, content);
    assert DatasetStep(fs, dirs, DatasetName(system, tok), Delivered(content))
        == FetchedStep(fs1, dirs, DatasetName(system, tok), local, tok);
  }

  /** A delivered dataset without `Data`: the first report raises, and the local and cleaned files stay. */
  lemma DeliveredWithoutData(fs: FileMap, dirs: set<string>, system: string, tok: string, content: Lines)
    requires System(system) && TokenText(tok) && DataDir !in dirs
    ensures var local, cleaned := Stem(system, tok) + ".txt", Stem(system, tok) + "_cleaned.txt";
      DatasetStep(fs, dirs, DatasetName(system, tok), Delivered(content))
      == Stop(ExceptionReported(FileNotFound(ReportPath(tok, EnvsOf(system)[0]))),
              (fs - {ScriptFile})[local := content][cleaned := CleanedLines(content)])
  {
    var local, cleaned := Stem(system, tok) + ".txt", Stem(system, tok) + "_cleaned.txt";
    var fs2 := (fs - {ScriptFile})[local := content][cleaned := CleanedLines(content)];
    DeliveredStages(fs, dirs, system, tok, content);
    StemFiles(system, tok);
    ReportsStage(fs2, dirs, system, tok, cleaned, content);
  }

  /** A failed transfer stops the run with the unpacking error, with only the script removed. */
  lemma TransferFailedStep(fs: FileMap, dirs: set<string>, system: string, tok: string, stderr: string)
    requires System(system) && TokenText(tok)
    ensures DatasetStep(fs, dirs, DatasetName(system, tok), TransferFailed(stderr))
         == Stop(ExceptionReported(UnpackBool), fs - {ScriptFile})
  {
    FetchStage(fs, system, tok, TransferFailed(stderr));
  }

  /**
   * The "check if user and password are correct" message is never shown:
   * a pair returned by the fetch always names a `.txt` file, so its name is
   * never empty, whatever the dataset name.
   */
  lemma CheckCredentialsUnreachable(fs: FileMap, dirs: set<string>, name: string, transfer: Transfer)
    ensures var step := DatasetStep(fs, dirs, name, transfer);
      !(step.Stop? && step.outcome == CheckCredentialsError)
  {
    var local := LocalFileName(name);
    assert |local| >= 4;
  }

  /**
   * A delivered dataset whose name mentions neither system ends with the
   * "report to GMN" message, and the local and cleaned files stay on disk.
   */
  lemma UnknownSystemKeepsFiles(fs: FileMap, dirs: set<string>, name: string, content: Lines)
    requires DateField(name).Returned? && EnvsFor(name).None?
    requires LocalFileName(name) != ScriptFile
    requires Creatable(dirs, CleanedFileName(LocalFileName(name)))
    ensures var step := DatasetStep(fs, dirs, name, Delivered(content));
      var local := LocalFileName(name);
      && step.Stop? && step.outcome == ReportToGmnError
      && local in step.files && CleanedFileName(local) in step.files
  {
    var local := LocalFileName(name);
    assert |local| >= 4;
    FetchRemovesScript(fs, name, Delivered(content));
  }

  // ---------------------------------------------------------------------------
  // The whole run
  // ---------------------------------------------------------------------------

  /** The datasets `get_datasets` builds, for each system choice; any other choice builds none. */
  lemma DatasetsForSpec(selected: Option<Date>, choice: string, now: Timestamp)
    requires selected.Some? ==> ValidDate(selected.value)
    requires ValidTimestamp(now)
    ensures selected.None? ==> DatasetsFor(selected, choice, now) == []
    ensures selected.Some? ==>
      var tok := OrdinalDate(selected.value, now);
      && TokenText(tok)
      && DatasetsFor(selected, choice, now)
         == if choice == "sysa" then [DatasetName("A", tok)]
            else if choice == "sysb" then [DatasetName("B", tok)]
            else if choice == "both" then [DatasetName("A", tok), DatasetName("B", tok)]
            else []
  {
    if selected.Some? {
      TokenRoundTrip(selected.value, now);
    }
  }

  /** A dataset name `get_datasets` can build for the token `tok`. */
  predicate BuiltName(tok: string, d: string) {
    d == DatasetName("A", tok) || d == DatasetName("B", tok)
  }

  /** The outcome of one dataset with a built name, and whether the loop goes on after it. */
  lemma StepOutcome(fs: FileMap, dirs: set<string>, tok: string, d: string, transfer: Transfer)
    requires TokenText(tok) && BuiltName(tok, d)
    ensures var step := DatasetStep(fs, dirs, d, transfer);
      && (step.Next? <==> transfer.Delivered? && DataDir in dirs)
      && (transfer.TransferFailed? ==> step.Stop? && step.outcome == ExceptionReported(UnpackBool))
      && (transfer.Delivered? && DataDir !in dirs ==>
            step.Stop? && step.outcome.ExceptionReported? && step.outcome.error.FileNotFound?
            && ParentDir(step.outcome.error.path) == DataDir)
  {
    var system := if d == DatasetName("A", tok) then "A" else "B";
    assert d == DatasetName(system, tok);
    match transfer
    case TransferFailed(stderr) =>
      TransferFailedStep(fs, dirs, system, tok, stderr);
    case Delivered(content) =>
      if DataDir in dirs {
        DeliveredWithData(fs, dirs, system, tok, content);
      } else {
        DeliveredWithoutData(fs, dirs, system, tok, content);
        ReportPathsDistinct(system, tok, "");
      }
  }

  /** The dataset loop over built names completes exactly when every transfer delivers and, if there is any dataset, `Data` exists. */
  lemma {:induction false} DatasetsCompleted(fs: FileMap, dirs: set<string>, tok: string, datasets: seq<string>,
                                             remote: string -> Transfer)
    requires TokenText(tok)
    requires forall d :: d in datasets ==> BuiltName(tok, d)
    ensures DatasetsStep(fs, dirs, datasets, remote).0 == Completed <==>
            (forall d :: d in datasets ==> remote(d).Delivered?) && (datasets != [] ==> DataDir in dirs)
    decreases |datasets|
  {
    if datasets != [] {
      var d, rest := datasets[0], datasets[1..];
      assert datasets == [d] + rest;
      StepOutcome(fs, dirs, tok, d, remote(d));
      var step := DatasetStep(fs, dirs, d, remote(d));
      if step.Next? {
        DatasetsCompleted(step.files, dirs, tok, rest, remote);
      }
    }
  }

  /**
   * A dataset loop over built names that does not complete ends with the
   * unpacking error of a failed transfer, or with the first dataset's first
   * report failing to open because `Data` is missing.
   */
  lemma {:induction false} DatasetsFailure(fs: FileMap, dirs: set<string>, tok: string, datasets: seq<string>,
                                           remote: string -> Transfer)
    requires TokenText(tok)
    requires forall d :: d in datasets ==> BuiltName(tok, d)
    ensures var o := DatasetsStep(fs, dirs, datasets, remote).0;
      && (o == Completed || o.ExceptionReported?)
      && (o.ExceptionReported? ==> o.error == UnpackBool || o.error.FileNotFound?)
      && (o == ExceptionReported(UnpackBool) ==> exists d :: d in datasets && remote(d).TransferFailed?)
      && (o.ExceptionReported? && o.error.FileNotFound? ==>
            && datasets != [] && DataDir !in dirs && remote(datasets[0]).Delivered?
            && ParentDir(o.error.path) == DataDir)
    decreases |datasets|
  {
    if datasets != [] {
      var d, rest := datasets[0], datasets[1..];
      StepOutcome(fs, dirs, tok, d, remote(d));
      var step := DatasetStep(fs, dirs, d, remote(d));
      assert datasets == [d] + rest;
      if step.Next? {
        DatasetsFailure(step.files, dirs, tok, rest, remote);
      }
    }
  }

  /**
   * How `process_files` ends: the two early warnings leave the disk as it
   * was; the credentials message and the unknown-system message never
   * appear for the names it builds; an exception is either the unpacking
   * error of a failed transfer or a report that cannot be opened because
   * `Data` is missing; and it reports success exactly when a date and both
   * credentials are given, every transfer delivers and, if any dataset is
   * built, `Data` exists.
   */
  lemma RunOutcome(fs: FileMap, dirs: set<string>, selected: Option<Date>, user: string, password: string,
                   choice: string, now: Timestamp, remote: string -> Transfer)
    requires selected.Some? ==> ValidDate(selected.value)
    requires ValidTimestamp(now)
    ensures var (o, fs') := Run(fs, dirs, selected, user, password, choice, now, remote);
      var datasets := DatasetsFor(selected, choice, now);
      && (selected.None? ==> o == NoDateWarning && fs' == fs)
      && (selected.Some? && (user == "" || password == "") ==> o == MissingCredentialsError && fs' == fs)
      && o != CheckCredentialsError && o != ReportToGmnError
      && (o.ExceptionReported? ==>
            o.error == UnpackBool || (o.error.FileNotFound? && ParentDir(o.error.path) == DataDir && DataDir !in dirs))
      && (o == Completed <==>
            && selected.Some? && user != "" && password != ""
            && (forall d :: d in datasets ==> remote(d).Delivered?)
            && (datasets != [] ==> DataDir in dirs))
  {
    if selected.Some? && user != "" && password != "" {
      var tok := OrdinalDate(selected.value, now);
      DatasetsForSpec(selected, choice, now);
      DatasetsCompleted(fs, dirs, tok, DatasetsFor(selected, choice, now), remote);
      DatasetsFailure(fs, dirs, tok, DatasetsFor(selected, choice, now), remote);
    }
  }

  /** A loop over one dataset that goes on after it completes with the disk the dataset leaves. */
  lemma OneDataset(fs: FileMap, dirs: set<string>, d: string, remote: string -> Transfer)
    requires DatasetStep(fs, dirs, d, remote(d)).Next?
    ensures DatasetsStep(fs, dirs, [d], remote) == (Completed, DatasetStep(fs, dirs, d, remote(d)).files)
  {
    assert [d][1..] == [];
  }

  /** A loop over two datasets that both go on completes with the disk the second one leaves. */
  lemma TwoDatasets(fs: FileMap, dirs: set<string>, d: string, e: string, remote: string -> Transfer)
    requires DatasetStep(fs, dirs, d, remote(d)).Next?
    requires DatasetStep(DatasetStep(fs, dirs, d, remote(d)).files, dirs, e, remote(e)).Next?
    ensures DatasetsStep(fs, dirs, [d, e], remote)
         == (Completed, DatasetStep(DatasetStep(fs, dirs, d, remote(d)).files, dirs, e, remote(e)).files)
  {
    assert [d, e][1..] == [e];
    OneDataset(DatasetStep(fs, dirs, d, remote(d)).files, dirs, e, remote);
  }

  /** With SYSA chosen, a delivered log and `Data` present, the run succeeds and leaves the SYSA reports. */
  lemma RunSysaDisk(fs: FileMap, dirs: set<string>, date: Date, user: string, password: string,
                    now: Timestamp, remote: string -> Transfer)
    requires ValidDate(date) && ValidTimestamp(now)
    requires user != "" && password != "" && DataDir in dirs
    requires remote(DatasetName("A", OrdinalDate(date, now))).Delivered?
    ensures var tok := OrdinalDate(date, now);
      Run(fs, dirs, Some(date), user, password, "sysa", now, remote)
      == (Completed, AfterDataset(fs, "A", tok, remote(DatasetName("A", tok)).content))
  {
    var tok := OrdinalDate(date, now);
    var a := DatasetName("A", tok);
    DatasetsForSpec(Some(date), "sysa", now);
    DeliveredWithData(fs, dirs, "A", tok, remote(a).content);
    OneDataset(fs, dirs, a, remote);
  }

  /** With SYSB chosen, a delivered log and `Data` present, the run succeeds and leaves the SYSB reports. */
  lemma RunSysbDisk(fs: FileMap, dirs: set<string>, date: Date, user: string, password: string,
                    now: Timestamp, remote: string -> Transfer)
    requires ValidDate(date) && ValidTimestamp(now)
    requires user != "" && password != "" && DataDir in dirs
    requires remote(DatasetName("B", OrdinalDate(date, now))).Delivered?
    ensures var tok := OrdinalDate(date, now);
      Run(fs, dirs, Some(date), user, password, "sysb", now, remote)
      == (Completed, AfterDataset(fs, "B", tok, remote(DatasetName("B", tok)).content))
  {
    var tok := OrdinalDate(date, now);
    var b := DatasetName("B", tok);
    DatasetsForSpec(Some(date), "sysb", now);
    DeliveredWithData(fs, dirs, "B", tok, remote(b).content);
    OneDataset(fs, dirs, b, remote);
  }

  /** With both systems chosen, both logs delivered and `Data` present, the run leaves all four reports, SYSA first. */
  lemma RunBothDisk(fs: FileMap, dirs: set<string>, date: Date, user: string, password: string,
                    now: Timestamp, remote: string -> Transfer)
    requires ValidDate(date) && ValidTimestamp(now)
    requires user != "" && password != "" && DataDir in dirs
    requires remote(DatasetName("A", OrdinalDate(date, now))).Delivered?
    requires remote(DatasetName("B", OrdinalDate(date, now))).Delivered?
    ensures var tok := OrdinalDate(date, now);
      var a, b := DatasetName("A", tok), DatasetName("B", tok);
      Run(fs, dirs, Some(date), user, password, "both", now, remote)
      == (Completed, AfterDataset(AfterDataset(fs, "A", tok, remote(a).content), "B", tok, remote(b).content))
  {
    var tok := OrdinalDate(date, now);
    var a, b := DatasetName("A", tok), DatasetName("B", tok);
    DatasetsForSpec(Some(date), "both", now);
    DeliveredWithData(fs, dirs, "A", tok, remote(a).content);
    DeliveredWithData(AfterDataset(fs, "A", tok, remote(a).content), dirs, "B", tok, remote(b).content);
    TwoDatasets(fs, dirs, a, b, remote);
  }

  /** With a choice other than `sysa`, `sysb` and `both` no dataset is built: the run succeeds without touching the disk. */
  lemma RunUnknownChoice(fs: FileMap, dirs: set<string>, date: Date, user: string, password: string,
                         choice: string, now: Timestamp, remote: string -> Transfer)
    requires ValidDate(date) && ValidTimestamp(now)
    requires user != "" && password != ""
    requires choice != "sysa" && choice != "sysb" && choice != "both"
    ensures Run(fs, dirs, Some(date), user, password, choice, now, remote) == (Completed, fs)
  {
    DatasetsForSpec(Some(date), choice, now);
  }
}
