/**
 * The front end's pipeline (`LogJobsGUI.get_datasets` and
 * `LogJobsGUI.process_files` in main.py and gui.py): which datasets are
 * fetched for the selected date and system, and, per dataset, fetching,
 * cleaning, one report per environment under `Data\`, and removal of the
 * two transient files.
 */
module Jobs {
  import opened Wrappers
  import opened Strings
  import opened Files
  import opened DateCodec
  import opened Retrieval
  import opened LogCleaner
  import opened EnvFilter
  import opened Calendar

  /** The environments reported for a SYSA dataset, in processing order. */
  const SysaEnv: seq<string> := ["PR1", "QA2"]
  /** The environments reported for a SYSB dataset, in processing order. */
  const SysbEnv: seq<string> := ["PA1", "DE1"]
  /** The directory the reports are written to. */
  const DataDir: string := "Data"

  /** The dataset names for the selected date and system choice (`sysa`, `sysb` or `both`). */
  function DatasetsFor(selected: Option<Date>, choice: string, now: Timestamp): seq<string>
    requires selected.Some? ==> ValidDate(selected.value)
    requires ValidTimestamp(now)
  {
    if selected.None? then []
    else
      var token := OrdinalDate(selected.value, now);
      (if choice in ["sysa", "both"] then [DatasetName("A", token)] else [])
      + (if choice in ["sysb", "both"] then [DatasetName("B", token)] else [])
  }

  /** `output_file.split(".")[0] + "_cleaned.txt"`. */
  function CleanedFileName(outputFile: Path): Path {
    Split(outputFile, '.')[0] + "_cleaned.txt"
  }

  /** `Data\` + `date[2:] + '_' + env + '.txt'`. */
  function ReportPath(date: string, env: string): Path {
    DataDir + "\\" + Drop(date, 2) + "_" + env + ".txt"
  }

  /** The environment list chosen by the system named in the lower-cased dataset name, SYSA first. */
  function EnvsFor(dataset: string): Option<seq<string>> {
    if Contains(Lower(dataset), "sysa") then Some(SysaEnv)
    else if Contains(Lower(dataset), "sysb") then Some(SysbEnv)
    else None
  }

  /** How `process_files` ends: the message box it shows. */
  datatype Outcome =
    | NoDateWarning                 // "Please select a date first"
    | MissingCredentialsError       // "Please enter both username and password"
    | CheckCredentialsError         // "ERROR, check if user and password are correct"
    | ReportToGmnError              // "Error occurred, report to GMN"
    | ExceptionReported(error: PyError)  // the generic handler: "An error occurred: ..."
    | Completed                     // "Processing completed successfully!"

  /** After one dataset: go on with the disk as it is now, or stop with a message. */
  datatype Step = Next(files: FileMap) | Stop(outcome: Outcome, files: FileMap)

  /** The environment loop: one `filter_sort_and_save` per environment, in order, until one raises. */
  function ReportsStep(fs: FileMap, dirs: set<string>, envs: seq<string>, cleaned: Path, date: string): (Raised<()>, FileMap)
    decreases |envs|
  {
    if envs == [] then (Returned(()), fs)
    else
      var (r, fs') := FilterStep(fs, dirs, envs[0], cleaned, ReportPath(date, envs[0]));
      if r.Raised? then (r, fs') else ReportsStep(fs', dirs, envs[1..], cleaned, date)
  }

  /** The body of the dataset loop, `transfer` being what the transfer client does for it. */
  function DatasetStep(fs: FileMap, dirs: set<string>, dataset: string, transfer: Transfer): Step {
    var (fetched, fs1) := Fetch(fs, dataset, transfer);
    match fetched
    case Raised(e) => Stop(ExceptionReported(e), fs1)
    case Returned(FetchedFalse) => Stop(ExceptionReported(UnpackBool), fs1)
    case Returned(Fetched(outputFile, date)) =>
      if outputFile == "" then Stop(CheckCredentialsError, fs1)
      else FetchedStep(fs1, dirs, dataset, outputFile, date)
  }

  /** The `if output_file:` branch: cleaning, the reports of the dataset's system, then the removals. */
  function FetchedStep(fs: FileMap, dirs: set<string>, dataset: string, outputFile: Path, date: string): Step {
    var cleaned := CleanedFileName(outputFile);
    var (c, fs2) := CleanStep(fs, dirs, outputFile, cleaned);
    if c.Raised? then Stop(ExceptionReported(c.error), fs2)
    else
      match EnvsFor(dataset)
      case None => Stop(ReportToGmnError, fs2)
      case Some(envs) =>
        var (w, fs3) := ReportsStep(fs2, dirs, envs, cleaned, date);
        if w.Raised? then Stop(ExceptionReported(w.error), fs3)
        else RemoveStep(fs3, cleaned, outputFile)
  }

  /** `os.remove(cleaned_file)` then `os.remove(output_file)`. */
  function RemoveStep(fs: FileMap, cleaned: Path, outputFile: Path): Step {
    var (r1, fs4) := RemoveFile(fs, cleaned);
    if r1.Raised? then Stop(ExceptionReported(r1.error), fs4)
    else
      var (r2, fs5) := RemoveFile(fs4, outputFile);
      if r2.Raised? then Stop(ExceptionReported(r2.error), fs5) else Next(fs5)
  }

  /** The dataset loop: stops at the first dataset that ends with a message. */
  function DatasetsStep(fs: FileMap, dirs: set<string>, datasets: seq<string>, remote: string -> Transfer): (Outcome, FileMap)
    decreases |datasets|
  {
    if datasets == [] then (Completed, fs)
    else
      match DatasetStep(fs, dirs, datasets[0], remote(datasets[0]))
      case Stop(o, fs') => (o, fs')
      case Next(fs') => DatasetsStep(fs', dirs, datasets[1..], remote)
  }

  /**
   * `process_files` on the disk `fs`: the date check, the credentials
   * check, then the dataset loop; `remote` gives the transfer client's
   * behaviour for each dataset name.
   */
  function Run(fs: FileMap, dirs: set<string>, selected: Option<Date>, user: string, password: string,
               choice: string, now: Timestamp, remote: string -> Transfer): (Outcome, FileMap)
    requires selected.Some? ==> ValidDate(selected.value)
    requires ValidTimestamp(now)
  {
    if selected.None? then (NoDateWarning, fs)
    else if user == "" || password == "" then (MissingCredentialsError, fs)
    else DatasetsStep(fs, dirs, DatasetsFor(selected, choice, now), remote)
  }

  // ---------------------------------------------------------------------------
  // The imperative pipeline
  // ---------------------------------------------------------------------------

  /** The environment loop of `process_files`. */
  method WriteReports(ws: Workspace, envs: seq<string>, cleaned: Path, date: string) returns (r: Raised<()>)
    modifies ws
    ensures (r, ws.files) == ReportsStep(old(ws.files), ws.dirs, envs, cleaned, date)
  {
    for i := 0 to |envs|
      invariant ReportsStep(old(ws.files), ws.dirs, envs, cleaned, date) == ReportsStep(ws.files, ws.dirs, envs[i..], cleaned, date)
    {
      assert envs[i..][1..] == envs[i + 1..];
      var env := envs[i];
      var outputPath := DataDir + "\\" + Drop(date, 2) + "_" + env + ".txt";
      r := FilterSortAndSave(ws, env, cleaned, outputPath);
      if r.Raised? {
        return;
      }
    }
    r := Returned(());
  }

  /** One pass of the dataset loop of `process_files`; `None` means go on with the next dataset. */
  method ProcessDataset(ws: Workspace, dataset: string, transfer: Transfer) returns (stop: Option<Outcome>)
    modifies ws
    ensures DatasetStep(old(ws.files), ws.dirs, dataset, transfer)
         == if stop.None? then Next(ws.files) else Stop(stop.value, ws.files)
  {
    var fetched := GetFileFromFtp(ws, dataset, transfer);
    if fetched.Raised? {
      return Some(ExceptionReported(fetched.error));
    }
    if fetched.value.FetchedFalse? {
      return Some(ExceptionReported(UnpackBool));
    }
    var outputFile, date := fetched.value.localFile, fetched.value.date;
    if outputFile == "" {
      return Some(CheckCredentialsError);
    }
    var cleaned := Split(outputFile, '.')[0] + "_cleaned.txt";
    var c := CleanLogFile(ws, outputFile, cleaned);
    if c.Raised? {
      return Some(ExceptionReported(c.error));
    }
    var w;
    if Contains(Lower(dataset), "sysa") {
      w := WriteReports(ws, SysaEnv, cleaned, date);
    } else if Contains(Lower(dataset), "sysb") {
      w := WriteReports(ws, SysbEnv, cleaned, date);
    } else {
      return Some(ReportToGmnError);
    }
    if w.Raised? {
      return Some(ExceptionReported(w.error));
    }
    var r1 := ws.Remove(cleaned);
    if r1.Raised? {
      return Some(ExceptionReported(r1.error));
    }
    var r2 := ws.Remove(outputFile);
    if r2.Raised? {
      return Some(ExceptionReported(r2.error));
    }
    stop := None;
  }

  /** The dataset loop of `process_files`, inside its `try`. */
  method ProcessDatasets(ws: Workspace, datasets: seq<string>, remote: string -> Transfer) returns (outcome: Outcome)
    modifies ws
    ensures (outcome, ws.files) == DatasetsStep(old(ws.files), ws.dirs, datasets, remote)
  {
    for i := 0 to |datasets|
      invariant DatasetsStep(old(ws.files), ws.dirs, datasets, remote) == DatasetsStep(ws.files, ws.dirs, datasets[i..], remote)
    {
      assert datasets[i..][0] == datasets[i] && datasets[i..][1..] == datasets[i + 1..];
      var stop := ProcessDataset(ws, datasets[i], remote(datasets[i]));
      if stop.Some? {
        return stop.value;
      }
    }
    outcome := Completed;
  }

  /** The main window's state: the login fields, the system choice and the date picker. */
  class LogJobsGui {
    var user: string
    var password: string
    var systemChoice: string
    var selectedDate: Option<Date>
    const cal: CalendarWidget
    const ws: Workspace

    /** The window opens with empty login fields, "both" systems and no date. */
    constructor (cal: CalendarWidget, ws: Workspace)
      ensures this.cal == cal && this.ws == ws
      ensures user == "" && password == "" && systemChoice == "both" && selectedDate == None
    {
      this.cal := cal;
      this.ws := ws;
      user := "";
      password := "";
      systemChoice := "both";
      selectedDate := None;
    }

    /** `get_datasets`: the names for the stored date, SYSA before SYSB. */
    method GetDatasets(now: Timestamp) returns (datasets: seq<string>)
      requires selectedDate.Some? ==> ValidDate(selectedDate.value)
      requires ValidTimestamp(now)
      ensures datasets == DatasetsFor(selectedDate, systemChoice, now)
    {
      if selectedDate.None? {
        return [];
      }
      var julianDate := OrdinalDate(selectedDate.value, now);
      datasets := [];
      if systemChoice in ["sysa", "both"] {
        datasets := datasets + [DatasetName("A", julianDate)];
      }
      if systemChoice in ["sysb", "both"] {
        datasets := datasets + [DatasetName("B", julianDate)];
      }
    }

    /** `process_files`, with `now` the clock reading and `remote` the transfer client's behaviour. */
    method ProcessFiles(now: Timestamp, remote: string -> Transfer) returns (outcome: Outcome)
      requires cal.selectedDate.Some? ==> ValidDate(cal.selectedDate.value)
      requires ValidTimestamp(now)
      modifies this, ws
      ensures selectedDate == cal.selectedDate
      ensures user == old(user) && password == old(password) && systemChoice == old(systemChoice)
      ensures (outcome, ws.files)
           == Run(old(ws.files), ws.dirs, cal.selectedDate, user, password, systemChoice, now, remote)
    {
      selectedDate := cal.selectedDate;
      if selectedDate.None? {
        return NoDateWarning;
      }
      if user == "" || password == "" {
        return MissingCredentialsError;
      }
      var datasets := GetDatasets(now);
      outcome := ProcessDatasets(ws, datasets, remote);
    }
  }
}
