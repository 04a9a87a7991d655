/**
 * Reducing a raw job log to "time job" lines (`clean_log_file` in
 * utils.py): every line is searched for the pattern
 * `(\d{2}:\d{2}:\d{2}).*?\.HASP373\s+(\w+)` and, when it matches, the
 * two groups are written out separated by one space.
 */
module LogCleaner {
  import opened Wrappers
  import opened Strings
  import opened Files

  /** The literal the pattern looks for after the timestamp: `\.HASP373`. */
  const Marker: string := ".HASP373"

  /**
   * One way the pattern matches a line: the timestamp starts at `start`,
   * the literal `.HASP373` at `marker`, and group 2 is `[wordStart, wordEnd)`.
   */
  datatype Match = Match(start: nat, marker: nat, wordStart: nat, wordEnd: nat)

  /** `\d{2}:\d{2}:\d{2}` occupies the eight characters from `i`. */
  predicate TimestampAt(s: string, i: nat) {
    && i + 8 <= |s|
    && IsDigit(s[i]) && IsDigit(s[i + 1]) && s[i + 2] == ':'
    && IsDigit(s[i + 3]) && IsDigit(s[i + 4]) && s[i + 5] == ':'
    && IsDigit(s[i + 6]) && IsDigit(s[i + 7])
  }

  predicate MarkerAt(s: string, j: nat) {
    OccursAt(s, Marker, j)
  }

  /** `.` never matches a line break, so the lazy gap `.*?` holds none. */
  predicate NoNewline(s: string, a: nat, b: nat)
    requires a <= b <= |s|
  {
    forall k :: a <= k < b ==> s[k] != '\n'
  }

  predicate AllSpace(s: string, a: nat, b: nat)
    requires a <= b <= |s|
  {
    forall k :: a <= k < b ==> IsSpace(s[k])
  }

  predicate AllWord(s: string, a: nat, b: nat)
    requires a <= b <= |s|
  {
    forall k :: a <= k < b ==> IsWordChar(s[k])
  }

  /** `m` is a match of the whole pattern in `s`, along any path the regex engine could take. */
  predicate IsMatch(s: string, m: Match) {
    && TimestampAt(s, m.start)
    && m.start + 8 <= m.marker
    && MarkerAt(s, m.marker)
    && NoNewline(s, m.start + 8, m.marker)
    && m.marker + 8 < m.wordStart < m.wordEnd <= |s|
    && AllSpace(s, m.marker + 8, m.wordStart)
    && AllWord(s, m.wordStart, m.wordEnd)
  }

  /** The greedy `\s+` and `\w+` each stop only where their class ends. */
  predicate Greedy(s: string, m: Match)
    requires m.wordStart < |s| && m.wordEnd <= |s|
  {
    && !IsSpace(s[m.wordStart])
    && (m.wordEnd == |s| || !IsWordChar(s[m.wordEnd]))
  }

  /** The end of the whitespace run that starts at `j`. */
  function SpaceRunEnd(s: string, j: nat): (e: nat)
    requires j <= |s|
    ensures j <= e <= |s| && AllSpace(s, j, e)
    ensures e == |s| || !IsSpace(s[e])
    decreases |s| - j
  {
    if j < |s| && IsSpace(s[j]) then SpaceRunEnd(s, j + 1) else j
  }

  /** The end of the word-character run that starts at `j`. */
  function WordRunEnd(s: string, j: nat): (e: nat)
    requires j <= |s|
    ensures j <= e <= |s| && AllWord(s, j, e)
    ensures e == |s| || !IsWordChar(s[e])
    decreases |s| - j
  {
    if j < |s| && IsWordChar(s[j]) then WordRunEnd(s, j + 1) else j
  }

  /** `\s+(\w+)` after the literal found at `marker`: group 2 as a range, if the rest matches. */
  function TailAt(s: string, marker: nat): Option<(nat, nat)>
    requires marker + 8 <= |s|
  {
    var e := SpaceRunEnd(s, marker + 8);
    if marker + 8 < e < |s| && IsWordChar(s[e]) then Some((e, WordRunEnd(s, e))) else None
  }

  /**
   * The lazy `.*?` from the timestamp at `start`: the literal and its tail
   * are tried at `j`, and only when they fail is the gap widened by `s[j]`,
   * which must not be a line break.
   */
  function LazyTail(s: string, start: nat, j: nat): Option<Match>
    requires j <= |s|
    decreases |s| - j
  {
    if j + 8 <= |s| && MarkerAt(s, j) && TailAt(s, j).Some? then
      Some(Match(start, j, TailAt(s, j).value.0, TailAt(s, j).value.1))
    else if j < |s| && s[j] != '\n' then LazyTail(s, start, j + 1)
    else None
  }

  /** The first match the engine finds with the timestamp starting at `i`. */
  function MatchAt(s: string, i: nat): Option<Match> {
    if TimestampAt(s, i) then LazyTail(s, i, i + 8) else None
  }

  /** `pattern.search(s[i:])`-style scan: start positions are tried from left to right. */
  function SearchFrom(s: string, i: nat): Option<Match>
    decreases |s| - i
  {
    if i + 8 > |s| then None
    else if MatchAt(s, i).Some? then MatchAt(s, i)
    else SearchFrom(s, i + 1)
  }

  /** `pattern.search(s)`. */
  function Search(s: string): Option<Match> {
    SearchFrom(s, 0)
  }

  // ---------------------------------------------------------------------------
  // The search agrees with the declarative description of the pattern
  // ---------------------------------------------------------------------------

  /** A whitespace run is determined by where it starts and where its class ends. */
  lemma {:induction false} SpaceRunUnique(s: string, j: nat, e: nat)
    requires j <= e <= |s| && AllSpace(s, j, e) && (e == |s| || !IsSpace(s[e]))
    ensures SpaceRunEnd(s, j) == e
    decreases e - j
  {
    if j < e {
      assert IsSpace(s[j]);
      SpaceRunUnique(s, j + 1, e);
    }
  }

  /** A word character is never whitespace. */
  lemma WordNotSpace(c: char)
    requires IsWordChar(c)
    ensures !IsSpace(c)
  {
  }

  /** Whatever the tail finds is a greedy `\s+(\w+)` after the literal. */
  lemma TailAtSound(s: string, marker: nat)
    requires marker + 8 <= |s| && TailAt(s, marker).Some?
    ensures var (ws, we) := TailAt(s, marker).value;
      && marker + 8 < ws < we <= |s| && AllSpace(s, marker + 8, ws) && AllWord(s, ws, we)
      && !IsSpace(s[ws]) && (we == |s| || !IsWordChar(s[we]))
  {
    var e := SpaceRunEnd(s, marker + 8);
    assert IsWordChar(s[e]);
  }

  /** Any match with its literal at `m.marker` makes the tail succeed there. */
  lemma TailAtComplete(s: string, m: Match)
    requires IsMatch(s, m)
    ensures TailAt(s, m.marker).Some?
    ensures TailAt(s, m.marker).value.0 == m.wordStart
  {
    WordNotSpace(s[m.wordStart]);
    SpaceRunUnique(s, m.marker + 8, m.wordStart);
  }

  /** What the lazy gap returns is a greedy match whose literal lies at or after `j`. */
  lemma {:induction false} LazyTailSound(s: string, start: nat, j: nat)
    requires TimestampAt(s, start) && start + 8 <= j <= |s| && NoNewline(s, start + 8, j)
    requires LazyTail(s, start, j).Some?
    ensures var m := LazyTail(s, start, j).value;
      IsMatch(s, m) && Greedy(s, m) && m.start == start && j <= m.marker
    decreases |s| - j
  {
    if j + 8 <= |s| && MarkerAt(s, j) && TailAt(s, j).Some? {
      TailAtSound(s, j);
    } else {
      LazyTailSound(s, start, j + 1);
    }
  }

  /**
   * The lazy gap finds the nearest literal whose tail matches: no match
   * from the same start has its literal in `[j, marker)` of the result, and
   * if some match has its literal at or after `j`, the gap finds one.
   */
  lemma {:induction false} LazyTailLeast(s: string, m: Match, j: nat)
    requires IsMatch(s, m) && m.start + 8 <= j <= m.marker
    requires NoNewline(s, j, m.marker)
    ensures LazyTail(s, m.start, j).Some?
    ensures LazyTail(s, m.start, j).value.marker <= m.marker
    decreases m.marker - j
  {
    if j == m.marker {
      TailAtComplete(s, m);
      assert j + 8 <= |s| && MarkerAt(s, j);
      assert LazyTail(s, m.start, j).value.marker == j;
    } else if j + 8 <= |s| && MarkerAt(s, j) && TailAt(s, j).Some? {
      assert LazyTail(s, m.start, j).value.marker == j;
    } else {
      assert j < |s| && s[j] != '\n';
      assert NoNewline(s, j + 1, m.marker);
      LazyTailLeast(s, m, j + 1);
      assert LazyTail(s, m.start, j) == LazyTail(s, m.start, j + 1);
    }
  }

  /** Nothing is found from `i` on when no start position from `i` on gives a match. */
  lemma {:induction false} SearchFromSound(s: string, i: nat)
    requires SearchFrom(s, i).Some?
    ensures var m := SearchFrom(s, i).value; IsMatch(s, m) && Greedy(s, m) && i <= m.start
    decreases |s| - i
  {
    if MatchAt(s, i).Some? {
      LazyTailSound(s, i, i + 8);
    } else {
      SearchFromSound(s, i + 1);
    }
  }

  /** A match starting at or after `i` is found, and the found one is not to its right. */
  lemma {:induction false} SearchFromLeast(s: string, i: nat, m: Match)
    requires IsMatch(s, m) && i <= m.start
    ensures SearchFrom(s, i).Some?
    ensures SearchFrom(s, i).value.start <= m.start
    ensures SearchFrom(s, i).value.start == m.start ==> SearchFrom(s, i).value.marker <= m.marker
    decreases m.start - i
  {
    if i == m.start {
      LazyTailLeast(s, m, i + 8);
      LazyTailSound(s, i, i + 8);
    } else if MatchAt(s, i).Some? {
      LazyTailSound(s, i, i + 8);
    } else {
      SearchFromLeast(s, i + 1, m);
    }
  }

  /**
   * `pattern.search` finds a match exactly when the line has one; the one
   * it finds is a greedy match, leftmost by start, and among matches with
   * the same start the one whose literal comes first.
   */
  lemma SearchSpec(s: string)
    ensures Search(s).Some? <==> exists m :: IsMatch(s, m)
    ensures Search(s).Some? ==> IsMatch(s, Search(s).value) && Greedy(s, Search(s).value)
    ensures Search(s).Some? ==> forall m :: IsMatch(s, m) ==>
      && Search(s).value.start <= m.start
      && (Search(s).value.start == m.start ==> Search(s).value.marker <= m.marker)
  {
    if Search(s).Some? {
      SearchFromSound(s, 0);
    }
    forall m | IsMatch(s, m)
      ensures Search(s).Some? && Search(s).value.start <= m.start
      ensures Search(s).value.start == m.start ==> Search(s).value.marker <= m.marker
    {
      SearchFromLeast(s, 0, m);
    }
  }

  // ---------------------------------------------------------------------------
  // The cleaned lines
  // ---------------------------------------------------------------------------

  /** `match.group(1) + ' ' + match.group(2) + '\n'` for each line that matches. */
  function CleanLine(s: string): Option<string> {
    match Search(s)
    case None => None
    case Some(m) =>
      if m.start + 8 <= |s| && m.wordStart <= m.wordEnd <= |s| then
        Some(s[m.start..m.start + 8] + " " + s[m.wordStart..m.wordEnd] + "\n")
      else None
  }

  /** The lines written to the output, in input order. */
  function CleanedLines(lines: seq<string>): seq<string> {
    if lines == [] then []
    else
      var init := CleanedLines(lines[..|lines| - 1]);
      match CleanLine(lines[|lines| - 1])
      case Some(x) => init + [x]
      case None => init
  }

  /** A line is written exactly when it matches, and the written line is made of the two groups. */
  lemma CleanLineSpec(s: string)
    ensures CleanLine(s).Some? <==> exists m :: IsMatch(s, m)
    ensures CleanLine(s).Some? ==>
      var m := Search(s).value;
      CleanLine(s).value == s[m.start..m.start + 8] + " " + s[m.wordStart..m.wordEnd] + "\n"
  {
    SearchSpec(s);
  }

  /**
   * Every written line is `hh:mm:ss job` plus a line break: stripped, it
   * splits into exactly the time and the job name, which is what the
   * filtering stage reads back.
   */
  lemma CleanLineShape(s: string)
    requires CleanLine(s).Some?
    ensures var x := CleanLine(s).value;
      exists t: string, job: string ::
        && |t| == 8 && TimestampAt(t, 0) && NoSpace(t)
        && job != [] && AllWord(job, 0, |job|) && NoSpace(job)
        && x == t + " " + job + "\n"
        && Strip(x) == t + " " + job
        && Fields(Strip(x)) == [t, job]
  {
    SearchSpec(s);
    var m := Search(s).value;
    GroupsHaveNoSpace(s, m);
    WrittenLineFields(s[m.start..m.start + 8], s[m.wordStart..m.wordEnd]);
  }

  /**
   * Group 1 is an `hh:mm:ss` timestamp and group 2 a non-empty run of word
   * characters; neither holds whitespace.
   */
  lemma GroupsHaveNoSpace(s: string, m: Match)
    requires IsMatch(s, m)
    ensures TimestampAt(s[m.start..m.start + 8], 0) && AllWord(s[m.wordStart..m.wordEnd], 0, m.wordEnd - m.wordStart)
    ensures NoSpace(s[m.start..m.start + 8]) && NoSpace(s[m.wordStart..m.wordEnd]) && m.wordStart < m.wordEnd
  {
    var t := s[m.start..m.start + 8];
    var job := s[m.wordStart..m.wordEnd];
    assert forall k :: 0 <= k < 8 ==> t[k] == s[m.start + k];
    assert forall k :: 0 <= k < |job| ==> job[k] == s[m.wordStart + k];
    assert NoSpace(t) by {
      forall k | 0 <= k < 8 ensures !IsSpace(t[k]) {
        assert t[k] == s[m.start + k];
      }
    }
    assert NoSpace(job) by {
      forall k | 0 <= k < |job| ensures !IsSpace(job[k]) {
        assert job[k] == s[m.wordStart + k];
        WordNotSpace(s[m.wordStart + k]);
      }
    }
  }

  /** The line written for the groups `t` and `job` strips and splits back into them. */
  lemma WrittenLineFields(t: string, job: string)
    requires |t| == 8 && NoSpace(t) && job != [] && NoSpace(job)
    ensures Strip(t + " " + job + "\n") == t + " " + job
    ensures Fields(Strip(t + " " + job + "\n")) == [t, job]
  {
    var line := t + " " + job;
    assert line[0] == t[0] && line[|line| - 1] == job[|job| - 1];
    LStripNoop(line);
    RStripNoop(line);
    StripWithNewline(line);
    TwoFields(t, job);
  }

  /** Cleaning a file is cleaning its lines one at a time: it distributes over concatenation. */
  lemma {:induction false} CleanedLinesAppend(a: seq<string>, b: seq<string>)
    ensures CleanedLines(a + b) == CleanedLines(a) + CleanedLines(b)
    decreases |b|
  {
    if b == [] {
      assert a + b == a;
    } else {
      var b' := b[..|b| - 1];
      assert (a + b)[..|a + b| - 1] == a + b';
      assert (a + b)[|a + b| - 1] == b[|b| - 1];
      CleanedLinesAppend(a, b');
    }
  }

  /** One input line yields at most one output line, and only if it matches. */
  lemma CleanedLinesSingle(s: string)
    ensures CleanedLines([s]) == if CleanLine(s).Some? then [CleanLine(s).value] else []
  {
    assert [s][..0] == [];
  }

  /** No more lines come out than go in. */
  lemma {:induction false} CleanedLinesLength(lines: seq<string>)
    ensures |CleanedLines(lines)| <= |lines|
  {
    if lines != [] {
      CleanedLinesLength(lines[..|lines| - 1]);
    }
  }

  /** Every written line comes from some input line, and they keep the input order. */
  lemma {:induction false} CleanedLinesOrigin(lines: seq<string>, k: nat)
    requires k < |CleanedLines(lines)|
    ensures exists i :: 0 <= i < |lines| && CleanLine(lines[i]) == Some(CleanedLines(lines)[k])
  {
    var init := lines[..|lines| - 1];
    if k < |CleanedLines(init)| {
      CleanedLinesOrigin(init, k);
      var i :| 0 <= i < |init| && CleanLine(init[i]) == Some(CleanedLines(init)[k]);
      assert lines[i] == init[i];
    } else {
      assert 0 <= |lines| - 1 < |lines|;
    }
  }

  // ---------------------------------------------------------------------------
  // The file operation
  // ---------------------------------------------------------------------------

  /** Every written line splits, stripped, into exactly two fields: the time and the job name. */
  lemma CleanedLinesTwoFields(lines: seq<string>)
    ensures forall k :: 0 <= k < |CleanedLines(lines)| ==> |Fields(Strip(CleanedLines(lines)[k]))| == 2
  {
    forall k | 0 <= k < |CleanedLines(lines)| ensures |Fields(Strip(CleanedLines(lines)[k]))| == 2 {
      CleanedLinesOrigin(lines, k);
      var i :| 0 <= i < |lines| && CleanLine(lines[i]) == Some(CleanedLines(lines)[k]);
      CleanLineShape(lines[i]);
    }
  }

  /**
   * `clean_log_file(input, output)` on the disk `fs`: the input is opened
   * first, then the output is created or truncated; the lines are read
   * from the input after that, so cleaning a file into itself reads an
   * empty file.
   */
  function CleanStep(fs: FileMap, dirs: set<string>, input: Path, output: Path): (Raised<()>, FileMap) {
    if input !in fs then (Raised(FileNotFound(input)), fs)
    else if !Creatable(dirs, output) then (Raised(FileNotFound(output)), fs)
    else
      var lines := if input == output then [] else fs[input];
      (Returned(()), fs[output := CleanedLines(lines)])
  }

  /** The cleaning loop: one search per input line, one write per match. */
  method CleanLogFile(ws: Workspace, input: Path, output: Path) returns (r: Raised<()>)
    modifies ws
    ensures (r, ws.files) == CleanStep(old(ws.files), ws.dirs, input, output)
  {
    var infile := ws.Read(input);
    if infile.Raised? {
      return Raised(infile.error);
    }
    var created := ws.OpenForWrite(output);
    if created.Raised? {
      return created;
    }
    assert ws.files == old(ws.files)[output := []];
    var lines := ws.Read(input).value;
    assert lines == if input == output then [] else old(ws.files)[input];
    ghost var truncated := ws.files;
    WriteCleaned(ws, output, lines);
    assert truncated[output := CleanedLines(lines)] == old(ws.files)[output := CleanedLines(lines)];
    r := Returned(());
  }

  /** The loop over the input's lines, writing each match to the freshly truncated output. */
  method WriteCleaned(ws: Workspace, output: Path, lines: Lines)
    requires output in ws.files && ws.files[output] == []
    modifies ws
    ensures ws.files == old(ws.files)[output := CleanedLines(lines)]
  {
    for i := 0 to |lines|
      invariant ws.files == old(ws.files)[output := CleanedLines(lines[..i])]
    {
      CleanedLinesPrefix(lines, i);
      var found := CleanLine(lines[i]);
      if found.Some? {
        ws.Append(output, found.value);
        assert CleanedLines(lines[..i + 1]) == CleanedLines(lines[..i]) + [found.value];
      } else {
        assert CleanedLines(lines[..i + 1]) == CleanedLines(lines[..i]);
      }
    }
    assert lines[..|lines|] == lines;
  }

  /** One more input line adds its cleaned form, if it matches, to the written lines. */
  lemma CleanedLinesPrefix(lines: seq<string>, i: nat)
    requires i < |lines|
    ensures CleanedLines(lines[..i + 1])
         == CleanedLines(lines[..i]) + if CleanLine(lines[i]).Some? then [CleanLine(lines[i]).value] else []
  {
    CleanedLinesAppend(lines[..i], [lines[i]]);
    CleanedLinesSingle(lines[i]);
    assert lines[..i + 1] == lines[..i] + [lines[i]];
  }

  /** Cleaning never touches any file other than the output. */
  lemma CleanStepFrame(fs: FileMap, dirs: set<string>, input: Path, output: Path, p: Path)
    requires p != output
    ensures var fs' := CleanStep(fs, dirs, input, output).1;
      (p in fs' <==> p in fs) && (p in fs ==> fs'[p] == fs[p])
  {
  }

  /** The errors `clean_log_file` can raise, and exactly when. */
  lemma CleanStepErrors(fs: FileMap, dirs: set<string>, input: Path, output: Path)
    ensures var r := CleanStep(fs, dirs, input, output).0;
      && (input !in fs ==> r == Raised(FileNotFound(input)))
      && (input in fs && !Creatable(dirs, output) ==> r == Raised(FileNotFound(output)))
      && (r.Raised? <==> input !in fs || !Creatable(dirs, output))
      && (r.Raised? ==> CleanStep(fs, dirs, input, output).1 == fs)
  {
  }
}
