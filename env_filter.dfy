/**
 * Building one environment's report from a cleaned log
 * (`filter_sort_and_save` in utils.py): the lines whose job name belongs
 * to the environment are kept, stripped, stably sorted on their first
 * eight characters (the `hh:mm:ss` time) and written one per line.
 */
module EnvFilter {
  import opened Strings
  import opened Files

  /** The job-name alias each environment's lines may carry instead of the environment prefix. */
  const EnvToIdms: map<string, string> := map["PR1" := "IDMS40", "QA2" := "IDMS32", "PA1" := "IDMS20", "DE1" := "IDMS10"]

  /**
   * Whether `line` belongs to `env`: its second whitespace-separated field
   * starts with `env`, or equals the alias of `env`. The alias is looked up
   * only when the prefix test fails, so an unknown `env` raises only then;
   * a line with fewer than two fields raises first. The fields of the
   * stripped line are those of the line itself (`Strings.FieldsStrip`).
   */
  function KeepLine(env: string, line: string): Raised<bool> {
    KeepFields(env, Fields(line))
  }

  /** The test on `parts = line.strip().split()`, with `parts[1]` the job name. */
  function KeepFields(env: string, parts: seq<string>): Raised<bool> {
    if |parts| < 2 then Raised(IndexError)
    else if StartsWith(parts[1], env) then Returned(true)
    else if env !in EnvToIdms then Raised(KeyError(env))
    else Returned(parts[1] == EnvToIdms[env])
  }

  /**
   * The loop building `env_lines` for a line test `keep`: the kept lines in
   * input order, each as `norm` (here `strip()`) gives it, or the first
   * exception the test raises.
   */
  function Select(keep: string -> Raised<bool>, norm: string -> string, lines: seq<string>): Raised<seq<string>> {
    if lines == [] then Returned([])
    else
      match Select(keep, norm, lines[..|lines| - 1])
      case Raised(e) => Raised(e)
      case Returned(kept) =>
        var last := lines[|lines| - 1];
        match keep(last)
        case Raised(e) => Raised(e)
        case Returned(k) => Returned(if k then kept + [norm(last)] else kept)
  }

  /** The test `filter_sort_and_save` applies to each line for `env`. */
  function EnvTest(env: string): string -> Raised<bool> {
    line => KeepLine(env, line)
  }

  function SelectLines(env: string, lines: seq<string>): Raised<seq<string>> {
    Select(EnvTest(env), Strip, lines)
  }

  /** The sort key `x[:8]`. */
  function SortKey(line: string): string {
    if |line| <= 8 then line else line[..8]
  }

  /** Inserting `x` after every element whose key is not greater than its own. */
  function Insert(s: seq<string>, x: string): seq<string> {
    if s == [] || Le(SortKey(s[|s| - 1]), SortKey(x)) then s + [x]
    else Insert(s[..|s| - 1], x) + [s[|s| - 1]]
  }

  /** `list.sort(key=lambda x: x[:8])`: a stable sort on the key. */
  function SortByKey(s: seq<string>): seq<string> {
    if s == [] then [] else Insert(SortByKey(s[..|s| - 1]), s[|s| - 1])
  }

  predicate SortedByKey(s: seq<string>) {
    forall i, j {:trigger Le(SortKey(s[i]), SortKey(s[j]))} :: 0 <= i < j < |s| ==> Le(SortKey(s[i]), SortKey(s[j]))
  }

  /** The elements of `s` whose key is `k`, in their order in `s`. */
  function KeyFilter(s: seq<string>, k: string): seq<string> {
    if s == [] then []
    else KeyFilter(s[..|s| - 1], k) + (if SortKey(s[|s| - 1]) == k then [s[|s| - 1]] else [])
  }

  /** Each line written with `line + '\n'`. */
  function Terminated(s: seq<string>): (r: seq<string>)
    ensures |r| == |s| && forall i :: 0 <= i < |s| ==> r[i] == s[i] + "\n"
  {
    seq(|s|, i requires 0 <= i < |s| => s[i] + "\n")
  }

  /** The text written to the report, or the exception raised before the report is opened. */
  function Report(env: string, lines: seq<string>): Raised<seq<string>> {
    match SelectLines(env, lines)
    case Raised(e) => Raised(e)
    case Returned(kept) => Returned(Terminated(SortByKey(kept)))
  }

  /**
   * `filter_sort_and_save(env, input, output)` on the disk `fs`: reading
   * the input, then selecting and sorting, then creating the output.
   */
  function FilterStep(fs: FileMap, dirs: set<string>, env: string, input: Path, output: Path): (Raised<()>, FileMap) {
    if input !in fs then (Raised(FileNotFound(input)), fs)
    else
      match Report(env, fs[input])
      case Raised(e) => (Raised(e), fs)
      case Returned(text) =>
        if Creatable(dirs, output) then (Returned(()), fs[output := text])
        else (Raised(FileNotFound(output)), fs)
  }

  // ---------------------------------------------------------------------------
  // Selection
  // ---------------------------------------------------------------------------

  /** When each line is kept, dropped, or makes the loop raise. */
  lemma KeepLineCases(env: string, line: string)
    ensures var parts := Fields(Strip(line));
      && (KeepLine(env, line) == Raised(IndexError) <==> |parts| < 2)
      && (KeepLine(env, line) == Raised(KeyError(env))
          <==> |parts| >= 2 && !StartsWith(parts[1], env) && env !in EnvToIdms)
      && (KeepLine(env, line) == Returned(true)
          <==> |parts| >= 2 && (StartsWith(parts[1], env) || (env in EnvToIdms && parts[1] == EnvToIdms[env])))
  {
    FieldsStrip(line);
  }

  /** Selection runs line by line: it distributes over concatenation, and the first exception wins. */
  lemma {:induction false} SelectAppend(keep: string -> Raised<bool>, norm: string -> string, a: seq<string>, b: seq<string>)
    ensures Select(keep, norm, a + b) ==
      match Select(keep, norm, a)
      case Raised(e) => Raised(e)
      case Returned(x) =>
        match Select(keep, norm, b)
        case Raised(e) => Raised(e)
        case Returned(y) => Returned(x + y)
    decreases |b|
  {
    if b == [] {
      assert a + b == a;
      if Select(keep, norm, a).Returned? {
        assert Select(keep, norm, a).value + [] == Select(keep, norm, a).value;
      }
    } else {
      var b' := b[..|b| - 1];
      assert (a + b)[..|a + b| - 1] == a + b';
      assert (a + b)[|a + b| - 1] == b[|b| - 1];
      SelectAppend(keep, norm, a, b');
      match Select(keep, norm, a)
      case Raised(e) =>
      case Returned(x) =>
        match Select(keep, norm, b')
        case Raised(e) =>
        case Returned(y) =>
          assert x + y + [norm(b[|b| - 1])] == x + (y + [norm(b[|b| - 1])]);
    }
  }

  /** One more line: selection either raised already, raises on that line, or keeps or drops it. */
  lemma SelectStep(keep: string -> Raised<bool>, norm: string -> string, lines: seq<string>, i: nat)
    requires i < |lines|
    ensures Select(keep, norm, lines[..i + 1]) ==
      match Select(keep, norm, lines[..i])
      case Raised(e) => Raised(e)
      case Returned(kept) =>
        match keep(lines[i])
        case Raised(e) => Raised(e)
        case Returned(k) => Returned(if k then kept + [norm(lines[i])] else kept)
  {
    assert lines[..i + 1][..i] == lines[..i];
    assert lines[..i + 1][i] == lines[i];
  }

  /** Once selection has raised, the remaining lines are never looked at. */
  lemma SelectRaisedStays(keep: string -> Raised<bool>, norm: string -> string, lines: seq<string>, i: nat)
    requires i <= |lines| && Select(keep, norm, lines[..i]).Raised?
    ensures Select(keep, norm, lines) == Select(keep, norm, lines[..i])
  {
    SelectAppend(keep, norm, lines[..i], lines[i..]);
    assert lines[..i] + lines[i..] == lines;
  }

  /** Selection succeeds exactly when no line raises. */
  lemma {:induction false} SelectSucceeds(keep: string -> Raised<bool>, norm: string -> string, lines: seq<string>)
    ensures Select(keep, norm, lines).Returned? <==> forall i :: 0 <= i < |lines| ==> keep(lines[i]).Returned?
  {
    if lines != [] {
      var init := lines[..|lines| - 1];
      SelectSucceeds(keep, norm, init);
      assert forall i :: 0 <= i < |init| ==> lines[i] == init[i];
    }
  }

  /** A failed selection reports the exception of the first line that raises. */
  lemma {:induction false} SelectFirstError(keep: string -> Raised<bool>, norm: string -> string, lines: seq<string>)
    requires Select(keep, norm, lines).Raised?
    ensures exists i ::
      && 0 <= i < |lines| && keep(lines[i]) == Raised(Select(keep, norm, lines).error)
      && forall j :: 0 <= j < i ==> keep(lines[j]).Returned?
  {
    var init := lines[..|lines| - 1];
    assert forall i :: 0 <= i < |init| ==> lines[i] == init[i];
    if Select(keep, norm, init).Raised? {
      SelectFirstError(keep, norm, init);
      var i :| 0 <= i < |init| && keep(init[i]) == Raised(Select(keep, norm, init).error)
        && forall j :: 0 <= j < i ==> keep(init[j]).Returned?;
      assert keep(lines[i]) == Raised(Select(keep, norm, lines).error);
    } else {
      SelectSucceeds(keep, norm, init);
      assert keep(lines[|lines| - 1]) == Raised(Select(keep, norm, lines).error);
    }
  }

  /**
   * A successful selection holds the stripped form of every kept line and
   * nothing else, never more lines than the input.
   */
  lemma {:induction false} SelectMembers(keep: string -> Raised<bool>, norm: string -> string, lines: seq<string>)
    requires Select(keep, norm, lines).Returned?
    ensures var kept := Select(keep, norm, lines).value;
      && |kept| <= |lines|
      && (forall i :: 0 <= i < |lines| && keep(lines[i]) == Returned(true) ==> norm(lines[i]) in kept)
      && (forall x :: x in kept ==> exists i :: 0 <= i < |lines| && keep(lines[i]) == Returned(true) && x == norm(lines[i]))
  {
    if lines != [] {
      var init := lines[..|lines| - 1];
      var last := lines[|lines| - 1];
      SelectMembers(keep, norm, init);
      var before := Select(keep, norm, init).value;
      var kept := Select(keep, norm, lines).value;
      assert forall i :: 0 <= i < |init| ==> lines[i] == init[i];
      assert forall x :: x in before ==> x in kept;
      forall i | 0 <= i < |lines| && keep(lines[i]) == Returned(true)
        ensures norm(lines[i]) in kept
      {
        if i < |init| {
          assert lines[i] == init[i];
          assert norm(init[i]) in before;
        } else {
          assert kept == before + [norm(last)];
        }
      }
      forall x | x in kept
        ensures exists i :: 0 <= i < |lines| && keep(lines[i]) == Returned(true) && x == norm(lines[i])
      {
        if x in before {
          var i :| 0 <= i < |init| && keep(init[i]) == Returned(true) && x == norm(init[i]);
          assert lines[i] == init[i];
        } else {
          assert x == norm(last) && keep(lines[|lines| - 1]) == Returned(true);
        }
      }
    }
  }

  /** Lines that are all kept and strip to `s` select to exactly `s`. */
  lemma {:induction false} SelectAllKept(keep: string -> Raised<bool>, norm: string -> string, t: seq<string>, s: seq<string>)
    requires |t| == |s|
    requires forall i :: 0 <= i < |t| ==> keep(t[i]) == Returned(true) && norm(t[i]) == s[i]
    ensures Select(keep, norm, t) == Returned(s)
  {
    if t != [] {
      var n := |t| - 1;
      assert forall i :: 0 <= i < n ==> t[..n][i] == t[i] && s[..n][i] == s[i];
      SelectAllKept(keep, norm, t[..n], s[..n]);
      assert keep(t[n]) == Returned(true) && norm(t[n]) == s[n];
      assert Select(keep, norm, t) == Returned(s[..n] + [s[n]]);
      assert s[..n] + [s[n]] == s;
    }
  }

  /** The errors selection for `env` can raise: an `IndexError` for a short line, or the `KeyError`. */
  lemma SelectLinesErrors(env: string, lines: seq<string>)
    ensures SelectLines(env, lines).Raised? ==>
      || SelectLines(env, lines).error == IndexError
      || (SelectLines(env, lines).error == KeyError(env) && env !in EnvToIdms)
  {
    if SelectLines(env, lines).Raised? {
      SelectFirstError(EnvTest(env), Strip, lines);
    }
  }

  /** Every line the cleaning stage writes has two fields, so selecting from it raises at most the `KeyError`. */
  lemma SelectFromTwoFieldLines(env: string, lines: seq<string>)
    requires forall i :: 0 <= i < |lines| ==> |Fields(Strip(lines[i]))| == 2
    ensures env in EnvToIdms ==> SelectLines(env, lines).Returned?
    ensures SelectLines(env, lines).Raised? ==> SelectLines(env, lines).error == KeyError(env)
  {
    forall i | 0 <= i < |lines| ensures |Fields(lines[i])| == 2 {
      FieldsStrip(lines[i]);
    }
    SelectSucceeds(EnvTest(env), Strip, lines);
    if SelectLines(env, lines).Raised? {
      SelectFirstError(EnvTest(env), Strip, lines);
    }
  }

  // ---------------------------------------------------------------------------
  // The stable sort
  // ---------------------------------------------------------------------------

  lemma {:induction false} InsertPermutes(s: seq<string>, x: string)
    ensures multiset(Insert(s, x)) == multiset(s) + multiset{x}
  {
    if s == [] || Le(SortKey(s[|s| - 1]), SortKey(x)) {
      assert Insert(s, x) == s + [x];
    } else {
      var init, last := s[..|s| - 1], s[|s| - 1];
      InsertPermutes(init, x);
      assert Insert(s, x) == Insert(init, x) + [last];
      assert s == init + [last];
      assert multiset(Insert(init, x) + [last]) == multiset(Insert(init, x)) + multiset{last};
      assert multiset(init + [last]) == multiset(init) + multiset{last};
    }
  }

  /** The sort only reorders: the output is a permutation of the input. */
  lemma {:induction false} SortPermutes(s: seq<string>)
    ensures multiset(SortByKey(s)) == multiset(s)
  {
    if s != [] {
      var init := s[..|s| - 1];
      SortPermutes(init);
      InsertPermutes(SortByKey(init), s[|s| - 1]);
      assert s == init + [s[|s| - 1]];
    }
  }

  lemma {:induction false} InsertSorted(s: seq<string>, x: string)
    requires SortedByKey(s)
    ensures SortedByKey(Insert(s, x))
  {
    if s == [] {
    } else if Le(SortKey(s[|s| - 1]), SortKey(x)) {
      var r := s + [x];
      forall i | 0 <= i < |s| ensures Le(SortKey(r[i]), SortKey(x)) {
        if i < |s| - 1 {
          LeTransitive(SortKey(s[i]), SortKey(s[|s| - 1]), SortKey(x));
        }
      }
    } else {
      var init, last := s[..|s| - 1], s[|s| - 1];
      InsertSorted(init, x);
      InsertPermutes(init, x);
      var t := Insert(init, x);
      LeTotal(SortKey(last), SortKey(x));
      forall i | 0 <= i < |t| ensures Le(SortKey(t[i]), SortKey(last)) {
        assert t[i] in multiset(t);
        if t[i] != x {
          assert t[i] in multiset(init);
          var k :| 0 <= k < |init| && init[k] == t[i];
          assert s[k] == init[k];
        }
      }
      assert Insert(s, x) == t + [last];
    }
  }

  /** The output is ordered by key. */
  lemma {:induction false} SortSorts(s: seq<string>)
    ensures SortedByKey(SortByKey(s))
  {
    if s != [] {
      SortSorts(s[..|s| - 1]);
      InsertSorted(SortByKey(s[..|s| - 1]), s[|s| - 1]);
    }
  }

  lemma {:induction false} KeyFilterAppend(a: seq<string>, b: seq<string>, k: string)
    ensures KeyFilter(a + b, k) == KeyFilter(a, k) + KeyFilter(b, k)
    decreases |b|
  {
    if b == [] {
      assert a + b == a;
    } else {
      var b' := b[..|b| - 1];
      assert (a + b)[..|a + b| - 1] == a + b';
      assert (a + b)[|a + b| - 1] == b[|b| - 1];
      KeyFilterAppend(a, b', k);
    }
  }

  lemma KeyFilterSingle(x: string, k: string)
    ensures KeyFilter([x], k) == if SortKey(x) == k then [x] else []
  {
    assert [x][..0] == [];
  }

  lemma AppendEitherEmpty(a: seq<string>, b: seq<string>, c: seq<string>)
    requires b == [] || c == []
    ensures (a + b) + c == (a + c) + b
  {
    if b == [] {
      assert a + b == a;
    } else {
      assert a + c == a;
    }
  }

  lemma {:induction false} InsertStable(s: seq<string>, x: string, k: string)
    ensures KeyFilter(Insert(s, x), k) == KeyFilter(s, k) + (if SortKey(x) == k then [x] else [])
  {
    KeyFilterSingle(x, k);
    if s == [] || Le(SortKey(s[|s| - 1]), SortKey(x)) {
      assert Insert(s, x) == s + [x];
      KeyFilterAppend(s, [x], k);
    } else {
      var init, last := s[..|s| - 1], s[|s| - 1];
      assert Insert(s, x) == Insert(init, x) + [last];
      InsertStable(init, x, k);
      KeyFilterAppend(Insert(init, x), [last], k);
      KeyFilterSingle(last, k);
      LeReflexive(SortKey(x));
      assert SortKey(last) != SortKey(x);
      var fx := if SortKey(x) == k then [x] else [];
      var fl := if SortKey(last) == k then [last] else [];
      assert fx == [] || fl == [];
      assert KeyFilter(s, k) == KeyFilter(init, k) + fl;
      calc {
        KeyFilter(Insert(s, x), k);
        KeyFilter(Insert(init, x), k) + KeyFilter([last], k);
        (KeyFilter(init, k) + fx) + fl;
        { AppendEitherEmpty(KeyFilter(init, k), fx, fl); }
        (KeyFilter(init, k) + fl) + fx;
        KeyFilter(s, k) + fx;
      }
    }
  }

  /** Stability: lines with equal keys keep their input order. */
  lemma {:induction false} SortStable(s: seq<string>, k: string)
    ensures KeyFilter(SortByKey(s), k) == KeyFilter(s, k)
  {
    if s != [] {
      SortStable(s[..|s| - 1], k);
      InsertStable(SortByKey(s[..|s| - 1]), s[|s| - 1], k);
    }
  }

  /** Sorting what is already in key order changes nothing, so sorting twice is sorting once. */
  lemma {:induction false} SortIdentityOnSorted(s: seq<string>)
    requires SortedByKey(s)
    ensures SortByKey(s) == s
  {
    if s != [] {
      var init := s[..|s| - 1];
      assert SortedByKey(init) by {
        forall i, j | 0 <= i < j < |init| ensures Le(SortKey(init[i]), SortKey(init[j])) {
          assert init[i] == s[i] && init[j] == s[j];
        }
      }
      SortIdentityOnSorted(init);
      if |s| > 1 {
        assert Le(SortKey(s[|s| - 2]), SortKey(s[|s| - 1]));
      }
      assert init + [s[|s| - 1]] == s;
    }
  }

  lemma SortIdempotent(s: seq<string>)
    ensures SortByKey(SortByKey(s)) == SortByKey(s)
  {
    SortSorts(s);
    SortIdentityOnSorted(SortByKey(s));
  }

  // ---------------------------------------------------------------------------
  // The report
  // ---------------------------------------------------------------------------

  /** Only the stripped text of a line decides whether it is kept. */
  lemma KeepLineStrip(env: string, a: string, b: string)
    requires Strip(a) == Strip(b)
    ensures KeepLine(env, a) == KeepLine(env, b)
  {
    FieldsStrip(a);
    FieldsStrip(b);
  }

  /** A kept line, written with its line break, is kept again and strips back to itself. */
  lemma KeptLineRereads(env: string, line: string)
    requires KeepLine(env, line) == Returned(true)
    ensures KeepLine(env, Strip(line) + "\n") == Returned(true)
    ensures Strip(Strip(line) + "\n") == Strip(line)
  {
    StripWithNewline(line);
    KeepLineStrip(env, Strip(line) + "\n", line);
  }

  /**
   * Writing stripped lines with their line breaks and stripping them again
   * on reading gives back exactly the lines written, one for one.
   */
  lemma TerminatedRoundTrip(s: seq<string>)
    requires forall i :: 0 <= i < |s| ==> Strip(s[i]) == s[i]
    ensures |Terminated(s)| == |s|
    ensures forall i :: 0 <= i < |s| ==> Strip(Terminated(s)[i]) == s[i]
  {
    forall i | 0 <= i < |s|
      ensures Strip(Terminated(s)[i]) == s[i]
    {
      StripWithNewline(s[i]);
    }
  }

  /**
   * The report is a fixed point: filtering and sorting a report for the
   * same environment writes the same report again.
   */
  lemma ReportIdempotent(env: string, lines: seq<string>)
    requires Report(env, lines).Returned?
    ensures Report(env, Report(env, lines).value) == Report(env, lines)
  {
    var kept := SelectLines(env, lines).value;
    var sorted := SortByKey(kept);
    var t := Terminated(sorted);
    SelectMembers(EnvTest(env), Strip, lines);
    SortPermutes(kept);
    forall i | 0 <= i < |t| ensures EnvTest(env)(t[i]) == Returned(true) && Strip(t[i]) == sorted[i] {
      assert sorted[i] in multiset(kept);
      assert sorted[i] in kept;
      var j :| 0 <= j < |lines| && EnvTest(env)(lines[j]) == Returned(true) && sorted[i] == Strip(lines[j]);
      KeptLineRereads(env, lines[j]);
    }
    SelectAllKept(EnvTest(env), Strip, t, sorted);
    SortIdempotent(kept);
  }

  /** The report in one lemma: its lines are the kept lines, ordered by key, stably, each ending a line. */
  lemma ReportSpec(env: string, lines: seq<string>)
    requires Report(env, lines).Returned?
    ensures var kept := SelectLines(env, lines).value;
      exists sorted ::
        && Report(env, lines).value == Terminated(sorted)
        && SortedByKey(sorted)
        && multiset(sorted) == multiset(kept)
        && forall k :: KeyFilter(sorted, k) == KeyFilter(kept, k)
  {
    var kept := SelectLines(env, lines).value;
    var sorted := SortByKey(kept);
    SortSorts(kept);
    SortPermutes(kept);
    forall k ensures KeyFilter(sorted, k) == KeyFilter(kept, k) {
      SortStable(kept, k);
    }
  }

  // ---------------------------------------------------------------------------
  // The in-place sort and the file operation
  // ---------------------------------------------------------------------------

  /**
   * Where `Insert` puts `x`: right after the last element whose key is not
   * greater, given that every element from `j` on has a greater key.
   */
  lemma {:induction false} InsertPosition(sorted: seq<string>, x: string, j: nat)
    requires j <= |sorted|
    requires j == 0 || Le(SortKey(sorted[j - 1]), SortKey(x))
    requires forall k :: j <= k < |sorted| ==> !Le(SortKey(sorted[k]), SortKey(x))
    ensures Insert(sorted, x) == sorted[..j] + [x] + sorted[j..]
    decreases |sorted|
  {
    if j == |sorted| {
      assert sorted[..j] == sorted && sorted[j..] == [];
    } else {
      var init, last := sorted[..|sorted| - 1], sorted[|sorted| - 1];
      assert !Le(SortKey(last), SortKey(x));
      InsertPosition(init, x, j);
      assert init[..j] == sorted[..j];
      assert init[j..] + [last] == sorted[j..];
    }
  }

  /** `env_lines.sort(key=...)` as an insertion sort on the list's storage. */
  method SortInPlace(a: array<string>)
    modifies a
    ensures a[..] == SortByKey(old(a[..]))
  {
    ghost var input := a[..];
    for i := 0 to a.Length
      invariant a[..i] == SortByKey(input[..i])
      invariant a[i..] == input[i..]
    {
      assert input[..i + 1] == input[..i] + [input[i]];
      InsertLast(a, i);
    }
    assert input[..a.Length] == input;
  }

  /** One pass of the insertion sort: `a[i]` moves left into the sorted prefix `a[..i]`. */
  method InsertLast(a: array<string>, i: nat)
    requires i < a.Length
    modifies a
    ensures a[..i + 1] == Insert(old(a[..i]), old(a[i]))
    ensures a[i + 1..] == old(a[i + 1..])
  {
    ghost var sorted := a[..i];
    var x := a[i];
    var j := ShiftGreater(a, i, x);
    InsertPosition(sorted, x, j);
    a[j] := x;
    ShiftedInsert(a[..i + 1], sorted, x, j);
  }

  /**
   * The inner loop: the elements at the end of the sorted prefix `a[..i]`
   * whose keys are greater than `x`'s move one place right, leaving a gap at `j`.
   */
  method ShiftGreater(a: array<string>, i: nat, x: string) returns (j: nat)
    requires i < a.Length
    modifies a
    ensures j <= i
    ensures forall k :: 0 <= k < j ==> a[k] == old(a[k])
    ensures forall k :: j < k <= i ==> a[k] == old(a[k - 1])
    ensures forall k :: i < k < a.Length ==> a[k] == old(a[k])
    ensures j == 0 || Le(SortKey(old(a[j - 1])), SortKey(x))
    ensures forall k :: j <= k < i ==> !Le(SortKey(old(a[k])), SortKey(x))
  {
    j := i;
    while j > 0 && !Le(SortKey(a[j - 1]), SortKey(x))
      invariant 0 <= j <= i
      invariant forall k :: 0 <= k < j ==> a[k] == old(a[k])
      invariant forall k :: j < k <= i ==> a[k] == old(a[k - 1])
      invariant forall k :: i < k < a.Length ==> a[k] == old(a[k])
      invariant forall k :: j <= k < i ==> !Le(SortKey(old(a[k])), SortKey(x))
    {
      a[j] := a[j - 1];
      j := j - 1;
    }
  }

  /** The prefix the inner loop leaves: the shifted tail of `sorted`, with `x` in the gap at `j`. */
  lemma ShiftedInsert(b: seq<string>, sorted: seq<string>, x: string, j: nat)
    requires |b| == |sorted| + 1 && j <= |sorted|
    requires forall k :: 0 <= k < j ==> b[k] == sorted[k]
    requires b[j] == x
    requires forall k :: j < k <= |sorted| ==> b[k] == sorted[k - 1]
    ensures b == sorted[..j] + [x] + sorted[j..]
  {
  }

  /** The selection loop over the lines read from the input. */
  method SelectEnvLines(env: string, lines: seq<string>) returns (r: Raised<seq<string>>)
    ensures r == SelectLines(env, lines)
  {
    var envLines: seq<string> := [];
    for i := 0 to |lines|
      invariant SelectLines(env, lines[..i]) == Returned(envLines)
    {
      SelectStep(EnvTest(env), Strip, lines, i);
      var parts := Fields(Strip(lines[i]));
      FieldsStrip(lines[i]);
      if |parts| < 2 {
        SelectRaisedStays(EnvTest(env), Strip, lines, i + 1);
        return Raised(IndexError);
      }
      var jobName := parts[1];
      if StartsWith(jobName, env) {
        envLines := envLines + [Strip(lines[i])];
      } else if env !in EnvToIdms {
        SelectRaisedStays(EnvTest(env), Strip, lines, i + 1);
        return Raised(KeyError(env));
      } else if jobName == EnvToIdms[env] {
        envLines := envLines + [Strip(lines[i])];
      }
    }
    assert lines[..|lines|] == lines;
    r := Returned(envLines);
  }

  /** The writing loop: `output_file.write(line + '\n')` for each sorted line. */
  method WriteTerminated(ws: Workspace, output: Path, a: array<string>)
    requires output in ws.files && ws.files[output] == []
    modifies ws
    ensures ws.files == old(ws.files)[output := Terminated(a[..])]
  {
    for k := 0 to a.Length
      invariant ws.files == old(ws.files)[output := Terminated(a[..k])]
    {
      assert a[..k + 1] == a[..k] + [a[k]];
      assert Terminated(a[..k + 1]) == Terminated(a[..k]) + [a[k] + "\n"];
      ws.Append(output, a[k] + "\n");
    }
    assert a[..a.Length] == a[..];
  }

  /** How `filter_sort_and_save` ends once the input has been read and the report computed. */
  lemma FilterStepRead(fs: FileMap, dirs: set<string>, env: string, input: Path, output: Path)
    requires input in fs
    ensures SelectLines(env, fs[input]).Raised?
            ==> FilterStep(fs, dirs, env, input, output) == (Raised(SelectLines(env, fs[input]).error), fs)
    ensures SelectLines(env, fs[input]).Returned? && !Creatable(dirs, output)
            ==> FilterStep(fs, dirs, env, input, output) == (Raised(FileNotFound(output)), fs)
    ensures SelectLines(env, fs[input]).Returned? && Creatable(dirs, output)
            ==> FilterStep(fs, dirs, env, input, output)
                == (Returned(()), fs[output := Terminated(SortByKey(SelectLines(env, fs[input]).value))])
  {
  }

  /** The selection loop, then the sort of `env_lines` in its own storage. */
  method SelectAndSort(env: string, lines: seq<string>) returns (r: Raised<array<string>>)
    ensures r.Raised? <==> SelectLines(env, lines).Raised?
    ensures r.Raised? ==> r.error == SelectLines(env, lines).error
    ensures r.Returned? ==> fresh(r.value) && r.value[..] == SortByKey(SelectLines(env, lines).value)
  {
    var selected := SelectEnvLines(env, lines);
    if selected.Raised? {
      return Raised(selected.error);
    }
    var envLines := selected.value;
    var buffer := new string[|envLines|](i requires 0 <= i < |envLines| => envLines[i]);
    assert buffer[..] == envLines;
    SortInPlace(buffer);
    r := Returned(buffer);
  }

  /** Reading, the selection loop, the sort, then writing. */
  method FilterSortAndSave(ws: Workspace, env: string, input: Path, output: Path) returns (r: Raised<()>)
    modifies ws
    ensures (r, ws.files) == FilterStep(old(ws.files), ws.dirs, env, input, output)
  {
    var file := ws.Read(input);
    if file.Raised? {
      return Raised(file.error);
    }
    FilterStepRead(ws.files, ws.dirs, env, input, output);
    var sorted := SelectAndSort(env, file.value);
    if sorted.Raised? {
      return Raised(sorted.error);
    }
    var buffer := sorted.value;
    r := SaveReport(ws, output, buffer);
  }

  /** `open(output_file, 'w')`, then the writing loop. */
  method SaveReport(ws: Workspace, output: Path, a: array<string>) returns (r: Raised<()>)
    modifies ws
    ensures r == if Creatable(ws.dirs, output) then Returned(()) else Raised(FileNotFound(output))
    ensures ws.files == if r.Returned? then old(ws.files)[output := Terminated(a[..])] else old(ws.files)
  {
    r := ws.OpenForWrite(output);
    if r.Raised? {
      return;
    }
    ghost var truncated := ws.files;
    WriteTerminated(ws, output, a);
    assert truncated[output := Terminated(a[..])] == old(ws.files)[output := Terminated(a[..])];
  }

  /** The errors `filter_sort_and_save` can raise; on every error the disk is unchanged. */
  lemma FilterStepErrors(fs: FileMap, dirs: set<string>, env: string, input: Path, output: Path)
    ensures var (r, fs') := FilterStep(fs, dirs, env, input, output);
      && (input !in fs ==> r == Raised(FileNotFound(input)))
      && (r.Raised? ==> fs' == fs)
      && (r.Returned? <==> input in fs && Report(env, fs[input]).Returned? && Creatable(dirs, output))
      && (r.Returned? ==> fs' == fs[output := Report(env, fs[input]).value])
  {
  }
}
