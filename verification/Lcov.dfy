/** scripts/merge-coverage.js: the parser, the merger and the printer of coverage tracefiles. */
module Lcov {
  import opened Wrappers
  import opened Assoc
  import opened LcovText

  /** What is known of one source file: hits per line, per branch key and per function, and where functions start. */
  datatype Record = Record(
    file: string,
    lines: Assoc<int, int>,
    branches: Assoc<string, int>,
    functions: Assoc<string, int>,
    fnDefs: Assoc<string, int>)

  function EmptyRecord(file: string): Record {
    Record(file, [], [], [], [])
  }

  // ---- parsing ----

  datatype Parsing = Parsing(records: seq<Record>, current: Option<Record>)

  const Start := Parsing([], None)

  predicate StartsWith(line: string, prefix: string) {
    |prefix| <= |line| && line[..|prefix|] == prefix
  }

  /** The state after one more line. */
  function Feed(st: Parsing, line: string): Parsing {
    if line == "" then st
    else if StartsWith(line, "SF:") then
      Parsing(if st.current.Some? then st.records + [st.current.value] else st.records,
              Some(EmptyRecord(line[3..])))
    else if st.current.None? then st
    else
      var r := st.current.value;
      if StartsWith(line, "DA:") then st.(current := Some(r.(lines := FeedDa(r.lines, line[3..]))))
      else if StartsWith(line, "FN:") then st.(current := Some(r.(fnDefs := FeedFn(r.fnDefs, line[3..]))))
      else if StartsWith(line, "FNDA:") then st.(current := Some(r.(functions := FeedFnda(r.functions, line[5..]))))
      else if StartsWith(line, "BRDA:") then st.(current := Some(r.(branches := FeedBrda(r.branches, line[5..]))))
      else if line == "end_of_record" then Parsing(st.records + [r], None)
      else st
  }

  function FeedDa(lines: Assoc<int, int>, rest: string): Assoc<int, int> {
    var parts := Split(rest, ',');
    AddCount(lines, ParseNumber(parts[0]), ParseNumber(Part(parts, 1)))
  }

  /** Function names may hold commas; nameless entries are dropped. */
  function FeedFn(fnDefs: Assoc<string, int>, rest: string): Assoc<string, int> {
    var parts := Split(rest, ',');
    var name := Join(parts[1..], ',');
    if name == "" then fnDefs else Put(fnDefs, name, ParseNumber(parts[0]))
  }

  function FeedFnda(functions: Assoc<string, int>, rest: string): Assoc<string, int> {
    var parts := Split(rest, ',');
    var name := Join(parts[1..], ',');
    if name == "" then functions else AddCount(functions, name, ParseNumber(parts[0]))
  }

  /** A branch never reached ("-") counts 0. */
  function FeedBrda(branches: Assoc<string, int>, rest: string): Assoc<string, int> {
    var parts := Split(rest, ',');
    var taken := Part(parts, 3);
    AddCount(branches, parts[0] + "," + Part(parts, 1) + "," + Part(parts, 2),
             if taken == "-" then 0 else ParseNumber(taken))
  }

  function FeedAll(st: Parsing, lines: seq<string>): Parsing {
    if lines == [] then st else Feed(FeedAll(st, lines[..|lines| - 1]), lines[|lines| - 1])
  }

  /** The records of a list of lines, the last one even when its end_of_record is missing. */
  function ParseLines(lines: seq<string>): seq<Record> {
    var st := FeedAll(Start, lines);
    if st.current.Some? then st.records + [st.current.value] else st.records
  }

  function Parse(content: string): seq<Record> {
    ParseLines(SplitLines(content))
  }

  /** contents.flatMap(parseLcov). */
  function ParseAll(contents: seq<string>): seq<Record> {
    if contents == [] then [] else ParseAll(contents[..|contents| - 1]) + Parse(contents[|contents| - 1])
  }

  method ParseLcov(content: string) returns (records: seq<Record>)
    ensures records == Parse(content)
  {
    records := [];
    var current: Option<Record> := None;
    var lines := SplitLines(content);
    var i := 0;
    while i < |lines|
      invariant 0 <= i <= |lines|
      invariant Parsing(records, current) == FeedAll(Start, lines[..i])
    {
      var line := lines[i];
      assert lines[..i + 1][..i] == lines[..i];
      i := i + 1;
      if line == "" { continue; }
      if StartsWith(line, "SF:") {
        if current.Some? { records := records + [current.value]; }
        current := Some(EmptyRecord(line[3..]));
        continue;
      }
      if current.None? { continue; }
      var r := current.value;
      if StartsWith(line, "DA:") {
        var parts := Split(line[3..], ',');
        current := Some(r.(lines := AddCount(r.lines, ParseNumber(parts[0]), ParseNumber(Part(parts, 1)))));
      } else if StartsWith(line, "FN:") {
        var parts := Split(line[3..], ',');
        var name := Join(parts[1..], ',');
        if name != "" { current := Some(r.(fnDefs := Put(r.fnDefs, name, ParseNumber(parts[0])))); }
      } else if StartsWith(line, "FNDA:") {
        var parts := Split(line[5..], ',');
        var name := Join(parts[1..], ',');
        if name != "" { current := Some(r.(functions := AddCount(r.functions, name, ParseNumber(parts[0])))); }
      } else if StartsWith(line, "BRDA:") {
        var parts := Split(line[5..], ',');
        var count := if Part(parts, 3) == "-" then 0 else ParseNumber(Part(parts, 3));
        var key := parts[0] + "," + Part(parts, 1) + "," + Part(parts, 2);
        current := Some(r.(branches := AddCount(r.branches, key, count)));
      } else if line == "end_of_record" {
        records := records + [r];
        current := None;
      }
    }
    assert lines[..i] == lines;
    if current.Some? { records := records + [current.value]; }
  }

  // ---- merging ----

  type Merged = Assoc<string, Record>

  /** Counts are added; the first definition of a function wins. */
  function Absorb(existing: Record, r: Record): Record {
    Record(existing.file,
           AddAll(existing.lines, r.lines),
           AddAll(existing.branches, r.branches),
           AddAll(existing.functions, r.functions),
           PutMissing(existing.fnDefs, r.fnDefs))
  }

  function Known(merged: Merged, file: string): Record {
    match Lookup(merged, file) case Some(e) => e case None => EmptyRecord(file)
  }

  function Merge(records: seq<Record>): Merged {
    if records == [] then [] else
    var r, before := records[|records| - 1], Merge(records[..|records| - 1]);
    Put(before, r.file, Absorb(Known(before, r.file), r))
  }

  method MergeRecords(records: seq<Record>) returns (merged: Merged)
    ensures merged == Merge(records)
  {
    hide Has, Put, Lookup, CountOf;
    merged := [];
    for n := 0 to |records|
      invariant merged == Merge(records[..n])
    {
      var r := records[n];
      assert records[..n + 1][..n] == records[..n];
      var existing := match Lookup(merged, r.file) case Some(e) => e case None => EmptyRecord(r.file);
      ghost var was := existing;
      for i := 0 to |r.lines|
        invariant existing == was.(lines := AddAll(was.lines, r.lines[..i]))
      {
        assert r.lines[..i + 1][..i] == r.lines[..i];
        existing := existing.(lines := AddCount(existing.lines, r.lines[i].0, r.lines[i].1));
      }
      assert r.lines[..|r.lines|] == r.lines;
      was := existing;
      for i := 0 to |r.branches|
        invariant existing == was.(branches := AddAll(was.branches, r.branches[..i]))
      {
        assert r.branches[..i + 1][..i] == r.branches[..i];
        existing := existing.(branches := AddCount(existing.branches, r.branches[i].0, r.branches[i].1));
      }
      assert r.branches[..|r.branches|] == r.branches;
      was := existing;
      for i := 0 to |r.functions|
        invariant existing == was.(functions := AddAll(was.functions, r.functions[..i]))
      {
        assert r.functions[..i + 1][..i] == r.functions[..i];
        existing := existing.(functions := AddCount(existing.functions, r.functions[i].0, r.functions[i].1));
      }
      assert r.functions[..|r.functions|] == r.functions;
      was := existing;
      for i := 0 to |r.fnDefs|
        invariant existing == was.(fnDefs := PutMissing(was.fnDefs, r.fnDefs[..i]))
      {
        assert r.fnDefs[..i + 1][..i] == r.fnDefs[..i];
        if !Has(existing.fnDefs, r.fnDefs[i].0) {
          existing := existing.(fnDefs := Put(existing.fnDefs, r.fnDefs[i].0, r.fnDefs[i].1));
        }
      }
      assert r.fnDefs[..|r.fnDefs|] == r.fnDefs;
      merged := Put(merged, r.file, existing);
    }
    assert records[..|records|] == records;
  }

  // ---- printing ----

  /** The two string orders of the script: Array.prototype.sort on file names, localeCompare on function names. */
  datatype Collation = Collation(files: (string, string) -> bool, names: (string, string) -> bool)
  {
    ghost predicate Valid() { Comparable(files) && Comparable(names) }

    function ByFile(): ((string, Record), (string, Record)) -> bool {
      (a: (string, Record), b: (string, Record)) => files(a.0, b.0)
    }
    function ByLine(): ((string, int), (string, int)) -> bool {
      (a: (string, int), b: (string, int)) => a.1 < b.1 || (a.1 == b.1 && names(a.0, b.0))
    }
    function ByName(): ((string, int), (string, int)) -> bool {
      (a: (string, int), b: (string, int)) => names(a.0, b.0)
    }
  }

  function ByLineNo(): ((int, int), (int, int)) -> bool {
    (a: (int, int), b: (int, int)) => a.0 <= b.0
  }

  type Triple = (int, int, int)

  predicate TripleLeq(a: Triple, b: Triple) {
    a.0 < b.0 || (a.0 == b.0 && (a.1 < b.1 || (a.1 == b.1 && a.2 <= b.2)))
  }

  function ByTriple(): ((Triple, int), (Triple, int)) -> bool {
    (a: (Triple, int), b: (Triple, int)) => TripleLeq(a.0, b.0)
  }

  function Each<A, B>(f: A -> B, s: seq<A>): (r: seq<B>)
    ensures |r| == |s| && forall i :: 0 <= i < |s| ==> r[i] == f(s[i])
  {
    seq(|s|, i requires 0 <= i < |s| => f(s[i]))
  }

  /** The functions that were counted but never defined. */
  function Undefined(functions: Assoc<string, int>, fnDefs: Assoc<string, int>): seq<string> {
    if functions == [] then [] else
    (if Has(fnDefs, functions[0].0) then [] else [functions[0].0]) + Undefined(functions[1..], fnDefs)
  }

  function FunctionNames(r: Record): seq<string> {
    Keys(r.fnDefs) + Undefined(r.functions, r.fnDefs)
  }

  function FnEntries(o: Collation, r: Record): Assoc<string, int> {
    Sort(o.ByLine(), Each((name: string) => (name, CountOf(r.fnDefs, name)), FunctionNames(r)))
  }

  function FnCounts(o: Collation, r: Record): Assoc<string, int> {
    Sort(o.ByName(), r.functions)
  }

  function LineEntries(r: Record): Assoc<int, int> {
    Sort(ByLineNo(), r.lines)
  }

  /** The three numbers of a branch key. */
  function TripleOf(key: string): Triple {
    var parts := Split(key, ',');
    (ParseNumber(parts[0]), ParseNumber(Part(parts, 1)), ParseNumber(Part(parts, 2)))
  }

  function Numbered(branches: Assoc<string, int>): Assoc<Triple, int> {
    Each((e: (string, int)) => (TripleOf(e.0), e.1), branches)
  }

  function BranchEntries(r: Record): Assoc<Triple, int> {
    Sort(ByTriple(), Numbered(r.branches))
  }

  function SfRow(file: string): string { "SF:" + file }
  function EndRow(): string { "end_of_record" }
  function FnRow(e: (string, int)): string { "FN:" + (Decimal(e.1) + "," + e.0) }
  function FndaRow(e: (string, int)): string { "FNDA:" + (Decimal(e.1) + "," + e.0) }
  function DaRow(e: (int, int)): string { "DA:" + (Decimal(e.0) + "," + Decimal(e.1)) }
  function Key(t: Triple): string { Decimal(t.0) + "," + Decimal(t.1) + "," + Decimal(t.2) }
  function BrdaRow(e: (Triple, int)): string { "BRDA:" + (Key(e.0) + "," + Decimal(e.1)) }

  function Hits<K>(entries: Assoc<K, int>): nat {
    if entries == [] then 0 else
    Hits(entries[..|entries| - 1]) + if entries[|entries| - 1].1 > 0 then 1 else 0
  }

  function FnLines(o: Collation, r: Record): seq<string> { Each(FnRow, FnEntries(o, r)) }
  function FndaLines(o: Collation, r: Record): seq<string> { Each(FndaRow, FnCounts(o, r)) }
  function DaLines(r: Record): seq<string> { Each(DaRow, LineEntries(r)) }
  function BrdaLines(r: Record): seq<string> { Each(BrdaRow, BranchEntries(r)) }

  function FnSummary(o: Collation, r: Record): seq<string> {
    ["FNF:" + Decimal(|FnEntries(o, r)|), "FNH:" + Decimal(Hits(FnCounts(o, r)))]
  }
  function LineSummary(r: Record): seq<string> {
    ["LF:" + Decimal(|LineEntries(r)|), "LH:" + Decimal(Hits(LineEntries(r)))]
  }
  function BranchSummary(r: Record): seq<string> {
    ["BRF:" + Decimal(|BranchEntries(r)|), "BRH:" + Decimal(Hits(BranchEntries(r)))]
  }

  function FunctionBlock(o: Collation, r: Record): seq<string> { FnLines(o, r) + FndaLines(o, r) + FnSummary(o, r) }
  function LineBlock(r: Record): seq<string> { DaLines(r) + LineSummary(r) }
  function BranchBlock(r: Record): seq<string> { BrdaLines(r) + BranchSummary(r) }

  /** The lines printed for one file. */
  function Section(o: Collation, r: Record): seq<string> {
    [SfRow(r.file)] + (FunctionBlock(o, r) + LineBlock(r) + BranchBlock(r)) + [EndRow()]
  }

  function Sections(o: Collation, entries: Merged): seq<string> {
    if entries == [] then [] else Sections(o, entries[..|entries| - 1]) + Section(o, entries[|entries| - 1].1)
  }

  function PrintLines(o: Collation, merged: Merged): seq<string> {
    Sections(o, Sort(o.ByFile(), merged))
  }

  /** What the script writes for the given input files. */
  function Report(o: Collation, contents: seq<string>): string {
    Join(PrintLines(o, Merge(ParseAll(contents))), '\n')
  }

  method PrintFunctions(o: Collation, r: Record) returns (output: seq<string>)
    ensures output == FunctionBlock(o, r)
  {
    hide Sort, Hits, Decimal;
    output := [];
    var fnEntries, fnCounts := FnEntries(o, r), FnCounts(o, r);
    for i := 0 to |fnEntries|
      invariant output == FnLines(o, r)[..i]
    {
      output := output + ["FN:" + (Decimal(fnEntries[i].1) + "," + fnEntries[i].0)];
    }
    assert output == FnLines(o, r);
    for i := 0 to |fnCounts|
      invariant output == FnLines(o, r) + FndaLines(o, r)[..i]
    {
      output := output + ["FNDA:" + (Decimal(fnCounts[i].1) + "," + fnCounts[i].0)];
    }
    output := output + ["FNF:" + Decimal(|fnEntries|)];
    output := output + ["FNH:" + Decimal(Hits(fnCounts))];
  }

  method PrintLineCounts(r: Record) returns (output: seq<string>)
    ensures output == LineBlock(r)
  {
    hide Sort, Hits, Decimal;
    output := [];
    var lineEntries := LineEntries(r);
    for i := 0 to |lineEntries|
      invariant output == DaLines(r)[..i]
    {
      output := output + ["DA:" + (Decimal(lineEntries[i].0) + "," + Decimal(lineEntries[i].1))];
    }
    output := output + ["LF:" + Decimal(|lineEntries|)];
    output := output + ["LH:" + Decimal(Hits(lineEntries))];
  }

  method PrintBranches(r: Record) returns (output: seq<string>)
    ensures output == BranchBlock(r)
  {
    hide Sort, Hits, Decimal;
    output := [];
    var branchEntries := BranchEntries(r);
    for i := 0 to |branchEntries|
      invariant output == BrdaLines(r)[..i]
    {
      output := output + ["BRDA:" + (Key(branchEntries[i].0) + "," + Decimal(branchEntries[i].1))];
    }
    output := output + ["BRF:" + Decimal(|branchEntries|)];
    output := output + ["BRH:" + Decimal(Hits(branchEntries))];
  }

  method WriteMergedLcov(o: Collation, merged: Merged) returns (text: string)
    ensures text == Join(PrintLines(o, merged), '\n')
  {
    hide Sort, Join, SfRow, EndRow, FunctionBlock, LineBlock, BranchBlock;
    var output: seq<string> := [];
    var files := Sort(o.ByFile(), merged);
    for i := 0 to |files|
      invariant output == Sections(o, files[..i])
    {
      var record := files[i].1;
      var functions := PrintFunctions(o, record);
      var lines := PrintLineCounts(record);
      var branches := PrintBranches(record);
      assert files[..i + 1][..i] == files[..i];
      output := output + ([SfRow(record.file)] + (functions + lines + branches) + [EndRow()]);
    }
    assert files[..|files|] == files;
    text := Join(output, '\n');
  }
}
