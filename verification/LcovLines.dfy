/** What the lines of tracefiles say, line by line: which file a line belongs to, and what it counts or defines there.
    The merged counts of a report are the sums of what its input lines say. */
module LcovLines {
  import opened Wrappers
  import opened Assoc
  import opened LcovText
  import opened Lcov
  import opened LcovCounts
  import LcovRoundTrip
  import opened LcovReport

  // ---- the fields of a line ----

  /** The text before the first comma, or all of it. */
  function Before(t: string): string {
    if t == "" || t[0] == ',' then "" else [t[0]] + Before(t[1..])
  }

  /** The text behind the first comma. */
  function Behind(t: string): string
    requires ',' in t
  {
    if t[0] == ',' then t[1..] else Behind(t[1..])
  }

  /** The i-th of the fields between commas; one that is missing reads "undefined". */
  function Nth(t: string, i: nat): string
    decreases i
  {
    if i == 0 then Before(t) else if ',' in t then Nth(Behind(t), i - 1) else "undefined"
  }

  // ---- what one line says ----

  /** DA:line,hits */
  function LineHits(line: string, n: int): int {
    if StartsWith(line, "DA:") && ParseNumber(Nth(line[3..], 0)) == n then ParseNumber(Nth(line[3..], 1)) else 0
  }

  /** FNDA:hits,name, where the name may hold commas. */
  function FunctionHits(line: string, name: string): int {
    if StartsWith(line, "FNDA:") && name != "" && ',' in line[5..] && Behind(line[5..]) == name
    then ParseNumber(Before(line[5..])) else 0
  }

  /** FN:line,name */
  function Definition(line: string, name: string): Option<int> {
    if StartsWith(line, "FN:") && name != "" && ',' in line[3..] && Behind(line[3..]) == name
    then Some(ParseNumber(Before(line[3..]))) else None
  }

  predicate NamesBranch(line: string, key: string) {
    StartsWith(line, "BRDA:") && key == Nth(line[5..], 0) + "," + Nth(line[5..], 1) + "," + Nth(line[5..], 2)
  }

  /** BRDA:line,block,branch,taken, where a branch that was never reached has a dash and counts nothing. */
  function BranchHits(line: string, key: string): int {
    if NamesBranch(line, key) && Nth(line[5..], 3) != "-" then ParseNumber(Nth(line[5..], 3)) else 0
  }

  // ---- the lines of one tracefile ----

  predicate Closes(line: string) { line == "end_of_record" }

  /** The file that the line behind these belongs to. */
  function OpenFile(lines: seq<string>): Option<string> {
    if lines == [] then None else
    var last := lines[|lines| - 1];
    if StartsWith(last, "SF:") then Some(last[3..])
    else if Closes(last) then None
    else OpenFile(lines[..|lines| - 1])
  }

  /** What the lines of a file count together. */
  function Hits(lines: seq<string>, file: string, hits: string -> int): int {
    if lines == [] then 0 else
    var n := |lines| - 1;
    Hits(lines[..n], file, hits) + if OpenFile(lines[..n]) == Some(file) then hits(lines[n]) else 0
  }

  /** Some line of the file says so. */
  predicate Says(lines: seq<string>, file: string, says: string -> bool) {
    exists i :: 0 <= i < |lines| && OpenFile(lines[..i]) == Some(file) && says(lines[i])
  }

  /** Where the last record begins. */
  function Opening(lines: seq<string>): (n: nat)
    ensures n <= |lines|
  {
    if lines == [] then 0
    else if StartsWith(lines[|lines| - 1], "SF:") then |lines| - 1
    else Opening(lines[..|lines| - 1])
  }

  /** The line a function starts at: what the last definition says in the first record of the file that has one. */
  function DefinedAt(lines: seq<string>, file: string, name: string): Option<int>
    decreases |lines|
  {
    if lines == [] then None else
    var n := |lines| - 1;
    var said := if OpenFile(lines[..n]) == Some(file) then Definition(lines[n], name) else None;
    if said.Some? && DefinedAt(lines[..Opening(lines[..n])], file, name) == None then said
    else DefinedAt(lines[..n], file, name)
  }

  // ---- fields and Split ----

  lemma {:induction false} FirstComma(t: string)
    ensures ',' !in Before(t)
    ensures if ',' in t then t == Before(t) + "," + Behind(t) else Before(t) == t
    decreases |t|
  {
    if t != "" && t[0] != ',' {
      FirstComma(t[1..]);
      assert t == [t[0]] + t[1..];
    } else if t != "" {
      assert t == "" + "," + t[1..];
    }
  }

  lemma SplitAtComma(t: string)
    ensures if ',' in t then Split(t, ',') == [Before(t)] + Split(Behind(t), ',') else Split(t, ',') == [t]
  {
    FirstComma(t);
    if ',' in t { SplitFirst(Before(t), ',', Behind(t)); } else { SplitNone(t, ','); }
  }

  lemma {:induction false} NthIsPart(t: string, i: nat)
    ensures Nth(t, i) == Part(Split(t, ','), i)
    decreases i
  {
    FirstComma(t);
    SplitAtComma(t);
    hide Split, Before, Behind;
    if i > 0 && ',' in t {
      NthIsPart(Behind(t), i - 1);
      assert Split(t, ',')[1..] == Split(Behind(t), ',');
    }
  }

  /** A name is the rest of its line. */
  lemma NameIsRest(t: string)
    ensures var parts := Split(t, ',');
            parts[0] == Before(t) && Join(parts[1..], ',') == if ',' in t then Behind(t) else ""
  {
    FirstComma(t);
    SplitAtComma(t);
    hide Split, Before, Behind;
    var parts := Split(t, ',');
    if ',' in t {
      JoinSplit(Behind(t), ',');
      assert parts[1..] == Split(Behind(t), ',');
    } else {
      assert parts[1..] == [];
    }
  }

  // ---- one line and the open record ----

  /** The record after a line that neither opens nor closes one. */
  function Within(r: Record, line: string): Record {
    r.(lines := if StartsWith(line, "DA:") then FeedDa(r.lines, line[3..]) else r.lines,
       fnDefs := if StartsWith(line, "FN:") then FeedFn(r.fnDefs, line[3..]) else r.fnDefs,
       functions := if StartsWith(line, "FNDA:") then FeedFnda(r.functions, line[5..]) else r.functions,
       branches := if StartsWith(line, "BRDA:") then FeedBrda(r.branches, line[5..]) else r.branches)
  }

  lemma OnePrefix(line: string)
    ensures StartsWith(line, "DA:") ==> line != "" && line[0] == 'D'
    ensures StartsWith(line, "FN:") ==> |line| > 2 && line[0] == 'F' && line[2] == ':'
    ensures StartsWith(line, "FNDA:") ==> |line| > 2 && line[0] == 'F' && line[2] == 'D'
    ensures StartsWith(line, "BRDA:") ==> line != "" && line[0] == 'B'
    ensures StartsWith(line, "SF:") ==> line != "" && line[0] == 'S'
    ensures Closes(line) ==> line[0] == 'e'
  {
    assert StartsWith(line, "DA:") ==> line[0] == line[..3][0];
    assert StartsWith(line, "FN:") ==> line[0] == line[..3][0] && line[2] == line[..3][2];
    assert StartsWith(line, "FNDA:") ==> line[0] == line[..5][0] && line[2] == line[..5][2];
    assert StartsWith(line, "BRDA:") ==> line[0] == line[..5][0];
    assert StartsWith(line, "SF:") ==> line[0] == line[..3][0];
  }

  lemma FeedIsWithin(st: Parsing, line: string)
    requires st.current.Some? && !StartsWith(line, "SF:") && !Closes(line)
    ensures Feed(st, line) == st.(current := Some(Within(st.current.value, line)))
  {
    OnePrefix(line);
    hide StartsWith, FeedDa, FeedFn, FeedFnda, FeedBrda;
  }

  lemma LineWithin(r: Record, line: string, n: int)
    requires RecordSound(r)
    ensures CountOf(Within(r, line).lines, n) == CountOf(r.lines, n) + LineHits(line, n)
  {
    if StartsWith(line, "DA:") {
      var t := line[3..];
      NthIsPart(t, 0);
      NthIsPart(t, 1);
      hide Split, Nth, ParseNumber, Part, CountOf, AddCount, Distinct, Has;
      CountAdded(r.lines, ParseNumber(Nth(t, 0)), ParseNumber(Nth(t, 1)), n);
    }
  }

  lemma FunctionWithin(r: Record, line: string, name: string)
    requires RecordSound(r)
    ensures CountOf(Within(r, line).functions, name) == CountOf(r.functions, name) + FunctionHits(line, name)
  {
    if StartsWith(line, "FNDA:") {
      var t := line[5..];
      NameIsRest(t);
      hide Split, Before, Behind, Join, ParseNumber, CountOf, AddCount, Distinct, Has;
      CountAdded(r.functions, Join(Split(t, ',')[1..], ','), ParseNumber(Before(t)), name);
    }
  }

  lemma BranchWithin(r: Record, line: string, key: string)
    requires RecordSound(r)
    ensures CountOf(Within(r, line).branches, key) == CountOf(r.branches, key) + BranchHits(line, key)
  {
    if StartsWith(line, "BRDA:") {
      var t := line[5..];
      NthIsPart(t, 0);
      NthIsPart(t, 1);
      NthIsPart(t, 2);
      NthIsPart(t, 3);
      hide Split, Nth, ParseNumber, Part, CountOf, AddCount, Distinct, Has;
      CountAdded(r.branches, Nth(t, 0) + "," + Nth(t, 1) + "," + Nth(t, 2),
                 if Nth(t, 3) == "-" then 0 else ParseNumber(Nth(t, 3)), key);
    }
  }

  lemma DefinitionWithin(r: Record, line: string, name: string)
    requires RecordSound(r)
    ensures Lookup(Within(r, line).fnDefs, name)
            == if Definition(line, name).Some? then Definition(line, name) else Lookup(r.fnDefs, name)
  {
    if StartsWith(line, "FN:") {
      var t := line[3..];
      NameIsRest(t);
      hide Split, Before, Behind, Join, ParseNumber, Lookup, Put, Distinct, Has;
      PutDoes(r.fnDefs, Join(Split(t, ',')[1..], ','), ParseNumber(Before(t)));
    }
  }

  // ---- all lines of a tracefile ----

  function AnyName(): string -> bool { (s: string) => true }

  function Done(st: Parsing): seq<Record> {
    if st.current.Some? then st.records + [st.current.value] else st.records
  }

  lemma {:induction false} OpenRecord(lines: seq<string>)
    ensures var current := FeedAll(Start, lines).current;
            OpenFile(lines) == if current.Some? then Some(current.value.file) else None
    decreases |lines|
  {
    if lines != [] {
      var n := |lines| - 1;
      OpenRecord(lines[..n]);
      OnePrefix(lines[n]);
      if FeedAll(Start, lines[..n]).current.Some? && !StartsWith(lines[n], "SF:") && !Closes(lines[n]) {
        FeedIsWithin(FeedAll(Start, lines[..n]), lines[n]);
        hide Feed;
      }
      hide StartsWith, FeedDa, FeedFn, FeedFnda, FeedBrda;
    }
  }

  lemma AlwaysSound(lines: seq<string>)
    ensures ParsingFine(FeedAll(Start, lines), AnyName())
  {
    assert SuffixClosed(AnyName());
    FeedAllKeepsFine(Start, lines, AnyName());
    hide FeedAll;
  }

  /** A count of records that starts at nothing and grows by what each line says. */
  ghost predicate Tallies(count: Record -> int, hits: string -> int) {
    (forall file :: count(EmptyRecord(file)) == 0)
    && (forall r, line :: RecordSound(r) ==> count(Within(r, line)) == count(r) + hits(line))
    && (forall line :: StartsWith(line, "SF:") || Closes(line) ==> hits(line) == 0)
  }

  lemma OneMoreRecord(records: seq<Record>, r: Record, file: string, count: Record -> int)
    ensures SumOver(records + [r], file, count)
            == SumOver(records, file, count) + if r.file == file then count(r) else 0
  {
    assert (records + [r])[..|records|] == records;
  }

  lemma OneLineTallied(st: Parsing, line: string, file: string, count: Record -> int, hits: string -> int)
    requires Tallies(count, hits) && ParsingFine(st, AnyName())
    ensures SumOver(Done(Feed(st, line)), file, count)
            == SumOver(Done(st), file, count)
               + if st.current.Some? && st.current.value.file == file then hits(line) else 0
  {
    hide Within, FeedDa, FeedFn, FeedFnda, FeedBrda, RecordSound, NamesAll;
    OnePrefix(line);
    if StartsWith(line, "SF:") {
      OneMoreRecord(Done(st), EmptyRecord(line[3..]), file, count);
      assert count(EmptyRecord(line[3..])) == 0;
      hide StartsWith;
    } else if st.current.Some? && !Closes(line) {
      FeedIsWithin(st, line);
      hide Feed, StartsWith;
      var r := st.current.value;
      assert Fine(r, AnyName());
      OneMoreRecord(st.records, r, file, count);
      OneMoreRecord(st.records, Within(r, line), file, count);
      assert Within(r, line).file == r.file by { WithinKeepsFile(r, line); }
    }
  }

  lemma WithinKeepsFile(r: Record, line: string)
    ensures Within(r, line).file == r.file
  {
  }

  /** The records of a tracefile count what its lines count. */
  lemma {:induction false} LinesTallied(lines: seq<string>, file: string, count: Record -> int, hits: string -> int)
    requires Tallies(count, hits)
    ensures SumOver(ParseLines(lines), file, count) == Hits(lines, file, hits)
    decreases |lines|
  {
    hide Tallies, Feed;
    if lines != [] {
      var n := |lines| - 1;
      LinesTallied(lines[..n], file, count, hits);
      OpenRecord(lines[..n]);
      AlwaysSound(lines[..n]);
      hide ParsingFine, OpenFile;
      OneLineTallied(FeedAll(Start, lines[..n]), lines[n], file, count, hits);
    }
  }

  // ---- what is mentioned at all ----

  /** A record of the file has it. */
  predicate AnyHas(records: seq<Record>, file: string, has: Record -> bool) {
    exists r :: r in records && r.file == file && has(r)
  }

  ghost predicate Marks(has: Record -> bool, says: string -> bool) {
    (forall file :: !has(EmptyRecord(file)))
    && (forall r, line :: RecordSound(r) ==> (has(Within(r, line)) <==> has(r) || says(line)))
    && (forall line :: StartsWith(line, "SF:") || Closes(line) ==> !says(line))
  }

  lemma OneLineMarked(st: Parsing, line: string, file: string, has: Record -> bool, says: string -> bool)
    requires Marks(has, says) && ParsingFine(st, AnyName())
    ensures AnyHas(Done(Feed(st, line)), file, has)
            <==> AnyHas(Done(st), file, has)
                 || (st.current.Some? && st.current.value.file == file && says(line))
  {
    hide Within, FeedDa, FeedFn, FeedFnda, FeedBrda, RecordSound, NamesAll, AnyHas;
    OnePrefix(line);
    if StartsWith(line, "SF:") {
      LastHas(Done(st), EmptyRecord(line[3..]), file, has);
      assert !has(EmptyRecord(line[3..]));
      hide StartsWith;
    } else if st.current.Some? && !Closes(line) {
      FeedIsWithin(st, line);
      hide Feed, StartsWith;
      var r := st.current.value;
      assert Fine(r, AnyName());
      LastHas(st.records, r, file, has);
      LastHas(st.records, Within(r, line), file, has);
      WithinKeepsFile(r, line);
    }
  }

  lemma LastHas(records: seq<Record>, r: Record, file: string, has: Record -> bool)
    ensures AnyHas(records + [r], file, has) <==> AnyHas(records, file, has) || (r.file == file && has(r))
  {
    if r.file == file && has(r) { assert (records + [r])[|records|] == r; }
  }

  lemma LastSays(lines: seq<string>, file: string, says: string -> bool)
    requires lines != []
    ensures var n := |lines| - 1;
            Says(lines, file, says)
            <==> Says(lines[..n], file, says) || (OpenFile(lines[..n]) == Some(file) && says(lines[n]))
  {
    hide OpenFile;
    var n := |lines| - 1;
    assert forall i :: 0 <= i < n ==> lines[..n][..i] == lines[..i] && lines[..n][i] == lines[i];
    if i :| 0 <= i < |lines| && OpenFile(lines[..i]) == Some(file) && says(lines[i]) {
      if i < n { assert OpenFile(lines[..n][..i]) == Some(file) && says(lines[..n][i]); }
    }
    if i :| 0 <= i < n && OpenFile(lines[..n][..i]) == Some(file) && says(lines[..n][i]) {
      assert OpenFile(lines[..i]) == Some(file) && says(lines[i]);
    }
  }

  lemma {:induction false} LinesMarked(lines: seq<string>, file: string, has: Record -> bool, says: string -> bool)
    requires Marks(has, says)
    ensures AnyHas(ParseLines(lines), file, has) <==> Says(lines, file, says)
    decreases |lines|
  {
    hide Marks, Feed;
    if lines != [] {
      var n := |lines| - 1;
      LinesMarked(lines[..n], file, has, says);
      LastSays(lines, file, says);
      OpenRecord(lines[..n]);
      AlwaysSound(lines[..n]);
      hide ParsingFine, OpenFile, Says, AnyHas;
      OneLineMarked(FeedAll(Start, lines[..n]), lines[n], file, has, says);
    }
  }

  // ---- definitions ----

  /** Before its last record a tracefile held the records before that one. */
  lemma {:induction false} OpeningRecords(lines: seq<string>)
    requires OpenFile(lines).Some?
    ensures Opening(lines) < |lines|
    ensures Done(FeedAll(Start, lines[..Opening(lines)])) == FeedAll(Start, lines).records
    decreases |lines|
  {
    var n := |lines| - 1;
    OpenRecord(lines);
    if StartsWith(lines[n], "SF:") {
      OnePrefix(lines[n]);
    } else {
      OpeningRecords(lines[..n]);
      OpenRecord(lines[..n]);
      assert lines[..n][..Opening(lines[..n])] == lines[..Opening(lines)];
      FeedIsWithin(FeedAll(Start, lines[..n]), lines[n]);
    }
    hide Feed, StartsWith;
  }

  lemma {:induction false} DefinitionsSaid(lines: seq<string>, file: string, name: string)
    ensures FirstDefinition(ParseLines(lines), file, name) == DefinedAt(lines, file, name)
    decreases |lines|
  {
    if lines != [] {
      var n := |lines| - 1;
      var st := FeedAll(Start, lines[..n]);
      DefinitionsSaid(lines[..n], file, name);
      OpenRecord(lines[..n]);
      AlwaysSound(lines[..n]);
      if st.current.Some? {
        OpeningRecords(lines[..n]);
        assert lines[..n][..Opening(lines[..n])] == lines[..Opening(lines[..n])];
        DefinitionsSaid(lines[..Opening(lines[..n])], file, name);
      }
      hide OpenFile, Opening, FeedAll, Definition;
      OneLineDefines(st, lines[n], file, name);
    }
  }

  lemma OneLineDefines(st: Parsing, line: string, file: string, name: string)
    requires ParsingFine(st, AnyName())
    ensures FirstDefinition(Done(Feed(st, line)), file, name)
            == if st.current.Some? && st.current.value.file == file && Definition(line, name).Some?
                  && FirstDefinition(st.records, file, name) == None
               then Definition(line, name) else FirstDefinition(Done(st), file, name)
  {
    hide Within, FeedDa, FeedFn, FeedFnda, FeedBrda, RecordSound, NamesAll, FirstDefinition;
    OnePrefix(line);
    assert StartsWith(line, "SF:") || Closes(line) ==> Definition(line, name) == None;
    if StartsWith(line, "SF:") {
      LastDefines(Done(st), EmptyRecord(line[3..]), file, name);
      hide StartsWith, Definition;
    } else if st.current.Some? && !Closes(line) {
      FeedIsWithin(st, line);
      hide Feed, StartsWith, Definition;
      var r := st.current.value;
      assert Fine(r, AnyName());
      DefinitionWithin(r, line, name);
      LastDefines(st.records, r, file, name);
      LastDefines(st.records, Within(r, line), file, name);
      WithinKeepsFile(r, line);
    }
  }

  lemma LastDefines(records: seq<Record>, r: Record, file: string, name: string)
    ensures var before := FirstDefinition(records, file, name);
            FirstDefinition(records + [r], file, name)
            == if before.Some? then before else if r.file == file then Lookup(r.fnDefs, name) else None
  {
    FirstDefinitionLast(records + [r], file, name);
    assert (records + [r])[..|records|] == records;
    hide FirstDefinition;
  }

  // ---- all input files ----

  function InputHits(contents: seq<string>, file: string, hits: string -> int): int {
    if contents == [] then 0 else
    var n := |contents| - 1;
    InputHits(contents[..n], file, hits) + Hits(SplitLines(contents[n]), file, hits)
  }

  predicate InputSays(contents: seq<string>, file: string, says: string -> bool) {
    exists i :: 0 <= i < |contents| && Says(SplitLines(contents[i]), file, says)
  }

  /** The first tracefile that defines it decides. */
  function InputDefinedAt(contents: seq<string>, file: string, name: string): Option<int> {
    if contents == [] then None else
    var n := |contents| - 1;
    var before := InputDefinedAt(contents[..n], file, name);
    if before.Some? then before else DefinedAt(SplitLines(contents[n]), file, name)
  }

  lemma {:induction false} InputTallied(
      contents: seq<string>, file: string, count: Record -> int, hits: string -> int)
    requires Tallies(count, hits)
    ensures SumOver(ParseAll(contents), file, count) == InputHits(contents, file, hits)
    decreases |contents|
  {
    hide Tallies;
    if contents != [] {
      var n := |contents| - 1;
      InputTallied(contents[..n], file, count, hits);
      LinesTallied(SplitLines(contents[n]), file, count, hits);
      SumOverConcat(ParseAll(contents[..n]), Parse(contents[n]), file, count);
      hide ParseLines, SplitLines, Hits, SumOver;
    }
  }

  lemma LastInputSays(contents: seq<string>, file: string, says: string -> bool)
    requires contents != []
    ensures var n := |contents| - 1;
            InputSays(contents, file, says)
            <==> InputSays(contents[..n], file, says) || Says(SplitLines(contents[n]), file, says)
  {
    hide SplitLines, Says;
    var n := |contents| - 1;
    if InputSays(contents[..n], file, says) {
      var i :| 0 <= i < n && Says(SplitLines(contents[..n][i]), file, says);
      assert Says(SplitLines(contents[i]), file, says);
    }
    if InputSays(contents, file, says) {
      var i :| 0 <= i <= n && Says(SplitLines(contents[i]), file, says);
      if i < n { assert Says(SplitLines(contents[..n][i]), file, says); }
    }
  }

  lemma {:induction false} InputMarked(
      contents: seq<string>, file: string, has: Record -> bool, says: string -> bool)
    requires Marks(has, says)
    ensures AnyHas(ParseAll(contents), file, has) <==> InputSays(contents, file, says)
    decreases |contents|
  {
    hide Marks, ParseLines, SplitLines, Says;
    if contents != [] {
      var n := |contents| - 1;
      InputMarked(contents[..n], file, has, says);
      LastInputSays(contents, file, says);
      LinesMarked(SplitLines(contents[n]), file, has, says);
      ConcatHas(ParseAll(contents[..n]), Parse(contents[n]), file, has);
      hide InputSays, AnyHas;
    }
  }

  lemma ConcatHas(a: seq<Record>, b: seq<Record>, file: string, has: Record -> bool)
    ensures AnyHas(a + b, file, has) <==> AnyHas(a, file, has) || AnyHas(b, file, has)
  {
  }

  lemma {:induction false} InputDefined(contents: seq<string>, file: string, name: string)
    ensures FirstDefinition(ParseAll(contents), file, name) == InputDefinedAt(contents, file, name)
    decreases |contents|
  {
    if contents != [] {
      var n := |contents| - 1;
      InputDefined(contents[..n], file, name);
      DefinitionsSaid(SplitLines(contents[n]), file, name);
      FirstOfTwo(ParseAll(contents[..n]), Parse(contents[n]), file, name);
      hide ParseLines, SplitLines, DefinedAt, FirstDefinition;
    }
  }

  lemma {:induction false} FirstOfTwo(a: seq<Record>, b: seq<Record>, file: string, name: string)
    ensures var first := FirstDefinition(a, file, name);
            FirstDefinition(a + b, file, name) == if first.Some? then first else FirstDefinition(b, file, name)
    decreases |b|
  {
    if b == [] {
      assert a + b == a;
    } else {
      var n := |b| - 1;
      FirstOfTwo(a, b[..n], file, name);
      assert a + b == (a + b[..n]) + [b[n]] && b == b[..n] + [b[n]];
      LastDefines(a + b[..n], b[n], file, name);
      LastDefines(b[..n], b[n], file, name);
      hide FirstDefinition;
    }
  }

  // ---- the four things a record knows ----

  lemma LineTallies(n: int)
    ensures Tallies((r: Record) => CountOf(r.lines, n), (line: string) => LineHits(line, n))
    ensures Marks((r: Record) => Has(r.lines, n), (line: string) => NamesLine(line, n))
  {
    forall r, line | RecordSound(r)
      ensures CountOf(Within(r, line).lines, n) == CountOf(r.lines, n) + LineHits(line, n)
      ensures Has(Within(r, line).lines, n) <==> Has(r.lines, n) || NamesLine(line, n)
    {
      LineWithin(r, line, n);
      LineNamed(r, line, n);
    }
    forall line: string | StartsWith(line, "SF:") || Closes(line)
      ensures LineHits(line, n) == 0 && !NamesLine(line, n)
    {
      OnePrefix(line);
    }
    hide LineHits, NamesLine, Within, RecordSound;
  }

  predicate NamesLine(line: string, n: int) { StartsWith(line, "DA:") && ParseNumber(Nth(line[3..], 0)) == n }

  predicate NamesFunction(line: string, name: string) {
    StartsWith(line, "FNDA:") && name != "" && ',' in line[5..] && Behind(line[5..]) == name
  }

  lemma LineNamed(r: Record, line: string, n: int)
    requires RecordSound(r)
    ensures Has(Within(r, line).lines, n) <==> Has(r.lines, n) || NamesLine(line, n)
  {
    if StartsWith(line, "DA:") {
      var t := line[3..];
      NthIsPart(t, 0);
      NthIsPart(t, 1);
      hide Split, Nth, ParseNumber, Part, AddCount, Distinct, Has;
      AddedKeys(r.lines, ParseNumber(Nth(t, 0)), ParseNumber(Nth(t, 1)));
    }
  }

  lemma FunctionNamed(r: Record, line: string, name: string)
    requires RecordSound(r)
    ensures Has(Within(r, line).functions, name) <==> Has(r.functions, name) || NamesFunction(line, name)
  {
    if StartsWith(line, "FNDA:") {
      var t := line[5..];
      NameIsRest(t);
      hide Split, Before, Behind, Join, ParseNumber, AddCount, Distinct, Has;
      AddedKeys(r.functions, Join(Split(t, ',')[1..], ','), ParseNumber(Before(t)));
    }
  }

  lemma BranchNamed(r: Record, line: string, key: string)
    requires RecordSound(r)
    ensures Has(Within(r, line).branches, key) <==> Has(r.branches, key) || NamesBranch(line, key)
  {
    if StartsWith(line, "BRDA:") {
      var t := line[5..];
      NthIsPart(t, 0);
      NthIsPart(t, 1);
      NthIsPart(t, 2);
      NthIsPart(t, 3);
      hide Split, Nth, ParseNumber, Part, AddCount, Distinct, Has;
      AddedKeys(r.branches, Nth(t, 0) + "," + Nth(t, 1) + "," + Nth(t, 2),
                if Nth(t, 3) == "-" then 0 else ParseNumber(Nth(t, 3)));
    }
  }

  lemma FunctionTallies(name: string)
    ensures Tallies((r: Record) => CountOf(r.functions, name), (line: string) => FunctionHits(line, name))
    ensures Marks((r: Record) => Has(r.functions, name), (line: string) => NamesFunction(line, name))
  {
    forall r, line | RecordSound(r)
      ensures CountOf(Within(r, line).functions, name) == CountOf(r.functions, name) + FunctionHits(line, name)
      ensures Has(Within(r, line).functions, name) <==> Has(r.functions, name) || NamesFunction(line, name)
    {
      FunctionWithin(r, line, name);
      FunctionNamed(r, line, name);
    }
    forall line: string | StartsWith(line, "SF:") || Closes(line)
      ensures FunctionHits(line, name) == 0 && !NamesFunction(line, name)
    {
      OnePrefix(line);
    }
    hide FunctionHits, NamesFunction, Within, RecordSound;
  }

  lemma BranchTallies(key: string)
    ensures Tallies((r: Record) => CountOf(r.branches, key), (line: string) => BranchHits(line, key))
    ensures Marks((r: Record) => Has(r.branches, key), (line: string) => NamesBranch(line, key))
  {
    forall r, line | RecordSound(r)
      ensures CountOf(Within(r, line).branches, key) == CountOf(r.branches, key) + BranchHits(line, key)
      ensures Has(Within(r, line).branches, key) <==> Has(r.branches, key) || NamesBranch(line, key)
    {
      BranchWithin(r, line, key);
      BranchNamed(r, line, key);
    }
    forall line: string | StartsWith(line, "SF:") || Closes(line)
      ensures BranchHits(line, key) == 0 && !NamesBranch(line, key)
    {
      OnePrefix(line);
    }
    hide BranchHits, NamesBranch, Within, RecordSound;
  }

  // ---- the report ----

  /** Every number of the report is told by the lines of its inputs, whatever they look like: each count is the sum of
      what the lines of that file count, and a function starts where its first record says last. */
  lemma ReportTellsLines(contents: seq<string>, file: string, n: int, key: string)
    ensures var merged := Known(MergedFrom(contents), file);
            CountOf(merged.lines, n) == InputHits(contents, file, (line: string) => LineHits(line, n))
            && CountOf(merged.functions, key) == InputHits(contents, file, (line: string) => FunctionHits(line, key))
            && CountOf(merged.branches, key) == InputHits(contents, file, (line: string) => BranchHits(line, key))
            && Lookup(merged.fnDefs, key) == InputDefinedAt(contents, file, key)
  {
    ReportCounts(contents, file, n, key);
    LineTallies(n);
    FunctionTallies(key);
    BranchTallies(key);
    hide Tallies, Marks, CountOf, ParseAll, MergedFrom, InputHits;
    InputTallied(contents, file, (r: Record) => CountOf(r.lines, n), (line: string) => LineHits(line, n));
    InputTallied(contents, file, (r: Record) => CountOf(r.functions, key), (line: string) => FunctionHits(line, key));
    InputTallied(contents, file, (r: Record) => CountOf(r.branches, key), (line: string) => BranchHits(line, key));
    InputDefined(contents, file, key);
  }

  lemma AbsorbHas(existing: Record, r: Record)
    requires RecordSound(existing) && RecordSound(r)
    ensures forall k :: Has(Absorb(existing, r).lines, k) <==> Has(existing.lines, k) || Has(r.lines, k)
    ensures forall k :: Has(Absorb(existing, r).functions, k) <==> Has(existing.functions, k) || Has(r.functions, k)
    ensures forall k :: Has(Absorb(existing, r).branches, k) <==> Has(existing.branches, k) || Has(r.branches, k)
  {
    AddAllKeys(existing.lines, r.lines);
    AddAllKeys(existing.functions, r.functions);
    AddAllKeys(existing.branches, r.branches);
    hide Has, AddAll, PutMissing, Distinct, Split;
  }

  lemma FineIsSound(r: Record)
    requires Fine(r, AnyName())
    ensures RecordSound(r)
  {
  }

  /** The merge of two records has what one of them has. */
  ghost predicate Unites(has: Record -> bool) {
    (forall file :: !has(EmptyRecord(file)))
    && forall e, r :: RecordSound(e) && RecordSound(r) ==> (has(Absorb(e, r)) <==> has(e) || has(r))
  }

  lemma AllUnite(n: int, key: string)
    ensures Unites((r: Record) => Has(r.lines, n))
    ensures Unites((r: Record) => Has(r.functions, key))
    ensures Unites((r: Record) => Has(r.branches, key))
  {
    forall e, r | RecordSound(e) && RecordSound(r)
      ensures Has(Absorb(e, r).lines, n) <==> Has(e.lines, n) || Has(r.lines, n)
      ensures Has(Absorb(e, r).functions, key) <==> Has(e.functions, key) || Has(r.functions, key)
      ensures Has(Absorb(e, r).branches, key) <==> Has(e.branches, key) || Has(r.branches, key)
    {
      AbsorbHas(e, r);
    }
    hide RecordSound, Absorb;
  }

  lemma {:induction false} MergedHas(records: seq<Record>, file: string, has: Record -> bool)
    requires AllFine(records, AnyName()) && Unites(has)
    ensures has(Known(Merge(records), file)) <==> AnyHas(records, file, has)
    decreases |records|
  {
    if records != [] {
      hide Fine, Absorb, Known, Merge, MergedFine, AnyHas;
      var m := |records| - 1;
      var r := records[m];
      MergedHas(records[..m], file, has);
      MergeStep(records, file, AnyName());
      MergeFine(records[..m], AnyName());
      KnownFine(Merge(records[..m]), file, AnyName());
      assert Fine(r, AnyName());
      FineIsSound(r);
      FineIsSound(Known(Merge(records[..m]), file));
      assert records == records[..m] + [r];
      LastHas(records[..m], r, file, has);
    }
  }

  /** And it lists exactly the lines, functions and branches that those lines name. */
  lemma ReportListsWhatIsNamed(contents: seq<string>, file: string, n: int, key: string)
    ensures var merged := Known(MergedFrom(contents), file);
            (Has(merged.lines, n) <==> InputSays(contents, file, (line: string) => NamesLine(line, n)))
            && (Has(merged.functions, key) <==> InputSays(contents, file, (line: string) => NamesFunction(line, key)))
            && (Has(merged.branches, key) <==> InputSays(contents, file, (line: string) => NamesBranch(line, key)))
  {
    ParseAllFine(contents);
    forall r | r in ParseAll(contents) ensures Fine(r, AnyName()) { assert Fine(r, NoLf()); }
    LineTallies(n);
    FunctionTallies(key);
    BranchTallies(key);
    hide Tallies, Marks, Has, ParseAll, InputSays, Fine, AnyHas, Known, Merge;
    AllUnite(n, key);
    hide Unites;
    MergedHas(ParseAll(contents), file, (r: Record) => Has(r.lines, n));
    MergedHas(ParseAll(contents), file, (r: Record) => Has(r.functions, key));
    MergedHas(ParseAll(contents), file, (r: Record) => Has(r.branches, key));
    InputMarked(contents, file, (r: Record) => Has(r.lines, n), (line: string) => NamesLine(line, n));
    InputMarked(contents, file, (r: Record) => Has(r.functions, key), (line: string) => NamesFunction(line, key));
    InputMarked(contents, file, (r: Record) => Has(r.branches, key), (line: string) => NamesBranch(line, key));
  }

  // ---- which files there are ----

  predicate Opens(line: string, file: string) { StartsWith(line, "SF:") && line[3..] == file }

  predicate Opened(lines: seq<string>, file: string) {
    exists i :: 0 <= i < |lines| && Opens(lines[i], file)
  }

  lemma OneLineOpens(st: Parsing, line: string, file: string)
    ensures Listed(Done(Feed(st, line)), file) <==> Listed(Done(st), file) || Opens(line, file)
  {
    hide Within, FeedDa, FeedFn, FeedFnda, FeedBrda, Listed;
    OnePrefix(line);
    if StartsWith(line, "SF:") {
      LastListed(Done(st), EmptyRecord(line[3..]), file);
      hide StartsWith;
    } else if st.current.Some? && !Closes(line) {
      FeedIsWithin(st, line);
      hide Feed, StartsWith;
      LastListed(st.records, st.current.value, file);
      LastListed(st.records, Within(st.current.value, line), file);
      WithinKeepsFile(st.current.value, line);
    }
  }

  predicate Listed(records: seq<Record>, file: string) { exists r :: r in records && r.file == file }

  lemma LastListed(records: seq<Record>, r: Record, file: string)
    ensures Listed(records + [r], file) <==> Listed(records, file) || r.file == file
  {
    assert (records + [r])[|records|] == r;
  }

  lemma {:induction false} LinesOpen(lines: seq<string>, file: string)
    ensures Listed(ParseLines(lines), file) <==> Opened(lines, file)
    decreases |lines|
  {
    hide Feed, Listed, Opens;
    if lines != [] {
      var n := |lines| - 1;
      LinesOpen(lines[..n], file);
      OneLineOpens(FeedAll(Start, lines[..n]), lines[n], file);
      assert Opened(lines, file) <==> Opened(lines[..n], file) || Opens(lines[n], file) by {
        if i :| 0 <= i < n && Opens(lines[i], file) { assert Opens(lines[..n][i], file); }
      }
    } else {
      assert !Listed([], file) by { NothingListed(file); }
    }
  }

  lemma NothingListed(file: string)
    ensures !Listed([], file)
  {
  }

  lemma {:induction false} InputsOpen(contents: seq<string>, file: string)
    ensures Listed(ParseAll(contents), file)
            <==> exists i :: 0 <= i < |contents| && Opened(SplitLines(contents[i]), file)
    decreases |contents|
  {
    hide ParseLines, SplitLines, Opened;
    if contents != [] {
      var n := |contents| - 1;
      InputsOpen(contents[..n], file);
      LinesOpen(SplitLines(contents[n]), file);
      if i :| 0 <= i < n && Opened(SplitLines(contents[i]), file) {
        assert Opened(SplitLines(contents[..n][i]), file);
      }
    }
  }

  lemma PutHas(m: Merged, key: string, r: Record, k: string)
    requires MergedFine(m, AnyName())
    ensures Has(Put(m, key, r), k) <==> Has(m, k) || k == key
  {
    PutDoes(m, key, r);
    hide Put, Has, Lookup, Fine;
  }

  lemma {:induction false} MergedLists(records: seq<Record>, file: string)
    requires AllFine(records, AnyName())
    ensures Has(Merge(records), file) <==> Listed(records, file)
    decreases |records|
  {
    if records != [] {
      hide Has, Put, Fine, Absorb, Known, Listed;
      var n := |records| - 1;
      var r, before := records[n], Merge(records[..n]);
      MergedLists(records[..n], file);
      MergeFine(records[..n], AnyName());
      PutHas(before, r.file, Absorb(Known(before, r.file), r), file);
      assert records == records[..n] + [r];
      LastListed(records[..n], r, file);
    } else {
      NothingListed(file);
    }
  }

  /** The report has a section for exactly the files that some line opens. */
  lemma ReportListsFiles(contents: seq<string>, file: string)
    ensures Has(MergedFrom(contents), file)
            <==> exists i :: 0 <= i < |contents| && Opened(SplitLines(contents[i]), file)
  {
    ParseAllFine(contents);
    forall r | r in ParseAll(contents) ensures Fine(r, AnyName()) { assert Fine(r, NoLf()); }
    hide ParseAll, Merge, Has, Opened, Listed, Fine;
    MergedLists(ParseAll(contents), file);
    InputsOpen(contents, file);
  }

  // ---- lines as tools write them ----

  predicate NoComma(s: string) { ',' !in s }

  lemma {:induction false} CommaParts(a: string, t: string)
    requires NoComma(a)
    ensures Before(a + "," + t) == a && ',' in a + "," + t && Behind(a + "," + t) == t
    ensures Before(a) == a
    decreases |a|
  {
    var s := a + "," + t;
    assert s[|a|] == ',';
    if a == "" {
      assert s[1..] == t;
    } else {
      CommaParts(a[1..], t);
      assert s[1..] == a[1..] + "," + t && a == [a[0]] + a[1..];
    }
  }

  /** A branch of three fields: the dash counts nothing, a number counts itself, and the branch is listed either way. */
  lemma BranchLine(a: string, b: string, c: string, n: int, key: string)
    requires NoComma(a) && NoComma(b) && NoComma(c)
    ensures var start := "BRDA:" + (a + "," + (b + "," + (c + ",")));
            (NamesBranch(start + "-", key) <==> key == a + "," + b + "," + c)
            && (NamesBranch(start + Decimal(n), key) <==> key == a + "," + b + "," + c)
            && BranchHits(start + "-", key) == 0
            && BranchHits(start + Decimal(n), key) == if key == a + "," + b + "," + c then n else 0
  {
    BranchFields(a, b, c, "-", key);
    BranchFields(a, b, c, Decimal(n), key);
    DecimalChars(n);
    NumberRoundTrip(n);
    LcovRoundTrip.DecimalNotDash(n);
    hide Decimal, NamesBranch, ParseNumber, Nth;
  }

  lemma BranchFields(a: string, b: string, c: string, taken: string, key: string)
    requires NoComma(a) && NoComma(b) && NoComma(c) && NoComma(taken)
    ensures var line := "BRDA:" + (a + "," + (b + "," + (c + ","))) + taken;
            |line| >= 5 && Nth(line[5..], 3) == taken && (NamesBranch(line, key) <==> key == a + "," + b + "," + c)
  {
    var line := "BRDA:" + (a + "," + (b + "," + (c + ","))) + taken;
    var t := a + "," + (b + "," + (c + "," + taken));
    assert line == "BRDA:" + t && line[..5] == "BRDA:" && line[5..] == t;
    CommaParts(a, b + "," + (c + "," + taken));
    CommaParts(b, c + "," + taken);
    CommaParts(c, taken);
    CommaParts(taken, "");
    hide Before, Behind, NoComma;
    assert Nth(t, 0) == a && Nth(t, 1) == b && Nth(t, 2) == c;
  }

  lemma DataLine(m: int, n: int, k: int)
    ensures var line := "DA:" + (Decimal(m) + "," + Decimal(n));
            (NamesLine(line, k) <==> k == m) && LineHits(line, k) == if k == m then n else 0
  {
    var t := Decimal(m) + "," + Decimal(n);
    var line := "DA:" + t;
    assert line[..3] == "DA:" && line[3..] == t;
    DecimalChars(m);
    DecimalChars(n);
    NumberRoundTrip(m);
    NumberRoundTrip(n);
    CommaParts(Decimal(m), Decimal(n));
    CommaParts(Decimal(n), "");
    hide Decimal, ParseNumber, Before, Behind;
  }

  /** A function's name is all that follows the first comma. */
  lemma FunctionLines(n: int, name: string, other: string)
    requires name != ""
    ensures var hits, start := "FNDA:" + (Decimal(n) + "," + name), "FN:" + (Decimal(n) + "," + name);
            (NamesFunction(hits, other) <==> other == name)
            && FunctionHits(hits, other) == (if other == name then n else 0)
            && Definition(start, other) == if other == name then Some(n) else None
  {
    var t := Decimal(n) + "," + name;
    var hits, start := "FNDA:" + t, "FN:" + t;
    assert hits[..5] == "FNDA:" && hits[5..] == t && start[..3] == "FN:" && start[3..] == t;
    DecimalChars(n);
    NumberRoundTrip(n);
    CommaParts(Decimal(n), name);
    hide Decimal, ParseNumber, Before, Behind;
  }
}
