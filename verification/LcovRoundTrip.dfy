/** Parsing a printed report, merging it and printing it again. */
module LcovRoundTrip {
  import opened Wrappers
  import opened Assoc
  import opened LcovText
  import opened Lcov
  import opened LcovCounts

  // ---- what the parser makes of each printed line ----

  lemma FeedFnLine(r: Record, rest: string, records: seq<Record>)
    ensures Feed(Parsing(records, Some(r)), "FN:" + rest) ==
            Parsing(records, Some(r.(fnDefs := FeedFn(r.fnDefs, rest))))
  {
    hide FeedFn, FeedFnda, FeedDa, FeedBrda;
    var line := "FN:" + rest;
    assert line[..3] == "FN:" && line[3..] == rest && line[0] == 'F';
  }

  lemma FeedFndaLine(r: Record, rest: string, records: seq<Record>)
    ensures Feed(Parsing(records, Some(r)), "FNDA:" + rest) ==
            Parsing(records, Some(r.(functions := FeedFnda(r.functions, rest))))
  {
    hide FeedFn, FeedFnda, FeedDa, FeedBrda;
    var line := "FNDA:" + rest;
    assert line[..5] == "FNDA:" && line[5..] == rest && line[0] == 'F' && line[2] == 'D';
  }

  lemma FeedDaLine(r: Record, rest: string, records: seq<Record>)
    ensures Feed(Parsing(records, Some(r)), "DA:" + rest) == Parsing(records, Some(r.(lines := FeedDa(r.lines, rest))))
  {
    hide FeedFn, FeedFnda, FeedDa, FeedBrda;
    var line := "DA:" + rest;
    assert line[..3] == "DA:" && line[3..] == rest && line[0] == 'D';
  }

  lemma FeedBrdaLine(r: Record, rest: string, records: seq<Record>)
    ensures Feed(Parsing(records, Some(r)), "BRDA:" + rest) ==
            Parsing(records, Some(r.(branches := FeedBrda(r.branches, rest))))
  {
    hide FeedFn, FeedFnda, FeedDa, FeedBrda;
    var line := "BRDA:" + rest;
    assert line[..5] == "BRDA:" && line[5..] == rest && line[0] == 'B';
  }

  lemma FeedFnRow(r: Record, e: (string, int), records: seq<Record>)
    requires e.0 != ""
    ensures Feed(Parsing(records, Some(r)), FnRow(e)) == Parsing(records, Some(r.(fnDefs := Put(r.fnDefs, e.0, e.1))))
  {
    FeedFnLine(r, Decimal(e.1) + "," + e.0, records);
    DecimalChars(e.1);
    NumberRoundTrip(e.1);
    TwoFields(Decimal(e.1), e.0);
    hide Feed, Decimal, Split, Join, ParseNumber, Put;
  }

  lemma FeedFndaRow(r: Record, e: (string, int), records: seq<Record>)
    requires e.0 != ""
    ensures Feed(Parsing(records, Some(r)), FndaRow(e)) ==
            Parsing(records, Some(r.(functions := AddCount(r.functions, e.0, e.1))))
  {
    FeedFndaLine(r, Decimal(e.1) + "," + e.0, records);
    DecimalChars(e.1);
    NumberRoundTrip(e.1);
    TwoFields(Decimal(e.1), e.0);
    hide Feed, Decimal, Split, Join, ParseNumber, AddCount;
  }

  lemma FeedDaRow(r: Record, e: (int, int), records: seq<Record>)
    ensures Feed(Parsing(records, Some(r)), DaRow(e)) ==
            Parsing(records, Some(r.(lines := AddCount(r.lines, e.0, e.1))))
  {
    var rest := Decimal(e.0) + "," + Decimal(e.1);
    FeedDaLine(r, rest, records);
    DecimalChars(e.0);
    DecimalChars(e.1);
    NumberRoundTrip(e.0);
    NumberRoundTrip(e.1);
    TwoFields(Decimal(e.0), Decimal(e.1));
    SplitNone(Decimal(e.1), ',');
    var parts := Split(rest, ',');
    assert parts[1..] == [Decimal(e.1)];
    assert parts[1] == parts[1..][0];
    hide Feed, Decimal, Split, Join, ParseNumber, AddCount;
  }

  lemma KeyFields(t: Triple, tail: string)
    requires ',' !in tail
    ensures Split(Key(t) + "," + tail, ',') == [Decimal(t.0), Decimal(t.1), Decimal(t.2), tail]
    ensures Split(Key(t), ',') == [Decimal(t.0), Decimal(t.1), Decimal(t.2)]
  {
    var a, b, c := Decimal(t.0), Decimal(t.1), Decimal(t.2);
    DecimalChars(t.0);
    DecimalChars(t.1);
    DecimalChars(t.2);
    hide Decimal, Split;
    assert Key(t) == a + "," + (b + "," + c);
    SplitFirst(a, ',', b + "," + c);
    SplitFirst(b, ',', c);
    SplitNone(c, ',');
    assert Key(t) + "," + tail == a + "," + (b + "," + (c + "," + tail));
    SplitFirst(a, ',', b + "," + (c + "," + tail));
    SplitFirst(b, ',', c + "," + tail);
    SplitFirst(c, ',', tail);
    SplitNone(tail, ',');
  }

  /** Keys in canonical decimals are read back. */
  lemma KeyRoundTrip(t: Triple)
    ensures TripleOf(Key(t)) == t && |Split(Key(t), ',')| == 3
  {
    KeyFields(t, "");
    NumberRoundTrip(t.0);
    NumberRoundTrip(t.1);
    NumberRoundTrip(t.2);
    hide Decimal, Split, ParseNumber, Key;
  }

  lemma DecimalNotDash(n: int)
    ensures Decimal(n) != "-"
  {
    NumberRoundTrip(n);
  }

  lemma FeedBrdaRow(r: Record, e: (Triple, int), records: seq<Record>)
    ensures Feed(Parsing(records, Some(r)), BrdaRow(e)) ==
            Parsing(records, Some(r.(branches := AddCount(r.branches, Key(e.0), e.1))))
  {
    FeedBrdaLine(r, Key(e.0) + "," + Decimal(e.1), records);
    DecimalChars(e.1);
    KeyFields(e.0, Decimal(e.1));
    NumberRoundTrip(e.1);
    DecimalNotDash(e.1);
    hide Feed, Decimal, Split, ParseNumber, AddCount, Key;
  }

  /** No line the parser knows begins like this. */
  predicate Ignored(line: string) {
    |line| > 2 && (line[0] == 'L' || (line[0] in "FB" && line[2] in "FH"))
  }

  lemma FeedIgnored(st: Parsing, line: string)
    requires Ignored(line)
    ensures Feed(st, line) == st
  {
    StartLetters(line);
    assert "end_of_record"[0] == 'e';
    hide StartsWith;
  }

  lemma StartLetters(line: string)
    requires |line| > 2
    ensures StartsWith(line, "SF:") ==> line[0] == 'S'
    ensures StartsWith(line, "DA:") ==> line[0] == 'D'
    ensures StartsWith(line, "FN:") ==> line[2] == ':'
    ensures StartsWith(line, "FNDA:") || StartsWith(line, "BRDA:") ==> line[2] == 'D'
  {
    assert StartsWith(line, "FN:") ==> line[2] == line[..3][2];
    assert StartsWith(line, "FNDA:") ==> line[2] == line[..5][2];
    assert StartsWith(line, "BRDA:") ==> line[2] == line[..5][2];
    assert StartsWith(line, "SF:") ==> line[0] == line[..3][0];
    assert StartsWith(line, "DA:") ==> line[0] == line[..3][0];
  }

  // ---- blocks ----

  lemma {:induction false} FeedConcat(st: Parsing, a: seq<string>, b: seq<string>)
    ensures FeedAll(st, a + b) == FeedAll(FeedAll(st, a), b)
    decreases |b|
  {
    if b == [] {
      assert a + b == a;
    } else {
      var n := |b| - 1;
      FeedConcat(st, a, b[..n]);
      assert (a + b)[..|a| + n] == a + b[..n];
      hide Feed;
    }
  }

  lemma FeedOne(st: Parsing, line: string)
    ensures FeedAll(st, [line]) == Feed(st, line)
  {
    assert FeedAll(st, [line][..0]) == st;
    hide Feed;
  }

  lemma FeedTwoIgnored(st: Parsing, a: string, b: string)
    requires Ignored(a) && Ignored(b)
    ensures FeedAll(st, [a, b]) == st
  {
    assert [a, b] == [a] + [b];
    FeedConcat(st, [a], [b]);
    FeedOne(st, a);
    FeedOne(st, b);
    FeedIgnored(st, a);
    FeedIgnored(st, b);
    hide Feed, FeedAll, Ignored;
  }

  ghost predicate Named(entries: Assoc<string, int>) {
    forall i :: 0 <= i < |entries| ==> entries[i].0 != ""
  }

  lemma {:induction false} FeedFnRows(r: Record, entries: Assoc<string, int>, records: seq<Record>)
    requires Named(entries)
    ensures FeedAll(Parsing(records, Some(r)), Each(FnRow, entries)) ==
            Parsing(records, Some(r.(fnDefs := PutAll(r.fnDefs, entries))))
    decreases |entries|
  {
    if entries != [] {
      var n := |entries| - 1;
      FeedFnRows(r, entries[..n], records);
      assert Each(FnRow, entries)[..n] == Each(FnRow, entries[..n]);
      FeedFnRow(r.(fnDefs := PutAll(r.fnDefs, entries[..n])), entries[n], records);
      hide Feed, FnRow, Put;
    }
  }

  lemma {:induction false} FeedFndaRows(r: Record, entries: Assoc<string, int>, records: seq<Record>)
    requires Named(entries)
    ensures FeedAll(Parsing(records, Some(r)), Each(FndaRow, entries)) ==
            Parsing(records, Some(r.(functions := AddAll(r.functions, entries))))
    decreases |entries|
  {
    if entries != [] {
      var n := |entries| - 1;
      FeedFndaRows(r, entries[..n], records);
      assert Each(FndaRow, entries)[..n] == Each(FndaRow, entries[..n]);
      FeedFndaRow(r.(functions := AddAll(r.functions, entries[..n])), entries[n], records);
      hide Feed, FndaRow, AddCount;
    }
  }

  lemma {:induction false} FeedDaRows(r: Record, entries: Assoc<int, int>, records: seq<Record>)
    ensures FeedAll(Parsing(records, Some(r)), Each(DaRow, entries)) ==
            Parsing(records, Some(r.(lines := AddAll(r.lines, entries))))
    decreases |entries|
  {
    if entries != [] {
      var n := |entries| - 1;
      FeedDaRows(r, entries[..n], records);
      assert Each(DaRow, entries)[..n] == Each(DaRow, entries[..n]);
      FeedDaRow(r.(lines := AddAll(r.lines, entries[..n])), entries[n], records);
      hide Feed, DaRow, AddCount;
    }
  }

  function Keyed(entries: Assoc<Triple, int>): Assoc<string, int> {
    Each((e: (Triple, int)) => (Key(e.0), e.1), entries)
  }

  lemma {:induction false} FeedBrdaRows(r: Record, entries: Assoc<Triple, int>, records: seq<Record>)
    ensures FeedAll(Parsing(records, Some(r)), Each(BrdaRow, entries)) ==
            Parsing(records, Some(r.(branches := AddAll(r.branches, Keyed(entries)))))
    decreases |entries|
  {
    if entries != [] {
      var n := |entries| - 1;
      FeedBrdaRows(r, entries[..n], records);
      assert Each(BrdaRow, entries)[..n] == Each(BrdaRow, entries[..n]);
      assert Keyed(entries)[..n] == Keyed(entries[..n]);
      FeedBrdaRow(r.(branches := AddAll(r.branches, Keyed(entries[..n]))), entries[n], records);
      hide Feed, BrdaRow, AddCount, Key;
    }
  }

  // ---- a whole section ----

  /** The record that the printed section of `r` is parsed into. */
  function Reread(o: Collation, r: Record): Record {
    Record(r.file, LineEntries(r), AddAll([], Keyed(BranchEntries(r))), FnCounts(o, r), FnEntries(o, r))
  }

  lemma FnEntriesSound(o: Collation, r: Record)
    requires RecordSound(r)
    ensures Distinct(FnEntries(o, r)) && Named(FnEntries(o, r)) && !Has(FnEntries(o, r), "")
    ensures forall name :: Has(FnEntries(o, r), name) <==> Has(r.functions, name) || Has(r.fnDefs, name)
  {
    var names := FunctionNames(r);
    var rows := Each((name: string) => (name, CountOf(r.fnDefs, name)), names);
    var entries := FnEntries(o, r);
    FunctionNamesSound(r);
    assert Distinct(rows);
    SortedMap(o.ByLine(), rows);
    SortDoes(o.ByLine(), rows);
    hide Sort, CountOf;
    forall name ensures Has(entries, name) <==> name in names {
      if Has(entries, name) {
        var i :| 0 <= i < |entries| && entries[i].0 == name;
        assert entries[i] in entries;
        assert entries[i] in rows;
      }
      if name in names {
        var i :| 0 <= i < |names| && names[i] == name;
        assert rows[i] in rows;
        assert rows[i] in entries;
      }
    }
    forall i | 0 <= i < |entries| ensures entries[i].0 != "" {
      assert Has(entries, entries[i].0);
    }
  }

  lemma FunctionNamesSound(r: Record)
    requires RecordSound(r)
    ensures NoRepeats(FunctionNames(r))
    ensures forall name :: name in FunctionNames(r) <==> Has(r.functions, name) || Has(r.fnDefs, name)
  {
    UndefinedDoes(r.functions, r.fnDefs);
    var names := FunctionNames(r);
    var keys, more := Keys(r.fnDefs), Undefined(r.functions, r.fnDefs);
    assert forall name :: name in keys <==> Has(r.fnDefs, name) by {
      forall name ensures name in keys <==> Has(r.fnDefs, name) {
        if Has(r.fnDefs, name) {
          var i :| 0 <= i < |r.fnDefs| && r.fnDefs[i].0 == name;
          assert keys[i] == name;
        }
      }
    }
    forall i, j | 0 <= i < j < |names| ensures names[i] != names[j] {
      if j >= |keys| {
        assert names[j] in more;
        if i < |keys| { assert names[i] in keys; }
      }
    }
  }

  lemma {:induction false} UndefinedDoes(functions: Assoc<string, int>, fnDefs: Assoc<string, int>)
    requires Distinct(functions)
    ensures NoRepeats(Undefined(functions, fnDefs))
    ensures forall name :: name in Undefined(functions, fnDefs) <==> Has(functions, name) && !Has(fnDefs, name)
    decreases |functions|
  {
    if functions != [] {
      var rest := functions[1..];
      assert forall i :: 0 <= i < |rest| ==> rest[i] == functions[i + 1];
      UndefinedDoes(rest, fnDefs);
      assert !Has(rest, functions[0].0);
      forall name ensures Has(functions, name) <==> Has(rest, name) || name == functions[0].0 {
        if Has(functions, name) {
          var i :| 0 <= i < |functions| && functions[i].0 == name;
          if i > 0 { assert rest[i - 1].0 == name; }
        }
      }
    }
  }

  lemma FnCountsSound(o: Collation, r: Record)
    requires RecordSound(r)
    ensures Distinct(FnCounts(o, r)) && Named(FnCounts(o, r)) && !Has(FnCounts(o, r), "")
    ensures forall name :: Has(FnCounts(o, r), name) <==> Has(r.functions, name)
  {
    SortedMap(o.ByName(), r.functions);
    var entries := FnCounts(o, r);
    forall name ensures Has(entries, name) <==> Has(r.functions, name) {
      assert Lookup(entries, name).Some? <==> Has(entries, name);
      assert Lookup(r.functions, name).Some? <==> Has(r.functions, name);
    }
    hide Sort, Lookup;
    forall i | 0 <= i < |entries| ensures entries[i].0 != "" {
      assert Has(entries, entries[i].0);
    }
  }

  lemma FeedStart(file: string, records: seq<Record>)
    ensures FeedAll(Parsing(records, None), [SfRow(file)]) == Parsing(records, Some(EmptyRecord(file)))
  {
    var line := SfRow(file);
    assert line[..3] == "SF:" && line[3..] == file;
    FeedOne(Parsing(records, None), line);
    hide FeedAll;
  }

  lemma FeedEnd(r: Record, records: seq<Record>)
    ensures FeedAll(Parsing(records, Some(r)), [EndRow()]) == Parsing(records + [r], None)
  {
    hide FeedAll, FeedFn, FeedFnda, FeedDa, FeedBrda;
    var line := EndRow();
    assert line[0] == 'e';
    FeedOne(Parsing(records, Some(r)), line);
  }

  lemma FeedSection(o: Collation, r: Record, records: seq<Record>)
    requires RecordSound(r)
    ensures FeedAll(Parsing(records, None), Section(o, r)) == Parsing(records + [Reread(o, r)], None)
  {
    FeedStart(r.file, records);
    FeedEnd(Reread(o, r), records);
    FeedBlocks(o, r, records);
    hide SfRow, EndRow, EmptyRecord, RecordSound, FeedAll, Reread, FunctionBlock, LineBlock, BranchBlock;
    FeedThree(Parsing(records, None), [SfRow(r.file)], FunctionBlock(o, r) + LineBlock(r) + BranchBlock(r), [EndRow()]);
  }

  lemma FeedThree(st: Parsing, a: seq<string>, b: seq<string>, c: seq<string>)
    ensures FeedAll(st, a + b + c) == FeedAll(FeedAll(FeedAll(st, a), b), c)
  {
    FeedConcat(st, a, b);
    FeedConcat(st, a + b, c);
    hide FeedAll;
  }

  lemma FeedBlocks(o: Collation, r: Record, records: seq<Record>)
    requires RecordSound(r)
    ensures FeedAll(Parsing(records, Some(EmptyRecord(r.file))), FunctionBlock(o, r) + LineBlock(r) + BranchBlock(r))
            == Parsing(records, Some(Reread(o, r)))
  {
    var r0 := EmptyRecord(r.file);
    var r1 := r0.(fnDefs := FnEntries(o, r), functions := FnCounts(o, r));
    var r2 := r1.(lines := LineEntries(r));
    FeedFunctions(o, r, r0, records);
    FeedLines(r, r1, records);
    FeedBranches(r, r2, records);
    hide FeedAll, FunctionBlock, LineBlock, BranchBlock;
    FeedThree(Parsing(records, Some(r0)), FunctionBlock(o, r), LineBlock(r), BranchBlock(r));
  }

  lemma FeedFnSummary(o: Collation, r: Record, st: Parsing)
    ensures FeedAll(st, FnSummary(o, r)) == st
  {
    hide FeedAll, FnEntries, FnCounts, Decimal, Hits;
    var x, y := "FNF:" + Decimal(|FnEntries(o, r)|), "FNH:" + Decimal(Hits(FnCounts(o, r)));
    FeedTwoIgnored(st, x, y);
  }

  lemma FeedFunctions(o: Collation, r: Record, r0: Record, records: seq<Record>)
    requires RecordSound(r) && r0.fnDefs == [] && r0.functions == []
    ensures FeedAll(Parsing(records, Some(r0)), FunctionBlock(o, r)) ==
            Parsing(records, Some(r0.(fnDefs := FnEntries(o, r), functions := FnCounts(o, r))))
  {
    var st := Parsing(records, Some(r0));
    var r1 := r0.(fnDefs := FnEntries(o, r));
    FnEntriesSound(o, r);
    FnCountsSound(o, r);
    FeedFnRows(r0, FnEntries(o, r), records);
    FeedFndaRows(r1, FnCounts(o, r), records);
    Rebuilt(FnEntries(o, r));
    AddedUp(FnCounts(o, r));
    var a, b := FnLines(o, r), FndaLines(o, r);
    FeedThree(st, a, b, FnSummary(o, r));
    FeedFnSummary(o, r, Parsing(records, Some(r1.(functions := FnCounts(o, r)))));
    hide FeedAll, FnSummary, FnEntries, FnCounts, Decimal, Hits, Ignored, AddAll, PutAll;
  }

  lemma FeedLines(r: Record, r0: Record, records: seq<Record>)
    requires RecordSound(r) && r0.lines == []
    ensures FeedAll(Parsing(records, Some(r0)), LineBlock(r)) ==
            Parsing(records, Some(r0.(lines := LineEntries(r))))
  {
    SortedMap(ByLineNo(), r.lines);
    FeedDaRows(r0, LineEntries(r), records);
    AddedUp(LineEntries(r));
    FeedConcat(Parsing(records, Some(r0)), DaLines(r), LineSummary(r));
    var x, y := "LF:" + Decimal(|LineEntries(r)|), "LH:" + Decimal(Hits(LineEntries(r)));
    FeedTwoIgnored(Parsing(records, Some(r0.(lines := LineEntries(r)))), x, y);
    hide FeedAll, Sort, Decimal, Hits, Ignored, AddAll;
  }

  lemma FeedBranchSummary(r: Record, st: Parsing)
    ensures FeedAll(st, BranchSummary(r)) == st
  {
    hide FeedAll, BranchEntries, Decimal, Hits;
    var x, y := "BRF:" + Decimal(|BranchEntries(r)|), "BRH:" + Decimal(Hits(BranchEntries(r)));
    FeedTwoIgnored(st, x, y);
  }

  lemma FeedBranches(r: Record, r0: Record, records: seq<Record>)
    requires r0.branches == []
    ensures FeedAll(Parsing(records, Some(r0)), BranchBlock(r)) ==
            Parsing(records, Some(r0.(branches := AddAll([], Keyed(BranchEntries(r))))))
  {
    FeedBrdaRows(r0, BranchEntries(r), records);
    var after := r0.(branches := AddAll([], Keyed(BranchEntries(r))));
    FeedConcat(Parsing(records, Some(r0)), BrdaLines(r), BranchSummary(r));
    FeedBranchSummary(r, Parsing(records, Some(after)));
    hide FeedAll, BranchSummary, BranchEntries, Decimal, Hits, Ignored, AddAll, Keyed;
  }
}
