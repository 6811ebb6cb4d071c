/** The written file: merging a report alone reproduces it, and its numbers are the sums they claim to be. */
module LcovReport {
  import opened Assoc
  import opened LcovText
  import opened Lcov
  import opened LcovCounts
  import opened LcovRoundTrip
  import opened LcovFixpoint

  // ---- properties of names that printing keeps ----

  predicate Plain(s: string) { '\n' !in s && '\r' !in s }

  ghost predicate PrefixOpen(p: string -> bool) {
    (forall a :: Plain(a) ==> p(a)) && (forall a, b :: Plain(a) && p(b) ==> p(a + b))
  }

  function NoLf(): string -> bool { (s: string) => '\n' !in s }

  /** How many carriage returns end a line. */
  function Trail(s: string): nat {
    if s != "" && s[|s| - 1] == '\r' then 1 + Trail(s[..|s| - 1]) else 0
  }

  function TrailAtMost(k: nat): string -> bool { (s: string) => Trail(s) <= k }

  lemma NoLfIsKept()
    ensures SuffixClosed(NoLf()) && PrefixOpen(NoLf())
  {
    forall a: string, b: string | NoLf()(a + b) ensures NoLf()(b) {
      assert forall c :: c in b ==> c in a + b;
    }
  }

  lemma {:induction false} TrailOfSuffix(a: string, b: string)
    ensures Trail(b) <= Trail(a + b)
    ensures Plain(a) ==> Trail(a + b) == Trail(b)
    decreases |b|
  {
    if b == "" {
      assert a + b == a;
      if a != "" { assert a[|a| - 1] in a; }
    } else {
      var n := |b| - 1;
      TrailOfSuffix(a, b[..n]);
      assert (a + b)[..|a| + n] == a + b[..n];
    }
  }

  lemma TrailIsKept(k: nat)
    ensures SuffixClosed(TrailAtMost(k)) && PrefixOpen(TrailAtMost(k))
  {
    forall a: string, b: string | TrailAtMost(k)(a + b) ensures TrailAtMost(k)(b) { TrailOfSuffix(a, b); }
    forall a: string | Plain(a) ensures TrailAtMost(k)(a) {
      TrailOfSuffix(a, "");
      assert a + "" == a;
    }
    forall a: string, b: string | Plain(a) && TrailAtMost(k)(b) ensures TrailAtMost(k)(a + b) { TrailOfSuffix(a, b); }
  }

  // ---- printed lines ----

  lemma PlainDecimal(n: int)
    ensures Plain(Decimal(n))
  {
    DecimalChars(n);
  }

  lemma NameRow(p: string -> bool, head: string, n: int, name: string)
    requires PrefixOpen(p) && Plain(head) && p(name)
    ensures p(head + (Decimal(n) + "," + name))
  {
    PlainDecimal(n);
    hide PrefixOpen, Decimal;
    var front := head + (Decimal(n) + ",");
    assert head + (Decimal(n) + "," + name) == front + name;
    assert Plain(front);
    PrefixOf(p, front, name);
  }

  lemma PrefixOf(p: string -> bool, a: string, b: string)
    requires PrefixOpen(p) && Plain(a) && p(b)
    ensures p(a + b)
  {
  }

  lemma PlainLine(p: string -> bool, line: string)
    requires PrefixOpen(p) && Plain(line)
    ensures p(line)
  {
  }

  lemma AllConcat(a: seq<string>, b: seq<string>, p: string -> bool)
    requires LinesAll(a, p) && LinesAll(b, p)
    ensures LinesAll(a + b, p)
  {
  }

  lemma NameRowsAll(entries: Assoc<string, int>, p: string -> bool)
    requires PrefixOpen(p) && forall name :: Has(entries, name) ==> p(name)
    ensures LinesAll(Each(FnRow, entries), p) && LinesAll(Each(FndaRow, entries), p)
  {
    hide Decimal, PrefixOpen;
    forall i | 0 <= i < |entries| ensures p(FnRow(entries[i])) && p(FndaRow(entries[i])) {
      assert Has(entries, entries[i].0);
      NameRow(p, "FN:", entries[i].1, entries[i].0);
      NameRow(p, "FNDA:", entries[i].1, entries[i].0);
    }
  }

  lemma FnSummaryAll(o: Collation, r: Record, p: string -> bool)
    requires PrefixOpen(p)
    ensures LinesAll(FnSummary(o, r), p)
  {
    var a, b := |FnEntries(o, r)|, Hits(FnCounts(o, r));
    PlainDecimal(a);
    PlainDecimal(b);
    hide Decimal, Hits, FnEntries, FnCounts;
    PlainLine(p, "FNF:" + Decimal(a));
    PlainLine(p, "FNH:" + Decimal(b));
  }

  lemma FunctionBlockAll(o: Collation, r: Record, p: string -> bool)
    requires Fine(r, p) && PrefixOpen(p)
    ensures LinesAll(FunctionBlock(o, r), p)
  {
    FnEntriesSound(o, r);
    FnCountsSound(o, r);
    hide FnEntries, FnCounts, FnSummary, PrefixOpen, RecordSound, Has, LinesAll;
    NameRowsAll(FnEntries(o, r), p);
    NameRowsAll(FnCounts(o, r), p);
    FnSummaryAll(o, r, p);
    AllConcat(FnLines(o, r), FndaLines(o, r), p);
    AllConcat(FnLines(o, r) + FndaLines(o, r), FnSummary(o, r), p);
  }

  lemma LineBlockAll(r: Record, p: string -> bool)
    requires PrefixOpen(p)
    ensures LinesAll(LineBlock(r), p)
  {
    var a := LineEntries(r);
    hide LineEntries, Decimal, PrefixOpen, Hits;
    forall i | 0 <= i < |a| ensures p(DaRow(a[i])) {
      PlainDecimal(a[i].0);
      PlainDecimal(a[i].1);
      PlainLine(p, DaRow(a[i]));
    }
    PlainDecimal(|a|);
    PlainDecimal(Hits(a));
    PlainLine(p, "LF:" + Decimal(|a|));
    PlainLine(p, "LH:" + Decimal(Hits(a)));
  }

  lemma BranchBlockAll(r: Record, p: string -> bool)
    requires PrefixOpen(p)
    ensures LinesAll(BranchBlock(r), p)
  {
    var a := BranchEntries(r);
    hide BranchEntries, Decimal, PrefixOpen, Hits;
    forall i | 0 <= i < |a| ensures p(BrdaRow(a[i])) {
      PlainDecimal(a[i].0.0);
      PlainDecimal(a[i].0.1);
      PlainDecimal(a[i].0.2);
      PlainDecimal(a[i].1);
      PlainLine(p, BrdaRow(a[i]));
    }
    PlainDecimal(|a|);
    PlainDecimal(Hits(a));
    PlainLine(p, "BRF:" + Decimal(|a|));
    PlainLine(p, "BRH:" + Decimal(Hits(a)));
  }

  lemma EndsAll(file: string, p: string -> bool)
    requires PrefixOpen(p) && p(file)
    ensures LinesAll([SfRow(file)], p) && LinesAll([EndRow()], p)
  {
    PrefixOf(p, "SF:", file);
    PlainLine(p, "end_of_record");
  }

  lemma SectionAll(o: Collation, r: Record, p: string -> bool)
    requires Fine(r, p) && PrefixOpen(p)
    ensures LinesAll(Section(o, r), p)
  {
    FunctionBlockAll(o, r, p);
    LineBlockAll(r, p);
    BranchBlockAll(r, p);
    EndsAll(r.file, p);
    hide NamesAll, FunctionBlock, LineBlock, BranchBlock, PrefixOpen, RecordSound, SfRow, EndRow, LinesAll;
    AllConcat(FunctionBlock(o, r), LineBlock(r), p);
    AllConcat(FunctionBlock(o, r) + LineBlock(r), BranchBlock(r), p);
    AllConcat([SfRow(r.file)], FunctionBlock(o, r) + LineBlock(r) + BranchBlock(r), p);
    AllConcat([SfRow(r.file)] + (FunctionBlock(o, r) + LineBlock(r) + BranchBlock(r)), [EndRow()], p);
  }

  lemma {:induction false} SectionsAll(o: Collation, entries: Merged, p: string -> bool)
    requires MergedFine(entries, p) && PrefixOpen(p)
    ensures LinesAll(Sections(o, entries), p)
    decreases |entries|
  {
    if entries != [] {
      var n := |entries| - 1;
      FrontFine(entries, p);
      assert Fine(entries[n].1, p);
      SectionsAll(o, entries[..n], p);
      SectionAll(o, entries[n].1, p);
      hide Section, PrefixOpen, RecordSound, MergedFine;
    }
  }

  /** What holds of all names, and of plain text before them, holds of every printed line. */
  lemma PrintedAll(o: Collation, m: Merged, p: string -> bool)
    requires o.Valid() && MergedFine(m, p) && PrefixOpen(p)
    ensures LinesAll(PrintLines(o, m), p)
  {
    SortedTable(o, m, p);
    SectionsAll(o, Sort(o.ByFile(), m), p);
  }

  // ---- reading files ----

  lemma SplitLinesAll(content: string)
    ensures LinesAll(SplitLines(content), NoLf())
  {
    var pieces := Split(content, '\n');
    SplitPieces(content, '\n');
    hide Split;
    forall i | 0 <= i < |pieces| ensures NoLf()(DropCrs(pieces)[i]) {
      DropCrsAt(pieces, i);
      assert '\n' !in pieces[i];
    }
  }

  /** Whatever the input files hold, the parsed records are sound and no name holds a line feed. */
  lemma {:induction false} ParseAllFine(contents: seq<string>)
    ensures AllFine(ParseAll(contents), NoLf())
    decreases |contents|
  {
    if contents != [] {
      var n := |contents| - 1;
      ParseAllFine(contents[..n]);
      NoLfIsKept();
      SplitLinesAll(contents[n]);
      ParsedFine(SplitLines(contents[n]), NoLf());
      hide Fine, Parse, SuffixClosed, PrefixOpen;
      assert Parse(contents[n]) == ParseLines(SplitLines(contents[n])) by { ParseIs(contents[n]); }
    }
  }

  lemma ParseIs(content: string)
    ensures Parse(content) == ParseLines(SplitLines(content))
  {
  }

  function MergedFrom(contents: seq<string>): Merged {
    Merge(ParseAll(contents))
  }

  lemma MergedFromFine(contents: seq<string>)
    ensures MergedFine(MergedFrom(contents), NoLf())
  {
    ParseAllFine(contents);
    MergeFine(ParseAll(contents), NoLf());
  }

  lemma ParseOne(text: string)
    ensures ParseAll([text]) == ParseLines(SplitLines(text))
  {
    assert [text][..0] == [];
    assert ParseAll([]) == [];
    ParseIs(text);
    hide Parse, ParseLines, SplitLines;
  }

  // ---- the fixpoint of the whole tool ----

  /** No file or function name ends in a carriage return. */
  ghost predicate NamesEndClean(m: Merged) {
    forall i :: 0 <= i < |m| ==> NamesAll(m[i].1, TrailAtMost(0))
  }

  lemma CleanTable(m: Merged, p: string -> bool)
    requires MergedFine(m, p)
    ensures NamesEndClean(m) <==> MergedFine(m, TrailAtMost(0))
  {
    assert forall i :: 0 <= i < |m| ==> Fine(m[i].1, p);
    assert forall i :: 0 <= i < |m| ==> RecordSound(m[i].1);
    hide RecordSound, NamesAll, Distinct;
    if MergedFine(m, TrailAtMost(0)) {
      assert forall i :: 0 <= i < |m| ==> Fine(m[i].1, TrailAtMost(0));
    }
  }

  lemma SortedNamesClean(o: Collation, m: Merged)
    requires o.Valid() && MergedFine(m, NoLf())
    ensures NamesEndClean(Sort(o.ByFile(), m)) ==> NamesEndClean(m)
  {
    SortDoes(o.ByFile(), m);
    hide NamesAll, Sort, MergedFine;
    var entries := Sort(o.ByFile(), m);
    if NamesEndClean(entries) {
      forall i | 0 <= i < |m| ensures NamesAll(m[i].1, TrailAtMost(0)) {
        assert m[i] in entries;
        var j :| 0 <= j < |entries| && entries[j] == m[i];
      }
    }
  }

  /** Every name is printed: if no printed line ends in a carriage return, no name does. */
  lemma CleanLinesCleanNames(o: Collation, m: Merged)
    requires o.Valid() && MergedFine(m, NoLf())
    ensures LinesAll(PrintLines(o, m), TrailAtMost(0)) <==> NamesEndClean(m)
  {
    TrailIsKept(0);
    CleanTable(m, NoLf());
    hide PrintLines, LinesAll, MergedFine, NamesEndClean, TrailAtMost, PrefixOpen, SuffixClosed;
    if NamesEndClean(m) { PrintedAll(o, m, TrailAtMost(0)); }
    if LinesAll(PrintLines(o, m), TrailAtMost(0)) { CleanLinesOnly(o, m); }
  }

  lemma CleanLinesOnly(o: Collation, m: Merged)
    requires o.Valid() && MergedFine(m, NoLf()) && LinesAll(PrintLines(o, m), TrailAtMost(0))
    ensures NamesEndClean(m)
  {
    var entries := Sort(o.ByFile(), m);
    TrailIsKept(0);
    ParsedFine(PrintLines(o, m), TrailAtMost(0));
    SortedTable(o, m, NoLf());
    FeedSections(o, entries, NoLf());
    assert ParseLines(PrintLines(o, m)) == RereadRecords(o, entries);
    hide LinesAll, MergedFine, NamesEndClean, TrailAtMost, PrefixOpen, SuffixClosed, AllFine, Sort;
    RereadClean(o, entries);
    SortedNamesClean(o, m);
  }

  lemma RereadClean(o: Collation, entries: Merged)
    requires MergedFine(entries, NoLf())
    requires AllFine(RereadRecords(o, entries), TrailAtMost(0))
    ensures NamesEndClean(entries)
  {
    hide TrailAtMost, Reread, Fine;
    forall i | 0 <= i < |entries| ensures NamesAll(entries[i].1, TrailAtMost(0)) {
      var again := RereadRecords(o, entries)[i];
      assert again in RereadRecords(o, entries);
      assert Fine(entries[i].1, NoLf());
      assert again == Reread(o, entries[i].1);
      RereadRecordClean(o, entries[i].1);
    }
  }

  lemma RereadRecordClean(o: Collation, r: Record)
    requires Fine(r, NoLf()) && Fine(Reread(o, r), TrailAtMost(0))
    ensures NamesAll(r, TrailAtMost(0))
  {
    FnEntriesSound(o, r);
    hide FnEntries, FnCounts, LineEntries, BranchEntries, TrailAtMost;
  }

  lemma DropsNothing(lines: seq<string>)
    requires LinesAll(lines, TrailAtMost(0))
    ensures DropCrs(lines) == lines
  {
    forall i | 0 <= i < |lines| ensures DropCrs(lines)[i] == lines[i] {
      DropCrsAt(lines, i);
      assert TrailAtMost(0)(lines[i]);
    }
  }

  lemma {:induction false} LongestTrail(lines: seq<string>) returns (k: nat)
    requires lines != []
    ensures LinesAll(lines, TrailAtMost(k))
    ensures exists i :: 0 <= i < |lines| && Trail(lines[i]) == k
    decreases |lines|
  {
    var n := |lines| - 1;
    if n == 0 {
      k := Trail(lines[0]);
    } else {
      var k' := LongestTrail(lines[..n]);
      var j :| 0 <= j < n && Trail(lines[..n][j]) == k';
      assert Trail(lines[j]) == k';
      assert forall i :: 0 <= i < n ==> TrailAtMost(k')(lines[..n][i]);
      if Trail(lines[n]) > k' { k := Trail(lines[n]); } else { k := k'; }
      assert Trail(lines[n]) == k || Trail(lines[j]) == k;
      forall i | 0 <= i < |lines| ensures TrailAtMost(k)(lines[i]) {
        if i < n { assert TrailAtMost(k')(lines[..n][i]); }
      }
    }
  }

  lemma DropsOne(lines: seq<string>, k: nat)
    requires lines != [] && LinesAll(lines, TrailAtMost(k)) && k > 0 && Trail(lines[|lines| - 1]) == 0
    ensures LinesAll(DropCrs(lines), TrailAtMost(k - 1))
  {
    hide DropCrs, DropCr, Trail;
    forall i | 0 <= i < |lines| ensures TrailAtMost(k - 1)(DropCrs(lines)[i]) {
      DropCrsAt(lines, i);
      assert TrailAtMost(k)(lines[i]);
      TrailDropped(lines[i]);
    }
  }

  lemma TrailDropped(s: string)
    ensures Trail(DropCr(s)) == if Trail(s) > 0 then Trail(s) - 1 else 0
  {
  }

  lemma PrintedShape(o: Collation, m: Merged)
    requires o.Valid() && MergedFine(m, NoLf())
    ensures m == [] <==> PrintLines(o, m) == []
    ensures m != [] ==> Last(PrintLines(o, m)) == EndRow()
    ensures Free(PrintLines(o, m), '\n')
  {
    hide MergedFine, PrintLines, PrefixOpen, SuffixClosed;
    NoLfIsKept();
    PrintedAll(o, m, NoLf());
    LastLine(o, m);
    var lines := PrintLines(o, m);
    forall i | 0 <= i < |lines| ensures '\n' !in lines[i] { assert NoLf()(lines[i]); }
  }

  lemma LastLine(o: Collation, m: Merged)
    requires o.Valid() && MergedFine(m, NoLf())
    ensures m == [] <==> PrintLines(o, m) == []
    ensures m != [] ==> Last(PrintLines(o, m)) == EndRow()
  {
    hide MergedFine, Sort, EndRow, FunctionBlock, LineBlock, BranchBlock, SfRow;
    SortedTable(o, m, NoLf());
  }

  function Last(lines: seq<string>): string {
    if lines == [] then "" else lines[|lines| - 1]
  }

  lemma JoinLonger(lines: seq<string>)
    requires lines != [] && Last(lines) == EndRow()
    ensures Join(lines, '\n') != ""
  {
  }

  /** Reports have the same text exactly when they have the same lines. */
  lemma SameText(o: Collation, a: Merged, b: Merged)
    requires o.Valid() && MergedFine(a, NoLf()) && MergedFine(b, NoLf())
    ensures Join(PrintLines(o, a), '\n') == Join(PrintLines(o, b), '\n') <==> PrintLines(o, a) == PrintLines(o, b)
  {
    PrintedShape(o, a);
    PrintedShape(o, b);
    hide PrintLines, MergedFine;
    var x, y := PrintLines(o, a), PrintLines(o, b);
    if Join(x, '\n') == Join(y, '\n') {
      if x != [] { JoinLonger(x); }
      if y != [] { JoinLonger(y); }
      assert x == [] <==> y == [] by { assert Join([], '\n') == ""; }
      if x != [] { JoinInjective(x, y); }
    }
  }

  lemma TextAgain(o: Collation, m: Merged)
    requires o.Valid() && MergedFine(m, NoLf()) && m != []
    ensures ParseAll([Join(PrintLines(o, m), '\n')]) == ParseLines(DropCrs(PrintLines(o, m)))
  {
    PrintedShape(o, m);
    ParseOne(Join(PrintLines(o, m), '\n'));
    LinesRoundTrip(PrintLines(o, m));
  }

  lemma TrailLost(o: Collation, m: Merged)
    requires o.Valid() && MergedFine(m, NoLf()) && !NamesEndClean(m) && m != []
    ensures PrintLines(o, Merge(ParseLines(DropCrs(PrintLines(o, m))))) != PrintLines(o, m)
  {
    hide PrintLines, Merge, ParseLines, DropCrs, MergedFine, NamesEndClean;
    var lines := PrintLines(o, m);
    PrintedShape(o, m);
    CleanLinesCleanNames(o, m);
    var k := LongestTrail(lines);
    assert k > 0;
    assert Trail(EndRow()) == 0;
    DropsOne(lines, k);
    TrailIsKept(k - 1);
    ParsedFine(DropCrs(lines), TrailAtMost(k - 1));
    var m' := Merge(ParseLines(DropCrs(lines)));
    MergeFine(ParseLines(DropCrs(lines)), TrailAtMost(k - 1));
    PrintedAll(o, m', TrailAtMost(k - 1));
    assert !LinesAll(lines, TrailAtMost(k - 1));
  }

  /** Merging a written report with nothing else writes it again, for any input files the report came from,
      exactly when no two branches of a file have the same numbers and no name ends in a carriage return. */
  lemma ReportIsFixpoint(o: Collation, contents: seq<string>)
    requires o.Valid()
    ensures Report(o, [Report(o, contents)]) == Report(o, contents) <==>
            AllApart(MergedFrom(contents)) && NamesEndClean(MergedFrom(contents))
  {
    var m, text := MergedFrom(contents), Report(o, contents);
    var m' := MergedFrom([text]);
    MergedFromFine(contents);
    MergedFromFine([text]);
    SameText(o, m', m);
    if m == [] {
      EmptyReport(o);
    } else {
      TextAgain(o, m);
      CleanLinesCleanNames(o, m);
      LinesFixpoint(o, m, NoLf());
      if NamesEndClean(m) { DropsNothing(PrintLines(o, m)); } else { TrailLost(o, m); }
    }
    hide MergedFine, AllApart, NamesEndClean, PrintLines, ParseAll, Merge, ParseLines, DropCrs, LinesAll;
  }

  lemma EmptyReport(o: Collation)
    ensures PrintLines(o, []) == [] && Merge(ParseAll([""])) == []
  {
    ParseOne("");
    assert SplitLines("") == [""];
    FeedOne(Start, "");
  }

  /** Branch keys written in canonical decimals never collide. */
  lemma CanonicalKeysStayApart(contents: seq<string>)
    requires forall e, b :: e in MergedFrom(contents) && b in e.1.branches ==> b.0 == Key(TripleOf(b.0))
    ensures AllApart(MergedFrom(contents))
  {
    var m := MergedFrom(contents);
    MergedFromFine(contents);
    forall i | 0 <= i < |m| ensures Apart(m[i].1) {
      var r := m[i].1;
      assert m[i] in m;
      assert Fine(r, NoLf());
      var branches, numbered := r.branches, Numbered(r.branches);
      hide Key, TripleOf, MergedFrom, NamesAll;
      forall j, k | 0 <= j < k < |branches| ensures numbered[j].0 != numbered[k].0 {
        assert branches[j] in branches && branches[k] in branches;
      }
    }
  }

  // ---- counts over the input files ----

  /** Whatever the files hold: every count written for a file is the sum over all records of that file in all inputs,
      and a function's line is the one its first definition gave. */
  lemma ReportCounts(contents: seq<string>, file: string, line: int, key: string)
    ensures var merged, records := Known(MergedFrom(contents), file), ParseAll(contents);
            CountOf(merged.lines, line) == SumOver(records, file, (r: Record) => CountOf(r.lines, line))
            && CountOf(merged.branches, key) == SumOver(records, file, (r: Record) => CountOf(r.branches, key))
            && CountOf(merged.functions, key) == SumOver(records, file, (r: Record) => CountOf(r.functions, key))
            && Lookup(merged.fnDefs, key) == FirstDefinition(records, file, key)
  {
    var records, any := ParseAll(contents), (s: string) => true;
    ParseAllFine(contents);
    forall r | r in records ensures Fine(r, any) { assert Fine(r, NoLf()); }
    MergedCounts(records, file, line, key, any);
    MergedDefinitions(records, file, key, any);
  }

  lemma {:induction false} ParseAllBag(a: seq<string>, b: seq<string>)
    requires multiset(a) == multiset(b)
    ensures multiset(ParseAll(a)) == multiset(ParseAll(b))
    decreases |a|
  {
    hide Parse, ParseAll;
    if a == [] {
      assert |multiset(b)| == 0;
    } else {
      var n := |a| - 1;
      var i := BagWithout(a, b);
      ParseAllBag(a[..n], b[..i] + b[i + 1..]);
      assert a == a[..n] + [a[n]];
      ParseAllConcat(a[..n], [a[n]]);
      ParseOneOut(b, i);
    }
  }

  /** The last of a also lies in b, and may be taken out of both. */
  lemma BagWithout(a: seq<string>, b: seq<string>) returns (i: nat)
    requires a != [] && multiset(a) == multiset(b)
    ensures var n := |a| - 1;
            i < |b| && b[i] == a[n] && multiset(a[..n]) == multiset(b[..i] + b[i + 1..])
  {
    var n := |a| - 1;
    assert a[n] in multiset(b);
    i :| 0 <= i < |b| && b[i] == a[n];
    BagOneOut(a, n);
    BagOneOut(b, i);
    assert a[..n] + a[n + 1..] == a[..n];
  }

  lemma BagOneOut(a: seq<string>, i: nat)
    requires i < |a|
    ensures multiset(a[..i] + a[i + 1..]) == multiset(a) - multiset{a[i]}
  {
    assert a == a[..i] + ([a[i]] + a[i + 1..]);
  }

  lemma ParseOneOut(b: seq<string>, i: nat)
    requires i < |b|
    ensures multiset(ParseAll(b)) == multiset(ParseAll(b[..i] + b[i + 1..])) + multiset(ParseAll([b[i]]))
  {
    hide Parse, ParseAll;
    assert b == b[..i] + [b[i]] + b[i + 1..];
    ParseAllConcat(b[..i], b[i + 1..]);
    ParseAllConcat(b[..i] + [b[i]], b[i + 1..]);
    ParseAllConcat(b[..i], [b[i]]);
  }

  lemma {:induction false} ParseAllConcat(a: seq<string>, b: seq<string>)
    ensures ParseAll(a + b) == ParseAll(a) + ParseAll(b)
    decreases |b|
  {
    hide Parse;
    if b == [] {
      assert a + b == a;
    } else {
      var n := |b| - 1;
      ParseAllConcat(a, b[..n]);
      assert (a + b)[..|a| + n] == a + b[..n];
    }
  }

  /** The order of the input files changes no count. */
  lemma FilesInAnyOrder(a: seq<string>, b: seq<string>, file: string, line: int, key: string)
    requires multiset(a) == multiset(b)
    ensures var x, y := Known(MergedFrom(a), file), Known(MergedFrom(b), file);
            CountOf(x.lines, line) == CountOf(y.lines, line)
            && CountOf(x.branches, key) == CountOf(y.branches, key)
            && CountOf(x.functions, key) == CountOf(y.functions, key)
  {
    var any := (s: string) => true;
    ParseAllBag(a, b);
    ParseAllFine(a);
    forall r | r in ParseAll(a) ensures Fine(r, any) { assert Fine(r, NoLf()); }
    CountsInAnyOrder(ParseAll(a), ParseAll(b), file, line, key, any);
  }
}
