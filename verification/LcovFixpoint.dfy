/** A printed report is a fixpoint of parsing, merging and printing, exactly when its branch numbers do not collide. */
module LcovFixpoint {
  import opened Wrappers
  import opened Assoc
  import opened LcovText
  import opened Lcov
  import opened LcovCounts
  import opened LcovRoundTrip

  /** No two branch keys have the same three numbers, as when all are canonical decimals. */
  predicate Apart(r: Record) { Distinct(Numbered(r.branches)) }

  // ---- one record ----

  lemma OrdersAreTotal(o: Collation)
    requires o.Valid()
    ensures Comparable(o.ByLine()) && Comparable(o.ByName()) && Comparable(o.ByFile()) && Comparable(ByLineNo())
            && Comparable(ByTriple())
  {
    forall a, b ensures o.ByLine()(a, b) || o.ByLine()(b, a) { Compare(o.names, a.0, b.0); }
    forall a, b ensures o.ByName()(a, b) || o.ByName()(b, a) { Compare(o.names, a.0, b.0); }
    forall a, b ensures o.ByFile()(a, b) || o.ByFile()(b, a) { Compare(o.files, a.0, b.0); }
  }

  lemma Compare(leq: (string, string) -> bool, a: string, b: string)
    requires Comparable(leq)
    ensures leq(a, b) || leq(b, a)
  {
  }

  lemma {:induction false} NoneUndefined(functions: Assoc<string, int>, fnDefs: Assoc<string, int>)
    requires forall i :: 0 <= i < |functions| ==> Has(fnDefs, functions[i].0)
    ensures Undefined(functions, fnDefs) == []
    decreases |functions|
  {
    if functions != [] {
      NoneUndefined(functions[1..], fnDefs);
    }
  }

  lemma FnEntriesAgain(o: Collation, r: Record)
    requires o.Valid() && RecordSound(r)
    ensures FnEntries(o, Reread(o, r)) == FnEntries(o, r)
  {
    var again, entries := Reread(o, r), FnEntries(o, r);
    FnEntriesSound(o, r);
    FnCountsSound(o, r);
    forall i | 0 <= i < |again.functions| ensures Has(entries, again.functions[i].0) {
      assert Has(again.functions, again.functions[i].0);
    }
    NoneUndefined(again.functions, entries);
    assert FunctionNames(again) == Keys(entries);
    forall i | 0 <= i < |entries| ensures CountOf(entries, entries[i].0) == entries[i].1 {
      assert entries[i] in entries;
      Found(entries, entries[i].0, entries[i].1);
    }
    var rows := Each((name: string) => (name, CountOf(r.fnDefs, name)), FunctionNames(r));
    OrdersAreTotal(o);
    SortDoes(o.ByLine(), rows);
    SortKeeps(o.ByLine(), entries);
    hide Sort, Comparable, Sorted, Distinct, Has;
    assert Each((name: string) => (name, CountOf(again.fnDefs, name)), FunctionNames(again)) == entries;
  }

  lemma SortTwice<T(!new)>(leq: (T, T) -> bool, s: seq<T>)
    requires Comparable(leq)
    ensures Sort(leq, Sort(leq, s)) == Sort(leq, s)
  {
    SortDoes(leq, s);
    SortKeeps(leq, Sort(leq, s));
  }

  lemma LineEntriesAgain(o: Collation, r: Record)
    requires o.Valid()
    ensures FnCounts(o, Reread(o, r)) == FnCounts(o, r)
    ensures LineEntries(Reread(o, r)) == LineEntries(r)
  {
    OrdersAreTotal(o);
    SortTwice(o.ByName(), r.functions);
    SortTwice(ByLineNo(), r.lines);
    hide Sort, Comparable;
  }

  lemma KeyedNumbered(entries: Assoc<Triple, int>)
    ensures Numbered(Keyed(entries)) == entries
    ensures Distinct(Keyed(entries)) <==> Distinct(entries)
  {
    forall i | 0 <= i < |entries| ensures TripleOf(Key(entries[i].0)) == entries[i].0 {
      KeyRoundTrip(entries[i].0);
    }
    hide TripleOf, Key;
    forall i, j | 0 <= i < j < |entries| && Keyed(entries)[i].0 == Keyed(entries)[j].0
      ensures entries[i].0 == entries[j].0
    {
      assert TripleOf(Key(entries[i].0)) == TripleOf(Key(entries[j].0));
    }
  }

  lemma BranchesAgain(o: Collation, r: Record)
    requires o.Valid()
    ensures Apart(r) ==> BranchEntries(Reread(o, r)) == BranchEntries(r)
    ensures !Apart(r) ==> |BranchEntries(Reread(o, r))| < |BranchEntries(r)|
  {
    var entries := BranchEntries(r);
    SortedMap(ByTriple(), Numbered(r.branches));
    KeyedNumbered(entries);
    AddedUp(Keyed(entries));
    OrdersAreTotal(o);
    SortTwice(ByTriple(), Numbered(r.branches));
    SortDoes(ByTriple(), Numbered(Reread(o, r).branches));
    hide Sort, Comparable, Sorted, Distinct, AddAll, Lookup;
  }

  /** A section is printed again as it was, or shorter when branch numbers collide. */
  lemma SectionAgain(o: Collation, r: Record)
    requires o.Valid() && RecordSound(r)
    ensures Apart(r) ==> Section(o, Reread(o, r)) == Section(o, r)
    ensures !Apart(r) ==> |Section(o, Reread(o, r))| < |Section(o, r)|
  {
    FnEntriesAgain(o, r);
    LineEntriesAgain(o, r);
    BranchesAgain(o, r);
    hide FnEntries, FnCounts, LineEntries, BranchEntries, Apart, RecordSound, FnRow, FndaRow, DaRow, BrdaRow,
      Decimal, Hits;
  }

  // ---- the whole table ----

  function RereadAll(o: Collation, entries: Merged): Merged {
    Each((e: (string, Record)) => (e.0, Reread(o, e.1)), entries)
  }

  function RereadRecords(o: Collation, entries: Merged): seq<Record> {
    Each((e: (string, Record)) => Reread(o, e.1), entries)
  }

  lemma RereadFront(o: Collation, entries: Merged)
    requires entries != []
    ensures var n := |entries| - 1;
            RereadRecords(o, entries) == RereadRecords(o, entries[..n]) + [Reread(o, entries[n].1)]
            && RereadAll(o, entries) == RereadAll(o, entries[..n]) + [(entries[n].0, Reread(o, entries[n].1))]
  {
    hide Reread;
  }

  lemma FrontFine(entries: Merged, p: string -> bool)
    requires entries != [] && MergedFine(entries, p)
    ensures var n := |entries| - 1;
            MergedFine(entries[..n], p) && RecordSound(entries[n].1) && entries[n].1.file == entries[n].0
            && !Has(entries[..n], entries[n].0)
  {
    var n := |entries| - 1;
    assert Fine(entries[n].1, p);
    hide RecordSound, NamesAll;
  }

  lemma {:induction false} FeedSections(o: Collation, entries: Merged, p: string -> bool)
    requires MergedFine(entries, p)
    ensures FeedAll(Start, Sections(o, entries)) == Parsing(RereadRecords(o, entries), None)
    decreases |entries|
  {
    if entries != [] {
      var n := |entries| - 1;
      FrontFine(entries, p);
      FeedSections(o, entries[..n], p);
      FeedConcat(Start, Sections(o, entries[..n]), Section(o, entries[n].1));
      FeedSection(o, entries[n].1, RereadRecords(o, entries[..n]));
      RereadFront(o, entries);
      hide FeedAll, Section, Reread, RereadAll, RereadRecords, MergedFine, Has, RecordSound;
    } else {
      assert FeedAll(Start, []) == Start;
    }
  }

  lemma AbsorbedByEmpty(o: Collation, r: Record)
    requires RecordSound(r)
    ensures Absorb(EmptyRecord(r.file), Reread(o, r)) == Reread(o, r)
  {
    SortedMap(ByLineNo(), r.lines);
    AddedUp(LineEntries(r));
    AddAllDoes([], Keyed(BranchEntries(r)));
    AddedUp(AddAll([], Keyed(BranchEntries(r))));
    FnCountsSound(o, r);
    AddedUp(FnCounts(o, r));
    FnEntriesSound(o, r);
    Rebuilt(FnEntries(o, r));
    hide Sort, AddAll, PutMissing, BranchEntries, FnEntries, FnCounts, Keyed, Has;
  }

  lemma {:induction false} MergeRereads(o: Collation, entries: Merged, p: string -> bool)
    requires MergedFine(entries, p)
    ensures Merge(RereadRecords(o, entries)) == RereadAll(o, entries)
    decreases |entries|
  {
    if entries != [] {
      var n := |entries| - 1;
      FrontFine(entries, p);
      MergeRereads(o, entries[..n], p);
      AbsorbedByEmpty(o, entries[n].1);
      RereadFront(o, entries);
      RereadNew(o, entries[..n], entries[n].0, p);
      var before, file := RereadAll(o, entries[..n]), entries[n].0;
      PutDoes(before, file, Reread(o, entries[n].1));
      assert Lookup(before, file).Some? <==> Has(before, file);
      RereadFile(o, entries[n].1);
      hide Reread, RereadAll, RereadRecords, MergedFine, Has, RecordSound, Distinct, Lookup, Put, Absorb;
    }
  }

  lemma RereadNew(o: Collation, entries: Merged, file: string, p: string -> bool)
    requires MergedFine(entries, p) && !Has(entries, file)
    ensures Distinct(RereadAll(o, entries)) && !Has(RereadAll(o, entries), file)
  {
    hide Fine, Reread;
  }

  lemma RereadFile(o: Collation, r: Record)
    ensures Reread(o, r).file == r.file
  {
  }

  lemma ApartFront(entries: Merged)
    requires entries != []
    ensures AllApart(entries) <==> AllApart(entries[..|entries| - 1]) && Apart(entries[|entries| - 1].1)
  {
    hide Apart;
    var n := |entries| - 1;
    if AllApart(entries[..n]) && Apart(entries[n].1) {
      forall i | 0 <= i < |entries| ensures Apart(entries[i].1) {
        if i < n { assert Apart(entries[..n][i].1); }
      }
    }
  }

  lemma SectionsTwo(o: Collation, entries: Merged, file: string, r: Record)
    ensures Sections(o, entries + [(file, r)]) == Sections(o, entries) + Section(o, r)
  {
    assert (entries + [(file, r)])[..|entries|] == entries;
  }

  lemma {:induction false} SectionsAgain(o: Collation, entries: Merged, p: string -> bool)
    requires o.Valid() && MergedFine(entries, p)
    ensures AllApart(entries) ==> Sections(o, RereadAll(o, entries)) == Sections(o, entries)
    ensures !AllApart(entries) ==> |Sections(o, RereadAll(o, entries))| < |Sections(o, entries)|
    decreases |entries|
  {
    if entries != [] {
      var n := |entries| - 1;
      FrontFine(entries, p);
      SectionsAgain(o, entries[..n], p);
      SectionAgain(o, entries[n].1);
      RereadFront(o, entries);
      ApartFront(entries);
      SectionsTwo(o, RereadAll(o, entries[..n]), entries[n].0, Reread(o, entries[n].1));
      hide Section, Reread, RereadAll, RereadRecords, MergedFine, Has, RecordSound, Apart, AllApart;
    }
  }

  predicate AllApart(m: Merged) {
    forall i :: 0 <= i < |m| ==> Apart(m[i].1)
  }

  lemma SortedTable(o: Collation, m: Merged, p: string -> bool)
    requires o.Valid() && MergedFine(m, p)
    ensures var entries := Sort(o.ByFile(), m);
            MergedFine(entries, p) && |entries| == |m| && (AllApart(entries) <==> AllApart(m))
            && Sort(o.ByFile(), RereadAll(o, entries)) == RereadAll(o, entries)
  {
    var entries := Sort(o.ByFile(), m);
    SortedMap(o.ByFile(), m);
    SortDoes(o.ByFile(), m);
    OrdersAreTotal(o);
    hide Sort, Fine, Apart, Reread, Comparable, Distinct, Lookup;
    forall i | 0 <= i < |entries| ensures entries[i].1.file == entries[i].0 && Fine(entries[i].1, p) {
      assert entries[i] in m;
    }
    assert AllApart(m) ==> AllApart(entries) by {
      forall i | 0 <= i < |entries| && AllApart(m) ensures Apart(entries[i].1) { assert entries[i] in m; }
    }
    assert AllApart(entries) ==> AllApart(m) by {
      forall i | 0 <= i < |m| && AllApart(entries) ensures Apart(m[i].1) { assert m[i] in entries; }
    }
    var again := RereadAll(o, entries);
    forall i | 0 <= i < |again| - 1 ensures o.ByFile()(again[i], again[i + 1]) {
      assert o.ByFile()(entries[i], entries[i + 1]);
    }
    SortKeeps(o.ByFile(), again);
  }

  /** Line by line: printing what was parsed from the printed lines gives them back, if and only if no branch numbers
      collide. */
  lemma LinesFixpoint(o: Collation, m: Merged, p: string -> bool)
    requires o.Valid() && MergedFine(m, p)
    ensures PrintLines(o, Merge(ParseLines(PrintLines(o, m)))) == PrintLines(o, m) <==> AllApart(m)
  {
    var entries := Sort(o.ByFile(), m);
    SortedTable(o, m, p);
    FeedSections(o, entries, p);
    MergeRereads(o, entries, p);
    SectionsAgain(o, entries, p);
    hide Sort, FeedAll, Merge, Sections, MergedFine, AllApart, RereadAll, RereadRecords;
  }
}
