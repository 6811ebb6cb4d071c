/** The totals printed in a section are those of the lines printed in it. */
module LcovSummary {
  import opened Assoc
  import opened LcovText
  import opened Lcov
  import opened LcovRoundTrip

  /** How many lines satisfy `p`. */
  function Tally(lines: seq<string>, p: string -> bool): nat {
    if lines == [] then 0 else
    Tally(lines[..|lines| - 1], p) + if p(lines[|lines| - 1]) then 1 else 0
  }

  function Begins(prefix: string): string -> bool {
    (line: string) => StartsWith(line, prefix)
  }

  /** Lines of a kind whose given field is a positive count. */
  function Positive(prefix: string, field: nat): string -> bool {
    (line: string) => StartsWith(line, prefix) && ParseNumber(Part(Split(line[|prefix|..], ','), field)) > 0
  }

  /** `p` accepts only lines that begin with `prefix`. */
  ghost predicate Under(p: string -> bool, prefix: string) {
    forall line :: p(line) ==> StartsWith(line, prefix)
  }

  lemma {:induction false} TallyConcat(a: seq<string>, b: seq<string>, p: string -> bool)
    ensures Tally(a + b, p) == Tally(a, p) + Tally(b, p)
    decreases |b|
  {
    if b == [] {
      assert a + b == a;
    } else {
      var n := |b| - 1;
      TallyConcat(a, b[..n], p);
      assert (a + b)[..|a| + n] == a + b[..n];
    }
  }

  predicate OfKind(lines: seq<string>, kind: string) {
    forall i :: 0 <= i < |lines| ==> StartsWith(lines[i], kind)
  }

  predicate Clash(kind: string, prefix: string) {
    exists j :: 0 <= j < |kind| && j < |prefix| && kind[j] != prefix[j]
  }

  lemma BeginsWith(line: string, prefix: string, j: nat)
    requires j < |prefix|
    ensures StartsWith(line, prefix) ==> j < |line| && line[j] == prefix[j]
  {
    if StartsWith(line, prefix) { assert line[j] == line[..|prefix|][j]; }
  }

  lemma {:induction false} TallyOther(lines: seq<string>, p: string -> bool, kind: string, prefix: string)
    requires OfKind(lines, kind) && Under(p, prefix) && Clash(kind, prefix)
    ensures Tally(lines, p) == 0
    decreases |lines|
  {
    if lines != [] {
      var n := |lines| - 1;
      TallyOther(lines[..n], p, kind, prefix);
      var j :| 0 <= j < |kind| && j < |prefix| && kind[j] != prefix[j];
      BeginsWith(lines[n], kind, j);
      BeginsWith(lines[n], prefix, j);
    }
  }

  lemma {:induction false} TallyEvery(lines: seq<string>, kind: string)
    requires OfKind(lines, kind)
    ensures Tally(lines, Begins(kind)) == |lines|
    decreases |lines|
  {
    if lines != [] { TallyEvery(lines[..|lines| - 1], kind); }
  }

  predicate DataPrefix(prefix: string) { prefix == "FN:" || prefix == "FNDA:" || prefix == "DA:" || prefix == "BRDA:" }

  /** No two different line prefixes begin alike. */
  lemma Clashes(prefix: string)
    requires DataPrefix(prefix)
    ensures Clash("SF:", prefix) && Clash("end", prefix)
    ensures Clash("FNF:", prefix) && Clash("FNH:", prefix) && Clash("LF:", prefix) && Clash("LH:", prefix)
    ensures Clash("BRF:", prefix) && Clash("BRH:", prefix)
  {
    assert prefix[0] != 'S' && prefix[0] != 'e' && prefix[0] != 'L';
    assert "SF:"[0] != prefix[0] && "end"[0] != prefix[0] && "LF:"[0] != prefix[0] && "LH:"[0] != prefix[0];
    assert prefix == "DA:" ==> prefix[0] == 'D';
    assert "FNF:"[0] != prefix[0] || "FNF:"[2] != prefix[2];
    assert "FNH:"[0] != prefix[0] || "FNH:"[2] != prefix[2];
    assert "BRF:"[0] != prefix[0] || "BRF:"[2] != prefix[2];
    assert "BRH:"[0] != prefix[0] || "BRH:"[2] != prefix[2];
  }

  lemma DataClashes(prefix: string)
    requires DataPrefix(prefix)
    ensures prefix != "FN:" ==> Clash("FN:", prefix)
    ensures prefix != "FNDA:" ==> Clash("FNDA:", prefix)
    ensures prefix != "DA:" ==> Clash("DA:", prefix)
    ensures prefix != "BRDA:" ==> Clash("BRDA:", prefix)
  {
    assert prefix != "FN:" ==> "FN:"[0] != prefix[0] || "FN:"[2] != prefix[2];
    assert prefix != "FNDA:" ==> "FNDA:"[0] != prefix[0] || "FNDA:"[2] != prefix[2];
    assert prefix != "DA:" ==> "DA:"[0] != prefix[0];
    assert prefix != "BRDA:" ==> "BRDA:"[0] != prefix[0];
  }

  lemma Kinds(o: Collation, r: Record)
    ensures OfKind(FnLines(o, r), "FN:") && OfKind(FndaLines(o, r), "FNDA:")
    ensures OfKind(DaLines(r), "DA:") && OfKind(BrdaLines(r), "BRDA:")
  {
    hide FnEntries, FnCounts, LineEntries, BranchEntries, Decimal, Key;
    assert forall e: (string, int) :: FnRow(e)[..3] == "FN:";
    assert forall e: (string, int) :: FndaRow(e)[..5] == "FNDA:";
    assert forall e: (int, int) :: DaRow(e)[..3] == "DA:";
    assert forall e: (Triple, int) :: BrdaRow(e)[..5] == "BRDA:";
  }

  lemma TallyLine(line: string, p: string -> bool, kind: string, prefix: string)
    requires StartsWith(line, kind) && Under(p, prefix) && Clash(kind, prefix)
    ensures Tally([line], p) == 0
  {
    TallyOther([line], p, kind, prefix);
  }

  lemma TallyTwo(a: string, b: string, p: string -> bool, kind: string, other: string, prefix: string)
    requires StartsWith(a, kind) && StartsWith(b, other) && Under(p, prefix) && Clash(kind, prefix)
             && Clash(other, prefix)
    ensures Tally([a, b], p) == 0
  {
    TallyLine(a, p, kind, prefix);
    TallyLine(b, p, other, prefix);
    TallyConcat([a], [b], p);
    assert [a, b] == [a] + [b];
  }

  lemma TallySummaries(o: Collation, r: Record, p: string -> bool, prefix: string)
    requires DataPrefix(prefix) && Under(p, prefix)
    ensures Tally(FnSummary(o, r), p) == 0 && Tally(LineSummary(r), p) == 0 && Tally(BranchSummary(r), p) == 0
  {
    Clashes(prefix);
    var fnf, fnh := Decimal(|FnEntries(o, r)|), Decimal(Hits(FnCounts(o, r)));
    var lf, lh := Decimal(|LineEntries(r)|), Decimal(Hits(LineEntries(r)));
    var brf, brh := Decimal(|BranchEntries(r)|), Decimal(Hits(BranchEntries(r)));
    hide Clash, Under, Tally, Decimal, FnEntries, FnCounts, LineEntries, BranchEntries, Hits;
    TallyTwo("FNF:" + fnf, "FNH:" + fnh, p, "FNF:", "FNH:", prefix);
    TallyTwo("LF:" + lf, "LH:" + lh, p, "LF:", "LH:", prefix);
    TallyTwo("BRF:" + brf, "BRH:" + brh, p, "BRF:", "BRH:", prefix);
  }

  /** Only the four groups of data lines can count. */
  lemma SectionTally(o: Collation, r: Record, p: string -> bool, prefix: string)
    requires DataPrefix(prefix) && Under(p, prefix)
    ensures Tally(Section(o, r), p) ==
            Tally(FnLines(o, r), p) + Tally(FndaLines(o, r), p) + Tally(DaLines(r), p) + Tally(BrdaLines(r), p)
  {
    TallySummaries(o, r, p, prefix);
    Clashes(prefix);
    TallyLine(SfRow(r.file), p, "SF:", prefix);
    TallyLine(EndRow(), p, "end", prefix);
    hide Under, Tally, Clash, SfRow, EndRow, FnLines, FndaLines, FnSummary, DaLines, LineSummary, BrdaLines,
      BranchSummary;
    TallyConcat(FnLines(o, r), FndaLines(o, r), p);
    TallyConcat(FnLines(o, r) + FndaLines(o, r), FnSummary(o, r), p);
    TallyConcat(DaLines(r), LineSummary(r), p);
    TallyConcat(BrdaLines(r), BranchSummary(r), p);
    TallyConcat(FunctionBlock(o, r), LineBlock(r), p);
    TallyConcat(FunctionBlock(o, r) + LineBlock(r), BranchBlock(r), p);
    TallyConcat([SfRow(r.file)], FunctionBlock(o, r) + LineBlock(r) + BranchBlock(r), p);
    TallyConcat([SfRow(r.file)] + (FunctionBlock(o, r) + LineBlock(r) + BranchBlock(r)), [EndRow()], p);
  }

  /** Lines of the other three groups do not count. */
  lemma OneGroup(o: Collation, r: Record, p: string -> bool, prefix: string)
    requires DataPrefix(prefix) && Under(p, prefix)
    ensures prefix != "FN:" ==> Tally(FnLines(o, r), p) == 0
    ensures prefix != "FNDA:" ==> Tally(FndaLines(o, r), p) == 0
    ensures prefix != "DA:" ==> Tally(DaLines(r), p) == 0
    ensures prefix != "BRDA:" ==> Tally(BrdaLines(r), p) == 0
    ensures Tally(Section(o, r), p) ==
            Tally(FnLines(o, r), p) + Tally(FndaLines(o, r), p) + Tally(DaLines(r), p) + Tally(BrdaLines(r), p)
  {
    SectionTally(o, r, p, prefix);
    Kinds(o, r);
    DataClashes(prefix);
    hide Under, Tally, Clash, OfKind, Section, FnLines, FndaLines, DaLines, BrdaLines, DataPrefix;
    if prefix != "FN:" { TallyOther(FnLines(o, r), p, "FN:", prefix); }
    if prefix != "FNDA:" { TallyOther(FndaLines(o, r), p, "FNDA:", prefix); }
    if prefix != "DA:" { TallyOther(DaLines(r), p, "DA:", prefix); }
    if prefix != "BRDA:" { TallyOther(BrdaLines(r), p, "BRDA:", prefix); }
  }

  // ---- positive counts ----

  lemma PositiveFnda(e: (string, int))
    ensures Positive("FNDA:", 0)(FndaRow(e)) <==> e.1 > 0
  {
    var line := FndaRow(e);
    assert line[..5] == "FNDA:" && line[5..] == Decimal(e.1) + "," + e.0;
    DecimalChars(e.1);
    TwoFields(Decimal(e.1), e.0);
    NumberRoundTrip(e.1);
    hide Decimal, Split, ParseNumber;
  }

  lemma PositiveDa(e: (int, int))
    ensures Positive("DA:", 1)(DaRow(e)) <==> e.1 > 0
  {
    var line := DaRow(e);
    assert line[..3] == "DA:" && line[3..] == Decimal(e.0) + "," + Decimal(e.1);
    DecimalChars(e.0);
    DecimalChars(e.1);
    TwoFields(Decimal(e.0), Decimal(e.1));
    SplitNone(Decimal(e.1), ',');
    NumberRoundTrip(e.1);
    var parts := Split(line[3..], ',');
    assert parts[1] == parts[1..][0];
    hide Decimal, Split, ParseNumber;
  }

  lemma PositiveBrda(e: (Triple, int))
    ensures Positive("BRDA:", 3)(BrdaRow(e)) <==> e.1 > 0
  {
    var line := BrdaRow(e);
    assert line[..5] == "BRDA:" && line[5..] == Key(e.0) + "," + Decimal(e.1);
    DecimalChars(e.1);
    KeyFields(e.0, Decimal(e.1));
    NumberRoundTrip(e.1);
    hide Decimal, Split, ParseNumber;
  }

  lemma {:induction false} HitsAreTallied<K>(row: ((K, int)) -> string, entries: Assoc<K, int>, p: string -> bool)
    requires forall i :: 0 <= i < |entries| ==> (p(row(entries[i])) <==> entries[i].1 > 0)
    ensures Tally(Each(row, entries), p) == Hits(entries)
    decreases |entries|
  {
    if entries != [] {
      var n := |entries| - 1;
      HitsAreTallied(row, entries[..n], p);
      assert Each(row, entries)[..n] == Each(row, entries[..n]);
    }
  }

  // ---- the order of the rows ----

  lemma OrdersComparable(o: Collation)
    requires o.Valid()
    ensures Comparable(o.ByLine()) && Comparable(o.ByName()) && Comparable(o.ByFile())
  {
    forall a: (string, int), b: (string, int)
      ensures (o.ByLine()(a, b) || o.ByLine()(b, a)) && (o.ByName()(a, b) || o.ByName()(b, a))
    {
      assert o.names(a.0, b.0) || o.names(b.0, a.0);
    }
    forall a: (string, Record), b: (string, Record) ensures o.ByFile()(a, b) || o.ByFile()(b, a) {
      assert o.files(a.0, b.0) || o.files(b.0, a.0);
    }
  }

  /** Of two rows in a row, functions come by line and then by name, their counts by name, lines and branches by their
      numbers, and files by name. */
  lemma PrintedInOrder(o: Collation, r: Record, merged: Merged, i: nat)
    requires o.Valid()
    ensures var rows := FnEntries(o, r);
            i + 1 < |rows| ==>
              rows[i].1 < rows[i + 1].1 || (rows[i].1 == rows[i + 1].1 && o.names(rows[i].0, rows[i + 1].0))
    ensures var rows := FnCounts(o, r); i + 1 < |rows| ==> o.names(rows[i].0, rows[i + 1].0)
    ensures var rows := LineEntries(r); i + 1 < |rows| ==> rows[i].0 <= rows[i + 1].0
    ensures var rows := BranchEntries(r);
            i + 1 < |rows| ==>
              var a, b := rows[i].0, rows[i + 1].0;
              a.0 < b.0 || (a.0 == b.0 && (a.1 < b.1 || (a.1 == b.1 && a.2 <= b.2)))
    ensures var rows := Sort(o.ByFile(), merged); i + 1 < |rows| ==> o.files(rows[i].0, rows[i + 1].0)
  {
    OrdersComparable(o);
    SortDoes(o.ByLine(), Each((name: string) => (name, CountOf(r.fnDefs, name)), FunctionNames(r)));
    SortDoes(o.ByName(), r.functions);
    SortDoes(ByLineNo(), r.lines);
    SortDoes(ByTriple(), Numbered(r.branches));
    SortDoes(o.ByFile(), merged);
    hide Sort, FunctionNames, Numbered, CountOf;
  }

  lemma SectionHolds(o: Collation, r: Record)
    ensures forall line ::
              line in FnSummary(o, r) || line in LineSummary(r) || line in BranchSummary(r) ==> line in Section(o, r)
  {
    hide SfRow, EndRow, FnSummary, LineSummary, BranchSummary, FnLines, FndaLines, DaLines, BrdaLines;
  }

  lemma FunctionsFound(o: Collation, r: Record)
    ensures Tally(Section(o, r), Begins("FN:")) == |FnEntries(o, r)|
  {
    Kinds(o, r);
    TallyEvery(FnLines(o, r), "FN:");
    assert |FnLines(o, r)| == |FnEntries(o, r)|;
    assert Under(Begins("FN:"), "FN:");
    hide Section, Tally, Begins, OfKind, Under, FnLines, FndaLines, DaLines, BrdaLines;
    OneGroup(o, r, Begins("FN:"), "FN:");
  }

  lemma FunctionsHit(o: Collation, r: Record)
    ensures Tally(Section(o, r), Positive("FNDA:", 0)) == Hits(FnCounts(o, r))
  {
    var entries := FnCounts(o, r);
    assert Under(Positive("FNDA:", 0), "FNDA:");
    hide Section, Tally, Positive, Under, Hits, FnCounts, FndaRow;
    forall i | 0 <= i < |entries| ensures Positive("FNDA:", 0)(FndaRow(entries[i])) <==> entries[i].1 > 0 {
      PositiveFnda(entries[i]);
    }
    HitsAreTallied(FndaRow, entries, Positive("FNDA:", 0));
    OneGroup(o, r, Positive("FNDA:", 0), "FNDA:");
  }

  lemma LinesFound(o: Collation, r: Record)
    ensures Tally(Section(o, r), Begins("DA:")) == |LineEntries(r)|
  {
    Kinds(o, r);
    TallyEvery(DaLines(r), "DA:");
    assert |DaLines(r)| == |LineEntries(r)|;
    assert Under(Begins("DA:"), "DA:");
    hide Section, Tally, Begins, OfKind, Under, FnLines, FndaLines, DaLines, BrdaLines;
    OneGroup(o, r, Begins("DA:"), "DA:");
  }

  lemma LinesHit(o: Collation, r: Record)
    ensures Tally(Section(o, r), Positive("DA:", 1)) == Hits(LineEntries(r))
  {
    var entries := LineEntries(r);
    assert Under(Positive("DA:", 1), "DA:");
    hide Section, Tally, Positive, Under, Hits, LineEntries, DaRow;
    forall i | 0 <= i < |entries| ensures Positive("DA:", 1)(DaRow(entries[i])) <==> entries[i].1 > 0 {
      PositiveDa(entries[i]);
    }
    HitsAreTallied(DaRow, entries, Positive("DA:", 1));
    OneGroup(o, r, Positive("DA:", 1), "DA:");
  }

  lemma BranchesFound(o: Collation, r: Record)
    ensures Tally(Section(o, r), Begins("BRDA:")) == |BranchEntries(r)|
  {
    Kinds(o, r);
    TallyEvery(BrdaLines(r), "BRDA:");
    assert |BrdaLines(r)| == |BranchEntries(r)|;
    assert Under(Begins("BRDA:"), "BRDA:");
    hide Section, Tally, Begins, OfKind, Under, FnLines, FndaLines, DaLines, BrdaLines;
    OneGroup(o, r, Begins("BRDA:"), "BRDA:");
  }

  lemma BranchesHit(o: Collation, r: Record)
    ensures Tally(Section(o, r), Positive("BRDA:", 3)) == Hits(BranchEntries(r))
  {
    var entries := BranchEntries(r);
    assert Under(Positive("BRDA:", 3), "BRDA:");
    hide Section, Tally, Positive, Under, Hits, BranchEntries, BrdaRow;
    forall i | 0 <= i < |entries| ensures Positive("BRDA:", 3)(BrdaRow(entries[i])) <==> entries[i].1 > 0 {
      PositiveBrda(entries[i]);
    }
    HitsAreTallied(BrdaRow, entries, Positive("BRDA:", 3));
    OneGroup(o, r, Positive("BRDA:", 3), "BRDA:");
  }

  /** Every section of a report holds summary lines that count its own data lines, and those of them with a positive
      count. */
  lemma SummariesHold(o: Collation, r: Record)
    ensures var section := Section(o, r);
            "FNF:" + Decimal(Tally(section, Begins("FN:"))) in section
            && "FNH:" + Decimal(Tally(section, Positive("FNDA:", 0))) in section
            && "LF:" + Decimal(Tally(section, Begins("DA:"))) in section
            && "LH:" + Decimal(Tally(section, Positive("DA:", 1))) in section
            && "BRF:" + Decimal(Tally(section, Begins("BRDA:"))) in section
            && "BRH:" + Decimal(Tally(section, Positive("BRDA:", 3))) in section
  {
    FunctionsFound(o, r);
    FunctionsHit(o, r);
    LinesFound(o, r);
    LinesHit(o, r);
    BranchesFound(o, r);
    BranchesHit(o, r);
    SectionHolds(o, r);
    hide Section, Tally, Begins, Positive, Decimal, Hits, FnEntries, FnCounts, LineEntries, BranchEntries;
    assert FnSummary(o, r)[0] in FnSummary(o, r) && FnSummary(o, r)[1] in FnSummary(o, r);
    assert LineSummary(r)[0] in LineSummary(r) && LineSummary(r)[1] in LineSummary(r);
    assert BranchSummary(r)[0] in BranchSummary(r) && BranchSummary(r)[1] in BranchSummary(r);
  }
}
