/** What parsing and merging keep: sound records, and counts that add up. */
module LcovCounts {
  import opened Wrappers
  import opened Assoc
  import opened LcovText
  import opened Lcov

  /** Keys are distinct, functions have names, and branch keys have three fields. */
  ghost predicate RecordSound(r: Record) {
    Distinct(r.lines) && Distinct(r.branches) && Distinct(r.functions) && Distinct(r.fnDefs)
    && !Has(r.functions, "") && !Has(r.fnDefs, "")
    && forall key :: Has(r.branches, key) ==> |Split(key, ',')| == 3
  }

  /** Every file and function name satisfies `p`. */
  ghost predicate NamesAll(r: Record, p: string -> bool) {
    p(r.file)
    && (forall name :: Has(r.functions, name) ==> p(name))
    && (forall name :: Has(r.fnDefs, name) ==> p(name))
  }

  ghost predicate Fine(r: Record, p: string -> bool) { RecordSound(r) && NamesAll(r, p) }

  ghost predicate SuffixClosed(p: string -> bool) {
    forall a, b :: p(a + b) ==> p(b)
  }

  lemma DropPrefix(p: string -> bool, line: string, n: nat)
    requires SuffixClosed(p) && p(line) && n <= |line|
    ensures p(line[n..])
  {
    assert line == line[..n] + line[n..];
  }

  /** A function's name is the end of its line. */
  lemma NameIsSuffix(p: string -> bool, rest: string)
    requires SuffixClosed(p) && p(rest)
    ensures var name := Join(Split(rest, ',')[1..], ','); name == "" || p(name)
  {
    var parts := Split(rest, ',');
    JoinSplit(rest, ',');
    if |parts| > 1 {
      var name := Join(parts[1..], ',');
      assert rest == (parts[0] + [',']) + name;
    }
  }

  lemma BranchKeyFields(rest: string)
    ensures var parts := Split(rest, ',');
            |Split(parts[0] + "," + Part(parts, 1) + "," + Part(parts, 2), ',')| == 3
  {
    var parts := Split(rest, ',');
    var a, b, c := parts[0], Part(parts, 1), Part(parts, 2);
    SplitPieces(rest, ',');
    assert ',' !in a && ',' !in b && ',' !in c;
    assert a + "," + b + "," + c == a + "," + (b + "," + c);
    SplitFirst(a, ',', b + "," + c);
    SplitFirst(b, ',', c);
    SplitNone(c, ',');
  }

  ghost predicate ParsingFine(st: Parsing, p: string -> bool) {
    (forall r :: r in st.records ==> Fine(r, p)) && (st.current.Some? ==> Fine(st.current.value, p))
  }

  lemma FeedKeepsFine(st: Parsing, line: string, p: string -> bool)
    requires SuffixClosed(p) && p(line) && ParsingFine(st, p)
    ensures ParsingFine(Feed(st, line), p)
  {
    hide Distinct, Has, AddCount, Put, Split, Join, ParseNumber, Part, SuffixClosed;
    if line != "" && StartsWith(line, "SF:") {
      DropPrefix(p, line, 3);
      EmptyFine(line[3..], p);
    } else if line != "" && st.current.Some? {
      var r := st.current.value;
      if StartsWith(line, "DA:") {
        var parts := Split(line[3..], ',');
        AddedKeys(r.lines, ParseNumber(parts[0]), ParseNumber(Part(parts, 1)));
      } else if StartsWith(line, "FN:") {
        FeedFnFine(r, line, p);
      } else if StartsWith(line, "FNDA:") {
        FeedFndaFine(r, line, p);
      } else if StartsWith(line, "BRDA:") {
        FeedBrdaFine(r, line[5..], p);
      }
    }
  }

  lemma EmptyFine(file: string, p: string -> bool)
    requires p(file)
    ensures Fine(EmptyRecord(file), p)
  {
  }

  lemma FeedFnFine(r: Record, line: string, p: string -> bool)
    requires Fine(r, p) && SuffixClosed(p) && p(line) && |line| >= 3
    ensures Fine(r.(fnDefs := FeedFn(r.fnDefs, line[3..])), p)
  {
    hide Distinct, Has, Put, Split, Join, ParseNumber, Part, SuffixClosed;
    var parts := Split(line[3..], ',');
    var name := Join(parts[1..], ',');
    DropPrefix(p, line, 3);
    NameIsSuffix(p, line[3..]);
    PutDoes(r.fnDefs, name, ParseNumber(parts[0]));
  }

  lemma FeedFndaFine(r: Record, line: string, p: string -> bool)
    requires Fine(r, p) && SuffixClosed(p) && p(line) && |line| >= 5
    ensures Fine(r.(functions := FeedFnda(r.functions, line[5..])), p)
  {
    hide Distinct, Has, AddCount, Split, Join, ParseNumber, Part, SuffixClosed;
    var parts := Split(line[5..], ',');
    var name := Join(parts[1..], ',');
    DropPrefix(p, line, 5);
    NameIsSuffix(p, line[5..]);
    AddedKeys(r.functions, name, ParseNumber(parts[0]));
  }

  lemma FeedBrdaFine(r: Record, rest: string, p: string -> bool)
    requires Fine(r, p)
    ensures Fine(r.(branches := FeedBrda(r.branches, rest)), p)
  {
    hide Distinct, Has, AddCount, Split, Join, ParseNumber, Part;
    var parts := Split(rest, ',');
    var taken := Part(parts, 3);
    BranchKeyFields(rest);
    AddedKeys(r.branches, parts[0] + "," + Part(parts, 1) + "," + Part(parts, 2),
              if taken == "-" then 0 else ParseNumber(taken));
  }

  ghost predicate LinesAll(lines: seq<string>, p: string -> bool) {
    forall i :: 0 <= i < |lines| ==> p(lines[i])
  }

  lemma {:induction false} FeedAllKeepsFine(st: Parsing, lines: seq<string>, p: string -> bool)
    requires SuffixClosed(p) && LinesAll(lines, p) && ParsingFine(st, p)
    ensures ParsingFine(FeedAll(st, lines), p)
    decreases |lines|
  {
    if lines != [] {
      var n := |lines| - 1;
      FeedAllKeepsFine(st, lines[..n], p);
      FeedKeepsFine(FeedAll(st, lines[..n]), lines[n], p);
    }
  }

  ghost predicate AllFine(records: seq<Record>, p: string -> bool) {
    forall r :: r in records ==> Fine(r, p)
  }

  lemma ParsedFine(lines: seq<string>, p: string -> bool)
    requires SuffixClosed(p) && LinesAll(lines, p)
    ensures AllFine(ParseLines(lines), p)
  {
    hide Fine;
    FeedAllKeepsFine(Start, lines, p);
  }

  // ---- merging ----

  /** Records are filed under their own name, each file once. */
  ghost predicate MergedFine(m: Merged, p: string -> bool) {
    Distinct(m) && forall i :: 0 <= i < |m| ==> m[i].1.file == m[i].0 && Fine(m[i].1, p)
  }

  lemma AbsorbFine(existing: Record, r: Record, p: string -> bool)
    requires Fine(existing, p) && Fine(r, p)
    ensures Fine(Absorb(existing, r), p)
  {
    var after := Absorb(existing, r);
    AddAllDoes(existing.lines, r.lines);
    AddAllDoes(existing.branches, r.branches);
    AddAllDoes(existing.functions, r.functions);
    PutMissingDoes(existing.fnDefs, r.fnDefs);
    hide Distinct, Has, AddAll, PutMissing, Total, CountOf, Split;
    forall name ensures Has(after.fnDefs, name) <==> Has(existing.fnDefs, name) || Has(r.fnDefs, name) {
      assert Lookup(after.fnDefs, name).Some? <==> Has(after.fnDefs, name);
      assert Lookup(existing.fnDefs, name).Some? <==> Has(existing.fnDefs, name);
      assert Lookup(r.fnDefs, name).Some? <==> Has(r.fnDefs, name);
    }
  }

  lemma KnownFine(m: Merged, file: string, p: string -> bool)
    requires MergedFine(m, p) && p(file)
    ensures Fine(Known(m, file), p) && Known(m, file).file == file
  {
    if Lookup(m, file).Some? {
      var i :| 0 <= i < |m| && m[i] == (file, Lookup(m, file).value);
    } else {
      EmptyFine(file, p);
    }
  }

  lemma {:induction false} PutFine(m: Merged, r: Record, p: string -> bool)
    requires MergedFine(m, p) && Fine(r, p)
    ensures MergedFine(Put(m, r.file, r), p)
  {
    hide Fine;
    var after := Put(m, r.file, r);
    PutDoes(m, r.file, r);
    forall i | 0 <= i < |after| ensures after[i].1.file == after[i].0 && Fine(after[i].1, p) {
      assert after[i] in after;
      Found(after, after[i].0, after[i].1);
      assert Lookup(after, after[i].0) == if after[i].0 == r.file then Some(r) else Lookup(m, after[i].0);
    }
  }

  lemma {:induction false} MergeFine(records: seq<Record>, p: string -> bool)
    requires AllFine(records, p)
    ensures MergedFine(Merge(records), p)
    decreases |records|
  {
    if records != [] {
      var n := |records| - 1;
      var r, before := records[n], Merge(records[..n]);
      MergeFine(records[..n], p);
      assert Fine(r, p);
      KnownFine(before, r.file, p);
      AbsorbFine(Known(before, r.file), r, p);
      hide Fine, MergedFine;
      PutFine(before, Absorb(Known(before, r.file), r), p);
    }
  }

  // ---- counts add up ----

  /** The sum over all records of one file. */
  function SumOver(records: seq<Record>, file: string, count: Record -> int): int {
    if records == [] then 0 else
    var r := records[|records| - 1];
    SumOver(records[..|records| - 1], file, count) + if r.file == file then count(r) else 0
  }

  /** The first definition of a function among the records of one file. */
  function FirstDefinition(records: seq<Record>, file: string, name: string): Option<int> {
    if records == [] then None
    else if records[0].file == file && Has(records[0].fnDefs, name) then Lookup(records[0].fnDefs, name)
    else FirstDefinition(records[1..], file, name)
  }

  lemma AbsorbCounts(existing: Record, r: Record, p: string -> bool)
    requires Fine(existing, p) && Fine(r, p)
    ensures forall k :: CountOf(Absorb(existing, r).lines, k) == CountOf(existing.lines, k) + CountOf(r.lines, k)
    ensures forall k ::
              CountOf(Absorb(existing, r).branches, k) == CountOf(existing.branches, k) + CountOf(r.branches, k)
    ensures forall k ::
              CountOf(Absorb(existing, r).functions, k) == CountOf(existing.functions, k) + CountOf(r.functions, k)
  {
    AddAllDoes(existing.lines, r.lines);
    AddAllDoes(existing.branches, r.branches);
    AddAllDoes(existing.functions, r.functions);
    forall k ensures Total(r.lines, k) == CountOf(r.lines, k) { TotalIsCount(r.lines, k); }
    forall k ensures Total(r.branches, k) == CountOf(r.branches, k) { TotalIsCount(r.branches, k); }
    forall k ensures Total(r.functions, k) == CountOf(r.functions, k) { TotalIsCount(r.functions, k); }
    hide Distinct, Has, AddAll, PutMissing, Total, CountOf, Split;
  }

  /** One more record changes only what is known of its own file. */
  lemma MergeStep(records: seq<Record>, file: string, p: string -> bool)
    requires records != [] && AllFine(records, p)
    ensures var n := |records| - 1; var r := records[n];
            Known(Merge(records), file) ==
            if r.file == file then Absorb(Known(Merge(records[..n]), file), r) else Known(Merge(records[..n]), file)
  {
    var n := |records| - 1;
    var r, before := records[n], Merge(records[..n]);
    MergeFine(records[..n], p);
    PutDoes(before, r.file, Absorb(Known(before, r.file), r));
  }

  /** Every merged count is the sum of the counts of all records of that file. */
  lemma {:induction false} MergedCounts(records: seq<Record>, file: string, line: int, key: string, p: string -> bool)
    requires AllFine(records, p) && p(file)
    ensures CountOf(Known(Merge(records), file).lines, line) ==
            SumOver(records, file, (r: Record) => CountOf(r.lines, line))
    ensures CountOf(Known(Merge(records), file).branches, key) ==
            SumOver(records, file, (r: Record) => CountOf(r.branches, key))
    ensures CountOf(Known(Merge(records), file).functions, key) ==
            SumOver(records, file, (r: Record) => CountOf(r.functions, key))
    decreases |records|
  {
    if records != [] {
      var n := |records| - 1;
      MergedCounts(records[..n], file, line, key, p);
      MergeStep(records, file, p);
      MergeFine(records[..n], p);
      KnownFine(Merge(records[..n]), file, p);
      assert Fine(records[n], p);
      AbsorbCounts(Known(Merge(records[..n]), file), records[n], p);
      hide CountOf, Fine, Absorb, Known, Merge, MergedFine;
    }
  }

  /** The line of a function is the one its first definition gave. */
  lemma {:induction false} MergedDefinitions(records: seq<Record>, file: string, name: string, p: string -> bool)
    requires AllFine(records, p) && p(file)
    ensures Lookup(Known(Merge(records), file).fnDefs, name) == FirstDefinition(records, file, name)
    decreases |records|
  {
    if records != [] {
      var n := |records| - 1;
      var before, r := Known(Merge(records[..n]), file), records[n];
      MergedDefinitions(records[..n], file, name, p);
      MergeStep(records, file, p);
      MergeFine(records[..n], p);
      KnownFine(Merge(records[..n]), file, p);
      assert Fine(r, p);
      PutMissingDoes(before.fnDefs, r.fnDefs);
      FirstDefinitionLast(records, file, name);
      assert Lookup(before.fnDefs, name).Some? <==> Has(before.fnDefs, name);
      hide Fine, Known, Merge, MergedFine, Has;
    }
  }

  lemma {:induction false} FirstDefinitionLast(records: seq<Record>, file: string, name: string)
    requires records != []
    ensures var n := |records| - 1; var before := FirstDefinition(records[..n], file, name);
            FirstDefinition(records, file, name) ==
            if before.Some? then before
            else if records[n].file == file then Lookup(records[n].fnDefs, name) else None
    decreases |records|
  {
    var n := |records| - 1;
    assert forall r: Record :: Lookup(r.fnDefs, name).Some? <==> Has(r.fnDefs, name);
    if n > 0 {
      assert records[..n][1..] == records[1..][..n - 1];
      FirstDefinitionLast(records[1..], file, name);
    } else {
      assert records[1..] == [];
    }
  }

  lemma {:induction false} SumOverConcat(a: seq<Record>, b: seq<Record>, file: string, count: Record -> int)
    ensures SumOver(a + b, file, count) == SumOver(a, file, count) + SumOver(b, file, count)
    decreases |b|
  {
    if b == [] {
      assert a + b == a;
    } else {
      var n := |b| - 1;
      SumOverConcat(a, b[..n], file, count);
      assert (a + b)[..|a| + n] == a + b[..n];
    }
  }

  /** The order in which the records come does not matter for any sum. */
  lemma {:induction false} SumInAnyOrder(a: seq<Record>, b: seq<Record>, file: string, count: Record -> int)
    requires multiset(a) == multiset(b)
    ensures SumOver(a, file, count) == SumOver(b, file, count)
    decreases |a|
  {
    assert |multiset(a)| == |a| && |multiset(b)| == |b|;
    if a != [] {
      var n := |a| - 1;
      assert a[n] in multiset(b);
      var i :| 0 <= i < |b| && b[i] == a[n];
      assert a == a[..n] + [a[n]];
      assert b == b[..i] + [b[i]] + b[i + 1..];
      assert multiset(a) == multiset(a[..n]) + multiset{a[n]};
      assert multiset(b) == multiset(b[..i] + b[i + 1..]) + multiset{b[i]};
      assert multiset(a[..n]) == multiset(a) - multiset{a[n]};
      assert multiset(b[..i] + b[i + 1..]) == multiset(b) - multiset{b[i]};
      SumInAnyOrder(a[..n], b[..i] + b[i + 1..], file, count);
      SumOverConcat(b[..i], b[i + 1..], file, count);
      SumOverConcat(b[..i] + [b[i]], b[i + 1..], file, count);
      SumOverConcat(b[..i], [b[i]], file, count);
    }
  }

  /** Merging the records in another order gives every file the same counts. */
  lemma CountsInAnyOrder(a: seq<Record>, b: seq<Record>, file: string, line: int, key: string, p: string -> bool)
    requires multiset(a) == multiset(b) && AllFine(a, p) && p(file)
    ensures CountOf(Known(Merge(a), file).lines, line) == CountOf(Known(Merge(b), file).lines, line)
    ensures CountOf(Known(Merge(a), file).branches, key) == CountOf(Known(Merge(b), file).branches, key)
    ensures CountOf(Known(Merge(a), file).functions, key) == CountOf(Known(Merge(b), file).functions, key)
  {
    forall r | r in b ensures Fine(r, p) {
      assert r in multiset(a);
    }
    MergedCounts(a, file, line, key, p);
    MergedCounts(b, file, line, key, p);
    SumInAnyOrder(a, b, file, (r: Record) => CountOf(r.lines, line));
    SumInAnyOrder(a, b, file, (r: Record) => CountOf(r.branches, key));
    SumInAnyOrder(a, b, file, (r: Record) => CountOf(r.functions, key));
  }
}
