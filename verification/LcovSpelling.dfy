/** A concrete report that is no fixpoint: one branch of one file, spelled in two ways. */
module LcovSpelling {
  import opened Wrappers
  import opened Assoc
  import opened LcovText
  import opened Lcov
  import opened LcovRoundTrip
  import opened LcovFixpoint
  import opened LcovReport

  function TwoSpellings(): Record {
    EmptyRecord("a").(branches := [("1,0,0", 2), ("01,0,0", 3)])
  }

  /** An input whose report changes when it is merged alone: two spellings of one branch. */
  lemma SpellingsCollide(o: Collation)
    requires o.Valid()
    ensures var contents := ["SF:a" + "\n" + "BRDA:1,0,0,2" + "\n" + "BRDA:01,0,0,3"];
            Report(o, [Report(o, contents)]) != Report(o, contents)
  {
    var content := "SF:a" + "\n" + "BRDA:1,0,0,2" + "\n" + "BRDA:01,0,0,3";
    SpellingsParsed();
    SpellingsMerged();
    SpelledAlike();
    ReportIsFixpoint(o, [content]);
    hide Report, TripleOf, TwoSpellings, ParseAll, Merge, NamesEndClean;
    assert MergedFrom([content])[0].1 == TwoSpellings();
  }

  lemma SpellingsParsed()
    ensures ParseAll(["SF:a" + "\n" + "BRDA:1,0,0,2" + "\n" + "BRDA:01,0,0,3"]) == [TwoSpellings()]
  {
    ThreeLines("SF:a", "BRDA:1,0,0,2", "BRDA:01,0,0,3");
    SpellingsFed();
    hide FeedAll, TwoSpellings;
  }

  lemma ThreeLines(x: string, y: string, z: string)
    requires Plain(x) && Plain(y) && Plain(z)
    ensures ParseAll([x + "\n" + y + "\n" + z]) == ParseLines([x, y, z])
  {
    var content := x + "\n" + y + "\n" + z;
    ParseOne(content);
    assert content == x + "\n" + (y + "\n" + z);
    SplitFirst(x, '\n', y + "\n" + z);
    SplitFirst(y, '\n', z);
    SplitNone(z, '\n');
    assert Split(content, '\n') == [x, y, z];
    assert DropCrs([x, y, z]) == [x, y, z] by {
      DropCrsAt([x, y, z], 0);
      DropCrsAt([x, y, z], 1);
      DropCrsAt([x, y, z], 2);
    }
    assert ParseAll([content]) == ParseLines(DropCrs(Split(content, '\n')));
    hide ParseAll, ParseLines, Split, DropCrs;
  }

  lemma SpellingsMerged()
    ensures Merge([TwoSpellings()]) == [("a", TwoSpellings())]
  {
    var r := TwoSpellings();
    assert [r][..0] == [];
    assert r.branches[0].0[0] != r.branches[1].0[0];
    AddedUp(r.branches);
  }

  lemma SpelledAlike()
    ensures TripleOf("1,0,0") == TripleOf("01,0,0")
    ensures !Apart(TwoSpellings())
  {
    SplitFirst("1", ',', "0,0");
    SplitFirst("01", ',', "0,0");
    assert "1,0,0" == "1" + "," + "0,0" && "01,0,0" == "01" + "," + "0,0";
    OneIsOne();
    hide ParseNumber, Split;
    var numbered := Numbered(TwoSpellings().branches);
    assert numbered[0].0 == numbered[1].0;
  }

  lemma OneIsOne()
    ensures ParseNumber("1") == ParseNumber("01") == 1
  {
    DigitsOfOne();
    DigitsOfZeroOne();
    hide DigitPrefix, Value;
  }

  lemma DigitsOfOne()
    ensures DigitPrefix("1") == "1" && Value("1") == 1
  {
    assert "1"[1..] == "" && DigitPrefix("") == "" && "1"[..0] == "" && Value("") == 0;
  }

  lemma DigitsOfZeroOne()
    ensures DigitPrefix("01") == "01" && Value("01") == 1
  {
    DigitsOfOne();
    assert "01"[1..] == "1" && ['0'] + "1" == "01";
    assert "0"[..0] == "" && Value("") == 0 && Value("0") == 0;
    assert "01"[..1] == "0";
  }

  lemma SpellingsFed()
    ensures FeedAll(Start, ["SF:a", "BRDA:1,0,0,2", "BRDA:01,0,0,3"]) == Parsing([], Some(TwoSpellings()))
  {
    FeedStart("a", []);
    assert SfRow("a") == "SF:a";
    SecondFed();
    ThirdFed();
    FeedThreeLines("SF:a", "BRDA:1,0,0,2", "BRDA:01,0,0,3");
    hide Feed, FeedAll;
  }

  lemma SecondFed()
    ensures Feed(Parsing([], Some(EmptyRecord("a"))), "BRDA:1,0,0,2") ==
            Parsing([], Some(EmptyRecord("a").(branches := [("1,0,0", 2)])))
  {
    assert "BRDA:1,0,0,2" == "BRDA:" + ("1" + "," + "0" + "," + "0" + "," + Decimal(2));
    BranchLine(EmptyRecord("a"), "1", "0", "0", 2);
    SpellingsAdded();
    hide Feed, AddCount, Decimal;
    assert "1" + "," + "0" + "," + "0" == "1,0,0";
  }

  lemma ThirdFed()
    ensures Feed(Parsing([], Some(EmptyRecord("a").(branches := [("1,0,0", 2)]))), "BRDA:01,0,0,3") ==
            Parsing([], Some(TwoSpellings()))
  {
    assert "BRDA:01,0,0,3" == "BRDA:" + ("01" + "," + "0" + "," + "0" + "," + Decimal(3));
    BranchLine(EmptyRecord("a").(branches := [("1,0,0", 2)]), "01", "0", "0", 3);
    SpellingsAdded();
    hide Feed, AddCount, Decimal;
    assert "01" + "," + "0" + "," + "0" == "01,0,0";
  }

  lemma FeedThreeLines(x: string, y: string, z: string)
    ensures FeedAll(Start, [x, y, z]) == Feed(Feed(FeedAll(Start, [x]), y), z)
  {
    hide Feed, FeedAll;
    FeedThree(Start, [x], [y], [z]);
    FeedOne(FeedAll(Start, [x]), y);
    FeedOne(Feed(FeedAll(Start, [x]), y), z);
    assert [x, y, z] == [x] + [y] + [z];
  }

  lemma SpellingsAdded()
    ensures AddCount<string>([], "1,0,0", 2) == [("1,0,0", 2)]
    ensures AddCount([("1,0,0", 2)], "01,0,0", 3) == [("1,0,0", 2), ("01,0,0", 3)]
  {
    assert "1,0,0"[0] != "01,0,0"[0];
    PutDoes([("1,0,0", 2)], "01,0,0", 3);
    assert Lookup([("1,0,0", 2)], "01,0,0") == None;
  }

  /** Branch keys are kept as they are spelled. */
  lemma BranchLine(r: Record, l: string, b: string, c: string, n: nat)
    requires ',' !in l && ',' !in b && ',' !in c
    ensures Feed(Parsing([], Some(r)), "BRDA:" + (l + "," + b + "," + c + "," + Decimal(n))) ==
            Parsing([], Some(r.(branches := AddCount(r.branches, l + "," + b + "," + c, n))))
  {
    var d := Decimal(n);
    var rest := l + "," + b + "," + c + "," + d;
    FeedBrdaLine(r, rest, []);
    DecimalChars(n);
    NumberRoundTrip(n);
    assert d != "-" by { assert IsDigit(d[0]); }
    hide Feed, Decimal, Split, ParseNumber, AddCount;
    assert rest == l + "," + (b + "," + (c + "," + d));
    SplitFirst(l, ',', b + "," + (c + "," + d));
    SplitFirst(b, ',', c + "," + d);
    SplitFirst(c, ',', d);
    SplitNone(d, ',');
    assert Split(rest, ',') == [l, b, c, d];
  }
}
