/** The cases of dent_test.go, stated as facts about the model. */
module DentExamples {
  import opened Strings
  import opened DentSpec

  /** The IndentString cases on a single line. */
  lemma IndentSingleLineExamples()
    ensures Indented("", "") == ""
    ensures Indented("", "  ") == "  "
    ensures Indented("a", "  ") == "  a"
  {
    SplitNoNewline("");
    SplitNoNewline("a");
  }

  /** The IndentString cases on two lines; a trailing newline gives a last
      line that is the indent alone. */
  lemma IndentMultiLineExamples()
    ensures Indented("a\nb", "  ") == "  a\n  b"
    ensures Indented("a\nb\n", "xxx") == "xxxa\nxxxb\nxxx"
  {
    SplitNoNewline("a");
    SplitNoNewline("b");
    assert "a\nb" == "a" + "\nb" && "\nb"[1..] == "b";
    SplitPrepend("a", "\nb");
    assert Split("a\nb") == ["a", "b"];
    assert "a\nb\n" == "a\nb" + "\n";
    SplitSnoc("a\nb");
    assert Split("a\nb\n") == ["a", "b", ""];
  }

  /** The DedentString cases on a single line. */
  lemma DedentSingleLineExamples()
    ensures Dedented("") == ""
    ensures Dedented("   ") == ""
    ensures Dedented("a") == "a"
  {
    SplitNoNewline("   ");
    SplitNoNewline("a");
  }

  /** A text with several lines, one of which has no blank run and
      qualifies, is returned as it is. */
  lemma DedentUnindented(text: string, k: nat)
    requires '\n' in text
    requires k < |Split(text)| && Qualifies(Split(text)[k]) && LeadingWs(Split(text)[k]) == []
    ensures Dedented(text) == text
  {
    var lines := Split(text);
    SplitSingle(text);
    DedentedOfLines(text, lines);
    CommonIndentEmpty(lines, k);
    TrimEachEmpty(lines);
    JoinSplit(text);
  }

  /** "a\nb" is returned as it is. */
  lemma DedentTwoLinesExample()
    ensures Dedented("a\nb") == "a\nb"
  {
    SplitNoNewline("a");
    SplitNoNewline("b");
    assert "a\nb" == "a" + "\nb" && "\nb"[1..] == "b";
    SplitPrepend("a", "\nb");
    assert Split("a\nb") == ["a", "b"];
    assert LeadingWs("b") == [];
    DedentUnindented("a\nb", 1);
  }

  /** "a\nb\n" is returned as it is: the trailing empty line is kept. */
  lemma DedentTrailingNewlineExample()
    ensures Dedented("a\nb\n") == "a\nb\n"
  {
    SplitNoNewline("a");
    SplitNoNewline("b");
    assert "a\nb" == "a" + "\nb" && "\nb"[1..] == "b";
    SplitPrepend("a", "\nb");
    assert "a\nb\n" == "a\nb" + "\n";
    SplitSnoc("a\nb");
    assert Split("a\nb\n") == ["a", "b", ""];
    assert LeadingWs("b") == [];
    DedentUnindented("a\nb\n", 1);
  }

  /** "  a\nb" is returned as it is: the unindented second line makes the
      common indent empty. */
  lemma DedentFirstLineIndentedExample()
    ensures Dedented("  a\nb") == "  a\nb"
  {
    SplitNoNewline("b");
    SplitNoNewline("  a");
    assert "  a\nb" == "  a" + "\nb" && "\nb"[1..] == "b";
    SplitPrepend("  a", "\nb");
    assert Split("  a\nb") == ["  a", "b"];
    assert LeadingWs("b") == [];
    DedentUnindented("  a\nb", 1);
  }

  /** How the multi-line path treats a text given as newline-free lines whose
      first shortest qualifying line is known. */
  lemma DedentedBy(text: string, lines: seq<string>, j: nat)
    requires |lines| >= 2 && Join(lines) == text
    requires forall i :: 0 <= i < |lines| ==> '\n' !in lines[i]
    requires IsFirstShortest(lines, j)
    ensures Dedented(text) == Join(TrimEach(lines, LeadingWs(lines[j])))
  {
    SplitJoin(lines);
    assert text != [];
    DedentedOfLines(text, lines);
    ChosenIndexSpec(lines);
  }

  /** The lines of the tab-indented case of dent_test.go whose blank lines
      are a tab and two spaces, and the lines it should dedent to. */
  const TabLines: seq<string> := ["", "\ta", "\t  ", "\t    b", "\t  ", "\t        c", ""]
  const TabWant: seq<string> := ["", "a", "  ", "    b", "  ", "        c", ""]

  /** The first tab-indented line is the first shortest qualifying line; the
      blank lines do not qualify. */
  lemma TabLinesChoice()
    ensures IsFirstShortest(TabLines, 1) && LeadingWs(TabLines[1]) == "\t"
  {
    var lines := TabLines;
    LeadingWsUnique(lines[1], "\t");
    LeadingWsUnique(lines[2], lines[2]);
    LeadingWsUnique(lines[3], "\t    ");
    LeadingWsUnique(lines[5], "\t        ");
    assert lines[4] == lines[2];
    assert !Qualifies(lines[0]) && !Qualifies(lines[2]) && !Qualifies(lines[4]) && !Qualifies(lines[6]);
    forall i | 0 <= i < |lines| && Qualifies(lines[i])
      ensures |LeadingWs(lines[1])| <= |LeadingWs(lines[i])|
    {
      assert i == 1 || i == 3 || i == 5;
    }
  }

  /** Every line, the blank ones included, loses the leading tab. */
  lemma DedentTabBlankLinesExample()
    ensures Dedented(Join(TabLines)) == Join(TabWant)
  {
    TabLinesChoice();
    TabLinesNoNewline();
    DedentedBy(Join(TabLines), TabLines, 1);
    TabLinesTrim();
  }

  lemma TabLinesNoNewline()
    ensures forall i :: 0 <= i < |TabLines| ==> '\n' !in TabLines[i]
  {
  }

  /** Where the tab is a literal prefix it goes; elsewhere nothing changes. */
  lemma TabLinesTrim()
    ensures TrimEach(TabLines, "\t") == TabWant
  {
    var out := TrimEach(TabLines, "\t");
    assert out[1] == "a";
    assert out[2] == "  ";
    assert out[3] == "    b";
    assert out[5] == "        c";
  }

  /** The lines of the case of dent_test.go whose blank lines are two spaces
      without a tab; the expected lines are the same as in the case above. */
  const SpaceBlankLines: seq<string> := ["", "\ta", "  ", "\t    b", "  ", "\t        c", ""]

  lemma SpaceBlankLinesChoice()
    ensures IsFirstShortest(SpaceBlankLines, 1) && LeadingWs(SpaceBlankLines[1]) == "\t"
  {
    var lines := SpaceBlankLines;
    LeadingWsUnique(lines[1], "\t");
    LeadingWsUnique(lines[2], lines[2]);
    LeadingWsUnique(lines[3], "\t    ");
    LeadingWsUnique(lines[5], "\t        ");
    assert lines[4] == lines[2];
    assert !Qualifies(lines[0]) && !Qualifies(lines[2]) && !Qualifies(lines[4]) && !Qualifies(lines[6]);
    forall i | 0 <= i < |lines| && Qualifies(lines[i])
      ensures |LeadingWs(lines[1])| <= |LeadingWs(lines[i])|
    {
      assert i == 1 || i == 3 || i == 5;
    }
  }

  lemma SpaceBlankLinesNoNewline()
    ensures forall i :: 0 <= i < |SpaceBlankLines| ==> '\n' !in SpaceBlankLines[i]
  {
  }

  /** The two-space lines do not start with the tab, so they stay as they are. */
  lemma SpaceBlankLinesTrim()
    ensures TrimEach(SpaceBlankLines, "\t") == TabWant
  {
    var out := TrimEach(SpaceBlankLines, "\t");
    assert out[1] == "a";
    assert !("\t" <= SpaceBlankLines[2]) by {
      assert SpaceBlankLines[2][0] == ' ';
    }
    assert out[2] == "  ";
    assert out[3] == "    b";
    assert out[5] == "        c";
  }

  /** The tab-indented lines lose the tab; the two-space lines survive
      verbatim rather than being stripped in part. */
  lemma DedentSpaceBlankLinesExample()
    ensures Dedented(Join(SpaceBlankLines)) == Join(TabWant)
  {
    SpaceBlankLinesChoice();
    SpaceBlankLinesNoNewline();
    DedentedBy(Join(SpaceBlankLines), SpaceBlankLines, 1);
    SpaceBlankLinesTrim();
  }
}
