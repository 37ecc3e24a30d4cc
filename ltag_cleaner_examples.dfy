/**
 * The examples of the table cleaner in tests/test_processors.py, one lemma
 * per example. Each example is a text whose lines are written out and put
 * together with newlines (`Join`); where the example holds the `L#` postfix
 * of the test, the lemma is proved for every postfix the cleaner accepts.
 */
module LtagCleanerExamples {
  import opened Text
  import opened LtagCleaner

  /** Two rows, a blank line and a paragraph: nothing to change. (tests/test_processors.py:15-16) */
  lemma SeparateRows(p: string)
    requires Postfix(p)
    ensures Modify(Join(["L#" + p + " | 1 | 2", "L# | 1 | 2", "", "autre texte"])) == Join(["L#" + p + " | 1 | 2", "L# | 1 | 2", "", "autre texte"])
  {
    SeparateRowsLines(p);
    ModifyJoin(["L#" + p + " | 1 | 2", "L# | 1 | 2", "", "autre texte"]);
    SeparateRowsMerged(p);
    SeparateRowsTidied(p);
  }

  lemma SeparateRowsLines(p: string)
    requires Postfix(p)
    ensures AllOneLine(["L#" + p + " | 1 | 2", "L# | 1 | 2", "", "autre texte"])
  {
    var r4: seq<string> := [];
    var r3 := ["autre texte"] + r4;
    var r2 := [""] + r3;
    var r1 := ["L# | 1 | 2"] + r2;
    var r0 := ["L#" + p + " | 1 | 2"] + r1;
    OneLineCons("autre texte", r4);
    OneLineCons("", r3);
    OneLineCons("L# | 1 | 2", r2);
    PostfixLine(p, " | 1 | 2");
    OneLineCons("L#" + p + " | 1 | 2", r1);
    assert ["L#" + p + " | 1 | 2", "L# | 1 | 2", "", "autre texte"] == r0;
  }

  lemma SeparateRowsMerged(p: string)
    requires Postfix(p)
    ensures Merge(["L#" + p + " | 1 | 2", "L# | 1 | 2", "", "autre texte"]) == ["L#" + p + " | 1 | 2"] + (["L# | 1 | 2"] + ([""] + (["autre texte"] + [])))
  {
    var r4: seq<string> := [];
    var r3 := ["autre texte"] + r4;
    var r2 := [""] + r3;
    var r1 := ["L# | 1 | 2"] + r2;
    var r0 := ["L#" + p + " | 1 | 2"] + r1;
    assert ["L#" + p + " | 1 | 2", "L# | 1 | 2", "", "autre texte"] == r0;
    PostfixRow(p, " | 1 | 2");
    MergeRowStart("L#" + p + " | 1 | 2", r1);
    MergeRowStop("L#" + p + " | 1 | 2", r1);
    MergeRowStart("L# | 1 | 2", r2);
    MergeRowStop("L# | 1 | 2", r2);
    MergeLine("", r3);
    MergeLine("autre texte", r4);
  }

  lemma SeparateRowsTidied(p: string)
    requires Postfix(p)
    ensures Tidied(["L#" + p + " | 1 | 2"] + (["L# | 1 | 2"] + ([""] + (["autre texte"] + [])))) == ["L#" + p + " | 1 | 2", "L# | 1 | 2", "", "autre texte"]
  {
    var q4: seq<string> := [];
    var q3 := ["autre texte"] + q4;
    var q2 := [""] + q3;
    var q1 := ["L# | 1 | 2"] + q2;
    var q0 := ["L#" + p + " | 1 | 2"] + q1;
    TidiedCons("L#" + p + " | 1 | 2", q1);
    SeparateRowsRow0(p);
    TidiedCons("L# | 1 | 2", q2);
    SeparateRowsRow1();
    TidiedCons("", q3);
    TidyPlain("");
    TidiedCons("autre texte", q4);
    TidyPlain("autre texte");
    assert ["L#" + p + " | 1 | 2", "L# | 1 | 2", "", "autre texte"] == ["L#" + p + " | 1 | 2"] + (["L# | 1 | 2"] + ([""] + (["autre texte"] + [])));
  }

  /** Rows kept apart by a blank line are not joined. (tests/test_processors.py:18-19) */
  lemma RowsAroundBlank(p: string)
    requires Postfix(p)
    ensures Modify(Join(["L#" + p + " | 1 | 2", "", "L# | 1 | 2", ""])) == Join(["L#" + p + " | 1 | 2", "", "L# | 1 | 2", ""])
  {
    RowsAroundBlankLines(p);
    ModifyJoin(["L#" + p + " | 1 | 2", "", "L# | 1 | 2", ""]);
    RowsAroundBlankMerged(p);
    RowsAroundBlankTidied(p);
  }

  lemma RowsAroundBlankLines(p: string)
    requires Postfix(p)
    ensures AllOneLine(["L#" + p + " | 1 | 2", "", "L# | 1 | 2", ""])
  {
    var r4: seq<string> := [];
    var r3 := [""] + r4;
    var r2 := ["L# | 1 | 2"] + r3;
    var r1 := [""] + r2;
    var r0 := ["L#" + p + " | 1 | 2"] + r1;
    OneLineCons("", r4);
    OneLineCons("L# | 1 | 2", r3);
    OneLineCons("", r2);
    PostfixLine(p, " | 1 | 2");
    OneLineCons("L#" + p + " | 1 | 2", r1);
    assert ["L#" + p + " | 1 | 2", "", "L# | 1 | 2", ""] == r0;
  }

  lemma RowsAroundBlankMerged(p: string)
    requires Postfix(p)
    ensures Merge(["L#" + p + " | 1 | 2", "", "L# | 1 | 2", ""]) == ["L#" + p + " | 1 | 2"] + ([""] + (["L# | 1 | 2"] + ([""] + [])))
  {
    var r4: seq<string> := [];
    var r3 := [""] + r4;
    var r2 := ["L# | 1 | 2"] + r3;
    var r1 := [""] + r2;
    var r0 := ["L#" + p + " | 1 | 2"] + r1;
    assert ["L#" + p + " | 1 | 2", "", "L# | 1 | 2", ""] == r0;
    PostfixRow(p, " | 1 | 2");
    MergeRowStart("L#" + p + " | 1 | 2", r1);
    MergeRowStop("L#" + p + " | 1 | 2", r1);
    MergeLine("", r2);
    MergeRowStart("L# | 1 | 2", r3);
    MergeRowStop("L# | 1 | 2", r3);
    MergeLine("", r4);
  }

  lemma RowsAroundBlankTidied(p: string)
    requires Postfix(p)
    ensures Tidied(["L#" + p + " | 1 | 2"] + ([""] + (["L# | 1 | 2"] + ([""] + [])))) == ["L#" + p + " | 1 | 2", "", "L# | 1 | 2", ""]
  {
    var q4: seq<string> := [];
    var q3 := [""] + q4;
    var q2 := ["L# | 1 | 2"] + q3;
    var q1 := [""] + q2;
    var q0 := ["L#" + p + " | 1 | 2"] + q1;
    TidiedCons("L#" + p + " | 1 | 2", q1);
    SeparateRowsRow0(p);
    TidiedCons("", q2);
    TidyPlain("");
    TidiedCons("L# | 1 | 2", q3);
    SeparateRowsRow1();
    TidiedCons("", q4);
    TidyPlain("");
    assert ["L#" + p + " | 1 | 2", "", "L# | 1 | 2", ""] == ["L#" + p + " | 1 | 2"] + ([""] + (["L# | 1 | 2"] + ([""] + [])));
  }

  /** A line that continues a cell is joined with `<br>`. (tests/test_processors.py:21-22) */
  lemma BrokenCell(p: string)
    requires Postfix(p)
    ensures Modify(Join(["L#" + p + " | 1", "2 | 2", "L# | 1 | 2", "", "", "autre texte"])) == Join(["L#" + p + " | 1<br>2 | 2", "L# | 1 | 2", "", "", "autre texte"])
  {
    BrokenCellLines(p);
    ModifyJoin(["L#" + p + " | 1", "2 | 2", "L# | 1 | 2", "", "", "autre texte"]);
    BrokenCellMerged(p);
    BrokenCellTidied(p);
  }

  lemma BrokenCellLines(p: string)
    requires Postfix(p)
    ensures AllOneLine(["L#" + p + " | 1", "2 | 2", "L# | 1 | 2", "", "", "autre texte"])
  {
    var r6: seq<string> := [];
    var r5 := ["autre texte"] + r6;
    var r4 := [""] + r5;
    var r3 := [""] + r4;
    var r2 := ["L# | 1 | 2"] + r3;
    var r1 := ["2 | 2"] + r2;
    var r0 := ["L#" + p + " | 1"] + r1;
    OneLineCons("autre texte", r6);
    OneLineCons("", r5);
    OneLineCons("", r4);
    OneLineCons("L# | 1 | 2", r3);
    OneLineCons("2 | 2", r2);
    PostfixLine(p, " | 1");
    OneLineCons("L#" + p + " | 1", r1);
    assert ["L#" + p + " | 1", "2 | 2", "L# | 1 | 2", "", "", "autre texte"] == r0;
  }

  lemma BrokenCellMerged(p: string)
    requires Postfix(p)
    ensures Merge(["L#" + p + " | 1", "2 | 2", "L# | 1 | 2", "", "", "autre texte"]) == ["L#" + p + " | 1<br>2 | 2"] + (["L# | 1 | 2"] + ([""] + ([""] + (["autre texte"] + []))))
  {
    var r6: seq<string> := [];
    var r5 := ["autre texte"] + r6;
    var r4 := [""] + r5;
    var r3 := [""] + r4;
    var r2 := ["L# | 1 | 2"] + r3;
    var r1 := ["2 | 2"] + r2;
    var r0 := ["L#" + p + " | 1"] + r1;
    assert ["L#" + p + " | 1", "2 | 2", "L# | 1 | 2", "", "", "autre texte"] == r0;
    PostfixRow(p, " | 1");
    MergeRowStart("L#" + p + " | 1", r1);
    assert "2 | 2"[0] !in Blanks;
    MergeRowGlue("L#" + p + " | 1", "2 | 2", r2);
    GlueIs(p, " | 1", "2 | 2", " | 1<br>2 | 2");
    MergeRowStop("L#" + p + " | 1<br>2 | 2", r2);
    MergeRowStart("L# | 1 | 2", r3);
    MergeRowStop("L# | 1 | 2", r3);
    MergeLine("", r4);
    MergeLine("", r5);
    MergeLine("autre texte", r6);
  }

  lemma BrokenCellTidied(p: string)
    requires Postfix(p)
    ensures Tidied(["L#" + p + " | 1<br>2 | 2"] + (["L# | 1 | 2"] + ([""] + ([""] + (["autre texte"] + []))))) == ["L#" + p + " | 1<br>2 | 2", "L# | 1 | 2", "", "", "autre texte"]
  {
    var q5: seq<string> := [];
    var q4 := ["autre texte"] + q5;
    var q3 := [""] + q4;
    var q2 := [""] + q3;
    var q1 := ["L# | 1 | 2"] + q2;
    var q0 := ["L#" + p + " | 1<br>2 | 2"] + q1;
    TidiedCons("L#" + p + " | 1<br>2 | 2", q1);
    BrokenCellRow0(p);
    TidiedCons("L# | 1 | 2", q2);
    SeparateRowsRow1();
    TidiedCons("", q3);
    TidyPlain("");
    TidiedCons("", q4);
    TidyPlain("");
    TidiedCons("autre texte", q5);
    TidyPlain("autre texte");
    assert ["L#" + p + " | 1<br>2 | 2", "L# | 1 | 2", "", "", "autre texte"] == ["L#" + p + " | 1<br>2 | 2"] + (["L# | 1 | 2"] + ([""] + ([""] + (["autre texte"] + []))));
  }

  /** A line break next to a cell bar is joined directly. (tests/test_processors.py:24-25) */
  lemma BrokenAtBar(p: string)
    requires Postfix(p)
    ensures Modify(Join(["L#" + p + " |", " 12 | 2", "L#" + p + " | 1 ", "| 2", ""])) == Join(["L#" + p + " | 12 | 2", "L#" + p + " | 1 | 2", ""])
  {
    BrokenAtBarLines(p);
    ModifyJoin(["L#" + p + " |", " 12 | 2", "L#" + p + " | 1 ", "| 2", ""]);
    BrokenAtBarMerged(p);
    BrokenAtBarTidied(p);
  }

  lemma BrokenAtBarLines(p: string)
    requires Postfix(p)
    ensures AllOneLine(["L#" + p + " |", " 12 | 2", "L#" + p + " | 1 ", "| 2", ""])
  {
    var r5: seq<string> := [];
    var r4 := [""] + r5;
    var r3 := ["| 2"] + r4;
    var r2 := ["L#" + p + " | 1 "] + r3;
    var r1 := [" 12 | 2"] + r2;
    var r0 := ["L#" + p + " |"] + r1;
    OneLineCons("", r5);
    OneLineCons("| 2", r4);
    PostfixLine(p, " | 1 ");
    OneLineCons("L#" + p + " | 1 ", r3);
    OneLineCons(" 12 | 2", r2);
    PostfixLine(p, " |");
    OneLineCons("L#" + p + " |", r1);
    assert ["L#" + p + " |", " 12 | 2", "L#" + p + " | 1 ", "| 2", ""] == r0;
  }

  lemma BrokenAtBarMerged(p: string)
    requires Postfix(p)
    ensures Merge(["L#" + p + " |", " 12 | 2", "L#" + p + " | 1 ", "| 2", ""]) == ["L#" + p + " | 12 | 2"] + (["L#" + p + " | 1 | 2"] + ([""] + []))
  {
    var r5: seq<string> := [];
    var r4 := [""] + r5;
    var r3 := ["| 2"] + r4;
    var r2 := ["L#" + p + " | 1 "] + r3;
    var r1 := [" 12 | 2"] + r2;
    var r0 := ["L#" + p + " |"] + r1;
    assert ["L#" + p + " |", " 12 | 2", "L#" + p + " | 1 ", "| 2", ""] == r0;
    PostfixRow(p, " |");
    MergeRowStart("L#" + p + " |", r1);
    assert " 12 | 2"[1] !in Blanks;
    MergeRowGlue("L#" + p + " |", " 12 | 2", r2);
    GlueIs(p, " |", " 12 | 2", " | 12 | 2");
    MergeRowStop("L#" + p + " | 12 | 2", r2);
    PostfixRow(p, " | 1 ");
    MergeRowStart("L#" + p + " | 1 ", r3);
    assert "| 2"[0] !in Blanks;
    MergeRowGlue("L#" + p + " | 1 ", "| 2", r4);
    GlueIs(p, " | 1 ", "| 2", " | 1 | 2");
    MergeRowStop("L#" + p + " | 1 | 2", r4);
    MergeLine("", r5);
  }

  lemma BrokenAtBarTidied(p: string)
    requires Postfix(p)
    ensures Tidied(["L#" + p + " | 12 | 2"] + (["L#" + p + " | 1 | 2"] + ([""] + []))) == ["L#" + p + " | 12 | 2", "L#" + p + " | 1 | 2", ""]
  {
    var q3: seq<string> := [];
    var q2 := [""] + q3;
    var q1 := ["L#" + p + " | 1 | 2"] + q2;
    var q0 := ["L#" + p + " | 12 | 2"] + q1;
    TidiedCons("L#" + p + " | 12 | 2", q1);
    BrokenAtBarRow0(p);
    TidiedCons("L#" + p + " | 1 | 2", q2);
    SeparateRowsRow0(p);
    TidiedCons("", q3);
    TidyPlain("");
    assert ["L#" + p + " | 12 | 2", "L#" + p + " | 1 | 2", ""] == ["L#" + p + " | 12 | 2"] + (["L#" + p + " | 1 | 2"] + ([""] + []));
  }

  /** An `L#` inside a cell starts nothing; a digit line is joined with `<br>`. (tests/test_processors.py:27-28) */
  lemma MarkerInCell(p: string)
    requires Postfix(p)
    ensures Modify(Join(["L#" + p + " | 1 L# 2 | 2", "L#" + p + " | 1 | 2", "3", ""])) == Join(["L#" + p + " | 1 L# 2 | 2", "L#" + p + " | 1 | 2<br>3", ""])
  {
    MarkerInCellLines(p);
    ModifyJoin(["L#" + p + " | 1 L# 2 | 2", "L#" + p + " | 1 | 2", "3", ""]);
    MarkerInCellMerged(p);
    MarkerInCellTidied(p);
  }

  lemma MarkerInCellLines(p: string)
    requires Postfix(p)
    ensures AllOneLine(["L#" + p + " | 1 L# 2 | 2", "L#" + p + " | 1 | 2", "3", ""])
  {
    var r4: seq<string> := [];
    var r3 := [""] + r4;
    var r2 := ["3"] + r3;
    var r1 := ["L#" + p + " | 1 | 2"] + r2;
    var r0 := ["L#" + p + " | 1 L# 2 | 2"] + r1;
    OneLineCons("", r4);
    OneLineCons("3", r3);
    PostfixLine(p, " | 1 | 2");
    OneLineCons("L#" + p + " | 1 | 2", r2);
    PostfixLine(p, " | 1 L# 2 | 2");
    OneLineCons("L#" + p + " | 1 L# 2 | 2", r1);
    assert ["L#" + p + " | 1 L# 2 | 2", "L#" + p + " | 1 | 2", "3", ""] == r0;
  }

  lemma MarkerInCellMerged(p: string)
    requires Postfix(p)
    ensures Merge(["L#" + p + " | 1 L# 2 | 2", "L#" + p + " | 1 | 2", "3", ""]) == ["L#" + p + " | 1 L# 2 | 2"] + (["L#" + p + " | 1 | 2<br>3"] + ([""] + []))
  {
    var r4: seq<string> := [];
    var r3 := [""] + r4;
    var r2 := ["3"] + r3;
    var r1 := ["L#" + p + " | 1 | 2"] + r2;
    var r0 := ["L#" + p + " | 1 L# 2 | 2"] + r1;
    assert ["L#" + p + " | 1 L# 2 | 2", "L#" + p + " | 1 | 2", "3", ""] == r0;
    PostfixRow(p, " | 1 L# 2 | 2");
    MergeRowStart("L#" + p + " | 1 L# 2 | 2", r1);
    MergeRowStop("L#" + p + " | 1 L# 2 | 2", r1);
    PostfixRow(p, " | 1 | 2");
    MergeRowStart("L#" + p + " | 1 | 2", r2);
    assert "3"[0] !in Blanks;
    MergeRowGlue("L#" + p + " | 1 | 2", "3", r3);
    GlueIs(p, " | 1 | 2", "3", " | 1 | 2<br>3");
    MergeRowStop("L#" + p + " | 1 | 2<br>3", r3);
    MergeLine("", r4);
  }

  lemma MarkerInCellTidied(p: string)
    requires Postfix(p)
    ensures Tidied(["L#" + p + " | 1 L# 2 | 2"] + (["L#" + p + " | 1 | 2<br>3"] + ([""] + []))) == ["L#" + p + " | 1 L# 2 | 2", "L#" + p + " | 1 | 2<br>3", ""]
  {
    var q3: seq<string> := [];
    var q2 := [""] + q3;
    var q1 := ["L#" + p + " | 1 | 2<br>3"] + q2;
    var q0 := ["L#" + p + " | 1 L# 2 | 2"] + q1;
    TidiedCons("L#" + p + " | 1 L# 2 | 2", q1);
    MarkerInCellRow0(p);
    TidiedCons("L#" + p + " | 1 | 2<br>3", q2);
    MarkerInCellRow1(p);
    TidiedCons("", q3);
    TidyPlain("");
    assert ["L#" + p + " | 1 L# 2 | 2", "L#" + p + " | 1 | 2<br>3", ""] == ["L#" + p + " | 1 L# 2 | 2"] + (["L#" + p + " | 1 | 2<br>3"] + ([""] + []));
  }

  /** A continuation line is joined, the paragraph after the blank line is not. (tests/test_processors.py:30-31) */
  lemma JoinedBeforeParagraph(p: string)
    requires Postfix(p)
    ensures Modify(Join(["L#" + p + " | 12 | 2", "L#" + p + " | 1 | 2", "3", "", "4"])) == Join(["L#" + p + " | 12 | 2", "L#" + p + " | 1 | 2<br>3", "", "4"])
  {
    JoinedBeforeParagraphLines(p);
    ModifyJoin(["L#" + p + " | 12 | 2", "L#" + p + " | 1 | 2", "3", "", "4"]);
    JoinedBeforeParagraphMerged(p);
    JoinedBeforeParagraphTidied(p);
  }

  lemma JoinedBeforeParagraphLines(p: string)
    requires Postfix(p)
    ensures AllOneLine(["L#" + p + " | 12 | 2", "L#" + p + " | 1 | 2", "3", "", "4"])
  {
    var r5: seq<string> := [];
    var r4 := ["4"] + r5;
    var r3 := [""] + r4;
    var r2 := ["3"] + r3;
    var r1 := ["L#" + p + " | 1 | 2"] + r2;
    var r0 := ["L#" + p + " | 12 | 2"] + r1;
    OneLineCons("4", r5);
    OneLineCons("", r4);
    OneLineCons("3", r3);
    PostfixLine(p, " | 1 | 2");
    OneLineCons("L#" + p + " | 1 | 2", r2);
    PostfixLine(p, " | 12 | 2");
    OneLineCons("L#" + p + " | 12 | 2", r1);
    assert ["L#" + p + " | 12 | 2", "L#" + p + " | 1 | 2", "3", "", "4"] == r0;
  }

  lemma JoinedBeforeParagraphMerged(p: string)
    requires Postfix(p)
    ensures Merge(["L#" + p + " | 12 | 2", "L#" + p + " | 1 | 2", "3", "", "4"]) == ["L#" + p + " | 12 | 2"] + (["L#" + p + " | 1 | 2<br>3"] + ([""] + (["4"] + [])))
  {
    var r5: seq<string> := [];
    var r4 := ["4"] + r5;
    var r3 := [""] + r4;
    var r2 := ["3"] + r3;
    var r1 := ["L#" + p + " | 1 | 2"] + r2;
    var r0 := ["L#" + p + " | 12 | 2"] + r1;
    assert ["L#" + p + " | 12 | 2", "L#" + p + " | 1 | 2", "3", "", "4"] == r0;
    PostfixRow(p, " | 12 | 2");
    MergeRowStart("L#" + p + " | 12 | 2", r1);
    MergeRowStop("L#" + p + " | 12 | 2", r1);
    PostfixRow(p, " | 1 | 2");
    MergeRowStart("L#" + p + " | 1 | 2", r2);
    assert "3"[0] !in Blanks;
    MergeRowGlue("L#" + p + " | 1 | 2", "3", r3);
    GlueIs(p, " | 1 | 2", "3", " | 1 | 2<br>3");
    MergeRowStop("L#" + p + " | 1 | 2<br>3", r3);
    MergeLine("", r4);
    MergeLine("4", r5);
  }

  lemma JoinedBeforeParagraphTidied(p: string)
    requires Postfix(p)
    ensures Tidied(["L#" + p + " | 12 | 2"] + (["L#" + p + " | 1 | 2<br>3"] + ([""] + (["4"] + [])))) == ["L#" + p + " | 12 | 2", "L#" + p + " | 1 | 2<br>3", "", "4"]
  {
    var q4: seq<string> := [];
    var q3 := ["4"] + q4;
    var q2 := [""] + q3;
    var q1 := ["L#" + p + " | 1 | 2<br>3"] + q2;
    var q0 := ["L#" + p + " | 12 | 2"] + q1;
    TidiedCons("L#" + p + " | 12 | 2", q1);
    BrokenAtBarRow0(p);
    TidiedCons("L#" + p + " | 1 | 2<br>3", q2);
    MarkerInCellRow1(p);
    TidiedCons("", q3);
    TidyPlain("");
    TidiedCons("4", q4);
    TidyPlain("4");
    assert ["L#" + p + " | 12 | 2", "L#" + p + " | 1 | 2<br>3", "", "4"] == ["L#" + p + " | 12 | 2"] + (["L#" + p + " | 1 | 2<br>3"] + ([""] + (["4"] + [])));
  }

  /** Colon separators become bars; a heading is not joined. (tests/test_processors.py:33-34) */
  lemma ColonsBeforeHeading(p: string)
    requires Postfix(p)
    ensures Modify(Join(["L#" + p + ":1::2", "##Titre"])) == Join(["L#" + p + "|1|2", "##Titre"])
  {
    ColonsBeforeHeadingLines(p);
    ModifyJoin(["L#" + p + ":1::2", "##Titre"]);
    ColonsBeforeHeadingMerged(p);
    ColonsBeforeHeadingTidied(p);
  }

  lemma ColonsBeforeHeadingLines(p: string)
    requires Postfix(p)
    ensures AllOneLine(["L#" + p + ":1::2", "##Titre"])
  {
    var r2: seq<string> := [];
    var r1 := ["##Titre"] + r2;
    var r0 := ["L#" + p + ":1::2"] + r1;
    OneLineCons("##Titre", r2);
    PostfixLine(p, ":1::2");
    OneLineCons("L#" + p + ":1::2", r1);
    assert ["L#" + p + ":1::2", "##Titre"] == r0;
  }

  lemma ColonsBeforeHeadingMerged(p: string)
    requires Postfix(p)
    ensures Merge(["L#" + p + ":1::2", "##Titre"]) == ["L#" + p + ":1::2"] + (["##Titre"] + [])
  {
    var r2: seq<string> := [];
    var r1 := ["##Titre"] + r2;
    var r0 := ["L#" + p + ":1::2"] + r1;
    assert ["L#" + p + ":1::2", "##Titre"] == r0;
    PostfixRow(p, ":1::2");
    MergeRowStart("L#" + p + ":1::2", r1);
    MergeRowStop("L#" + p + ":1::2", r1);
    MergeLine("##Titre", r2);
  }

  lemma ColonsBeforeHeadingTidied(p: string)
    requires Postfix(p)
    ensures Tidied(["L#" + p + ":1::2"] + (["##Titre"] + [])) == ["L#" + p + "|1|2", "##Titre"]
  {
    var q2: seq<string> := [];
    var q1 := ["##Titre"] + q2;
    var q0 := ["L#" + p + ":1::2"] + q1;
    TidiedCons("L#" + p + ":1::2", q1);
    ColonsBeforeHeadingRow0(p);
    TidiedCons("##Titre", q2);
    TidyPlain("##Titre");
    assert ["L#" + p + "|1|2", "##Titre"] == ["L#" + p + "|1|2"] + (["##Titre"] + []);
  }

  /** Double colons become a bar after a blank and a bar. (tests/test_processors.py:36-37) */
  lemma BarAfterBlank(p: string)
    requires Postfix(p)
    ensures Modify(Join(["L#" + p + " |1::2"])) == Join(["L#" + p + " |1|2"])
  {
    BarAfterBlankLines(p);
    ModifyJoin(["L#" + p + " |1::2"]);
    BarAfterBlankMerged(p);
    BarAfterBlankTidied(p);
  }

  lemma BarAfterBlankLines(p: string)
    requires Postfix(p)
    ensures AllOneLine(["L#" + p + " |1::2"])
  {
    var r1: seq<string> := [];
    var r0 := ["L#" + p + " |1::2"] + r1;
    PostfixLine(p, " |1::2");
    OneLineCons("L#" + p + " |1::2", r1);
    assert ["L#" + p + " |1::2"] == r0;
  }

  lemma BarAfterBlankMerged(p: string)
    requires Postfix(p)
    ensures Merge(["L#" + p + " |1::2"]) == ["L#" + p + " |1::2"] + []
  {
    var r1: seq<string> := [];
    var r0 := ["L#" + p + " |1::2"] + r1;
    assert ["L#" + p + " |1::2"] == r0;
    PostfixRow(p, " |1::2");
    MergeRowStart("L#" + p + " |1::2", r1);
    MergeRowStop("L#" + p + " |1::2", r1);
  }

  lemma BarAfterBlankTidied(p: string)
    requires Postfix(p)
    ensures Tidied(["L#" + p + " |1::2"] + []) == ["L#" + p + " |1|2"]
  {
    var q1: seq<string> := [];
    var q0 := ["L#" + p + " |1::2"] + q1;
    TidiedCons("L#" + p + " |1::2", q1);
    BarAfterBlankRow0(p);
    assert ["L#" + p + " |1|2"] == ["L#" + p + " |1|2"] + [];
  }

  /** A single colon after the token becomes a bar. (tests/test_processors.py:39-40) */
  lemma LeadingColon(p: string)
    requires Postfix(p)
    ensures Modify(Join(["L#" + p + ":1::2"])) == Join(["L#" + p + "|1|2"])
  {
    LeadingColonLines(p);
    ModifyJoin(["L#" + p + ":1::2"]);
    LeadingColonMerged(p);
    LeadingColonTidied(p);
  }

  lemma LeadingColonLines(p: string)
    requires Postfix(p)
    ensures AllOneLine(["L#" + p + ":1::2"])
  {
    var r1: seq<string> := [];
    var r0 := ["L#" + p + ":1::2"] + r1;
    PostfixLine(p, ":1::2");
    OneLineCons("L#" + p + ":1::2", r1);
    assert ["L#" + p + ":1::2"] == r0;
  }

  lemma LeadingColonMerged(p: string)
    requires Postfix(p)
    ensures Merge(["L#" + p + ":1::2"]) == ["L#" + p + ":1::2"] + []
  {
    var r1: seq<string> := [];
    var r0 := ["L#" + p + ":1::2"] + r1;
    assert ["L#" + p + ":1::2"] == r0;
    PostfixRow(p, ":1::2");
    MergeRowStart("L#" + p + ":1::2", r1);
    MergeRowStop("L#" + p + ":1::2", r1);
  }

  lemma LeadingColonTidied(p: string)
    requires Postfix(p)
    ensures Tidied(["L#" + p + ":1::2"] + []) == ["L#" + p + "|1|2"]
  {
    var q1: seq<string> := [];
    var q0 := ["L#" + p + ":1::2"] + q1;
    TidiedCons("L#" + p + ":1::2", q1);
    ColonsBeforeHeadingRow0(p);
    assert ["L#" + p + "|1|2"] == ["L#" + p + "|1|2"] + [];
  }

  /** Runs of bars and double colons become one bar; a single colon is text. (tests/test_processors.py:42-43) */
  lemma SeparatorRuns(p: string)
    requires Postfix(p)
    ensures Modify(Join(["L#" + p + "|1:2::3||R#4||||5::::6"])) == Join(["L#" + p + "|1:2|3|R#4|5|6"])
  {
    SeparatorRunsLines(p);
    ModifyJoin(["L#" + p + "|1:2::3||R#4||||5::::6"]);
    SeparatorRunsMerged(p);
    SeparatorRunsTidied(p);
  }

  lemma SeparatorRunsLines(p: string)
    requires Postfix(p)
    ensures AllOneLine(["L#" + p + "|1:2::3||R#4||||5::::6"])
  {
    var r1: seq<string> := [];
    var r0 := ["L#" + p + "|1:2::3||R#4||||5::::6"] + r1;
    PostfixLine(p, "|1:2::3||R#4||||5::::6");
    OneLineCons("L#" + p + "|1:2::3||R#4||||5::::6", r1);
    assert ["L#" + p + "|1:2::3||R#4||||5::::6"] == r0;
  }

  lemma SeparatorRunsMerged(p: string)
    requires Postfix(p)
    ensures Merge(["L#" + p + "|1:2::3||R#4||||5::::6"]) == ["L#" + p + "|1:2::3||R#4||||5::::6"] + []
  {
    var r1: seq<string> := [];
    var r0 := ["L#" + p + "|1:2::3||R#4||||5::::6"] + r1;
    assert ["L#" + p + "|1:2::3||R#4||||5::::6"] == r0;
    PostfixRow(p, "|1:2::3||R#4||||5::::6");
    MergeRowStart("L#" + p + "|1:2::3||R#4||||5::::6", r1);
    MergeRowStop("L#" + p + "|1:2::3||R#4||||5::::6", r1);
  }

  lemma SeparatorRunsTidied(p: string)
    requires Postfix(p)
    ensures Tidied(["L#" + p + "|1:2::3||R#4||||5::::6"] + []) == ["L#" + p + "|1:2|3|R#4|5|6"]
  {
    var q1: seq<string> := [];
    var q0 := ["L#" + p + "|1:2::3||R#4||||5::::6"] + q1;
    TidiedCons("L#" + p + "|1:2::3||R#4||||5::::6", q1);
    SeparatorRunsRow0(p);
    assert ["L#" + p + "|1:2|3|R#4|5|6"] == ["L#" + p + "|1:2|3|R#4|5|6"] + [];
  }

  /** A bar is put in after the token when the cells start at once. (tests/test_processors.py:45-46) */
  lemma MissingBar(p: string)
    requires Postfix(p)
    ensures Modify(Join(["L#" + p + " 1:2"])) == Join(["L#" + p + " |1:2"])
  {
    MissingBarLines(p);
    ModifyJoin(["L#" + p + " 1:2"]);
    MissingBarMerged(p);
    MissingBarTidied(p);
  }

  lemma MissingBarLines(p: string)
    requires Postfix(p)
    ensures AllOneLine(["L#" + p + " 1:2"])
  {
    var r1: seq<string> := [];
    var r0 := ["L#" + p + " 1:2"] + r1;
    PostfixLine(p, " 1:2");
    OneLineCons("L#" + p + " 1:2", r1);
    assert ["L#" + p + " 1:2"] == r0;
  }

  lemma MissingBarMerged(p: string)
    requires Postfix(p)
    ensures Merge(["L#" + p + " 1:2"]) == ["L#" + p + " 1:2"] + []
  {
    var r1: seq<string> := [];
    var r0 := ["L#" + p + " 1:2"] + r1;
    assert ["L#" + p + " 1:2"] == r0;
    PostfixRow(p, " 1:2");
    MergeRowStart("L#" + p + " 1:2", r1);
    MergeRowStop("L#" + p + " 1:2", r1);
  }

  lemma MissingBarTidied(p: string)
    requires Postfix(p)
    ensures Tidied(["L#" + p + " 1:2"] + []) == ["L#" + p + " |1:2"]
  {
    var q1: seq<string> := [];
    var q0 := ["L#" + p + " 1:2"] + q1;
    TidiedCons("L#" + p + " 1:2", q1);
    MissingBarRow0(p);
    assert ["L#" + p + " |1:2"] == ["L#" + p + " |1:2"] + [];
  }

  /** Double colons in the cells become a bar. (tests/test_processors.py:48-49) */
  lemma BarThenColons(p: string)
    requires Postfix(p)
    ensures Modify(Join(["L#" + p + "|1::2"])) == Join(["L#" + p + "|1|2"])
  {
    BarThenColonsLines(p);
    ModifyJoin(["L#" + p + "|1::2"]);
    BarThenColonsMerged(p);
    BarThenColonsTidied(p);
  }

  lemma BarThenColonsLines(p: string)
    requires Postfix(p)
    ensures AllOneLine(["L#" + p + "|1::2"])
  {
    var r1: seq<string> := [];
    var r0 := ["L#" + p + "|1::2"] + r1;
    PostfixLine(p, "|1::2");
    OneLineCons("L#" + p + "|1::2", r1);
    assert ["L#" + p + "|1::2"] == r0;
  }

  lemma BarThenColonsMerged(p: string)
    requires Postfix(p)
    ensures Merge(["L#" + p + "|1::2"]) == ["L#" + p + "|1::2"] + []
  {
    var r1: seq<string> := [];
    var r0 := ["L#" + p + "|1::2"] + r1;
    assert ["L#" + p + "|1::2"] == r0;
    PostfixRow(p, "|1::2");
    MergeRowStart("L#" + p + "|1::2", r1);
    MergeRowStop("L#" + p + "|1::2", r1);
  }

  lemma BarThenColonsTidied(p: string)
    requires Postfix(p)
    ensures Tidied(["L#" + p + "|1::2"] + []) == ["L#" + p + "|1|2"]
  {
    var q1: seq<string> := [];
    var q0 := ["L#" + p + "|1::2"] + q1;
    TidiedCons("L#" + p + "|1::2", q1);
    BarThenColonsRow0(p);
    assert ["L#" + p + "|1|2"] == ["L#" + p + "|1|2"] + [];
  }

  /** Every run of separators becomes one bar; blank cells are kept. (tests/test_processors.py:51-52) */
  lemma MixedSeparators(p: string)
    requires Postfix(p)
    ensures Modify(Join(["L#" + p + "::1::2||3:: ::5|6| |7::8:aussi 8|9"])) == Join(["L#" + p + "|1|2|3| |5|6| |7|8:aussi 8|9"])
  {
    MixedSeparatorsLines(p);
    ModifyJoin(["L#" + p + "::1::2||3:: ::5|6| |7::8:aussi 8|9"]);
    MixedSeparatorsMerged(p);
    MixedSeparatorsTidied(p);
  }

  lemma MixedSeparatorsLines(p: string)
    requires Postfix(p)
    ensures AllOneLine(["L#" + p + "::1::2||3:: ::5|6| |7::8:aussi 8|9"])
  {
    var r1: seq<string> := [];
    var r0 := ["L#" + p + "::1::2||3:: ::5|6| |7::8:aussi 8|9"] + r1;
    PostfixLine(p, "::1::2||3:: ::5|6| |7::8:aussi 8|9");
    OneLineCons("L#" + p + "::1::2||3:: ::5|6| |7::8:aussi 8|9", r1);
    assert ["L#" + p + "::1::2||3:: ::5|6| |7::8:aussi 8|9"] == r0;
  }

  lemma MixedSeparatorsMerged(p: string)
    requires Postfix(p)
    ensures Merge(["L#" + p + "::1::2||3:: ::5|6| |7::8:aussi 8|9"]) == ["L#" + p + "::1::2||3:: ::5|6| |7::8:aussi 8|9"] + []
  {
    var r1: seq<string> := [];
    var r0 := ["L#" + p + "::1::2||3:: ::5|6| |7::8:aussi 8|9"] + r1;
    assert ["L#" + p + "::1::2||3:: ::5|6| |7::8:aussi 8|9"] == r0;
    PostfixRow(p, "::1::2||3:: ::5|6| |7::8:aussi 8|9");
    MergeRowStart("L#" + p + "::1::2||3:: ::5|6| |7::8:aussi 8|9", r1);
    MergeRowStop("L#" + p + "::1::2||3:: ::5|6| |7::8:aussi 8|9", r1);
  }

  lemma MixedSeparatorsTidied(p: string)
    requires Postfix(p)
    ensures Tidied(["L#" + p + "::1::2||3:: ::5|6| |7::8:aussi 8|9"] + []) == ["L#" + p + "|1|2|3| |5|6| |7|8:aussi 8|9"]
  {
    var q1: seq<string> := [];
    var q0 := ["L#" + p + "::1::2||3:: ::5|6| |7::8:aussi 8|9"] + q1;
    TidiedCons("L#" + p + "::1::2||3:: ::5|6| |7::8:aussi 8|9", q1);
    MixedSeparatorsRow0(p);
    assert ["L#" + p + "|1|2|3| |5|6| |7|8:aussi 8|9"] == ["L#" + p + "|1|2|3| |5|6| |7|8:aussi 8|9"] + [];
  }

  /** A free-text row is joined with `<br>` and left as it is. (tests/test_processors.py:54-55) */
  lemma FreeText()
    ensures Modify(Join(["L#~ plein ligne !:: ", "| fds : ", "", "| () a la fin"])) == Join(["L#~ plein ligne !:: <br>| fds : ", "", "| () a la fin"])
  {
    FreeTextAny(" plein ligne !:: ");
    FreeTextRow();
  }

  lemma FreeTextRow()
    ensures "L#~" + " plein ligne !:: " == "L#~ plein ligne !:: "
    ensures "L#~" + " plein ligne !:: " + "<br>" + "| fds : " == "L#~ plein ligne !:: <br>| fds : "
  {
  }

  /** The example holds whatever one-line text follows `L#~`. */
  lemma FreeTextAny(q: string)
    requires OneLine(q)
    ensures Modify(Join(["L#~" + q, "| fds : ", "", "| () a la fin"])) == Join(["L#~" + q + "<br>" + "| fds : ", "", "| () a la fin"])
  {
    var row := "L#~" + q;
    var r4: seq<string> := [];
    var r3 := ["| () a la fin"] + r4;
    var r2 := [""] + r3;
    var r1 := ["| fds : "] + r2;
    var r0 := [row] + r1;
    assert OneLine(row) by {
      AvoidsAppend("L#~", q, {'\n'});
    }
    OneLineCons("| () a la fin", r4);
    OneLineCons("", r3);
    OneLineCons("| fds : ", r2);
    OneLineCons(row, r1);
    assert [row, "| fds : ", "", "| () a la fin"] == r0;
    ModifyJoin(r0);
    FreeTextMerged(q);
    var glued := row + "<br>" + "| fds : ";
    var q2 := ["| () a la fin"] + r4;
    var q1 := [""] + q2;
    TidiedCons(glued, q1);
    assert glued[2] == '~';
    TidyPlain(glued);
    TidiedCons("", q2);
    TidyPlain("");
    TidiedCons("| () a la fin", r4);
    TidyPlain("| () a la fin");
    assert [glued, "", "| () a la fin"] == [glued] + q1;
  }

  lemma FreeTextMerged(q: string)
    ensures Merge(["L#~" + q] + (["| fds : "] + ([""] + (["| () a la fin"] + [])))) == ["L#~" + q + "<br>" + "| fds : "] + ([""] + (["| () a la fin"] + []))
  {
    var row := "L#~" + q;
    var r4: seq<string> := [];
    var r3 := ["| () a la fin"] + r4;
    var r2 := [""] + r3;
    var r1 := ["| fds : "] + r2;
    assert row[0] == 'L' && row[1] == '#' && row[2] == '~';
    MergeRowStart(row, r1);
    assert "| fds : "[0] !in Blanks;
    MergeRowGlue(row, "| fds : ", r2);
    MergeRowStop(row + "<br>" + "| fds : ", r2);
    MergeLine("", r3);
    MergeLine("| () a la fin", r4);
  }

  /** The bar inside an internal link is kept. (tests/test_processors.py:57-58) */
  lemma LinkKept(p: string)
    requires Postfix(p)
    ensures Modify(Join(["L#" + p + " || [[touche/pas|au lien]] : stp::merci "])) == Join(["L#" + p + " | [[touche/pas|au lien]] : stp|merci "])
  {
    LinkKeptLines(p);
    ModifyJoin(["L#" + p + " || [[touche/pas|au lien]] : stp::merci "]);
    LinkKeptMerged(p);
    LinkKeptTidied(p);
  }

  lemma LinkKeptLines(p: string)
    requires Postfix(p)
    ensures AllOneLine(["L#" + p + " || [[touche/pas|au lien]] : stp::merci "])
  {
    var r1: seq<string> := [];
    var r0 := ["L#" + p + " || [[touche/pas|au lien]] : stp::merci "] + r1;
    PostfixLine(p, " || [[touche/pas|au lien]] : stp::merci ");
    OneLineCons("L#" + p + " || [[touche/pas|au lien]] : stp::merci ", r1);
    assert ["L#" + p + " || [[touche/pas|au lien]] : stp::merci "] == r0;
  }

  lemma LinkKeptMerged(p: string)
    requires Postfix(p)
    ensures Merge(["L#" + p + " || [[touche/pas|au lien]] : stp::merci "]) == ["L#" + p + " || [[touche/pas|au lien]] : stp::merci "] + []
  {
    var r1: seq<string> := [];
    var r0 := ["L#" + p + " || [[touche/pas|au lien]] : stp::merci "] + r1;
    assert ["L#" + p + " || [[touche/pas|au lien]] : stp::merci "] == r0;
    PostfixRow(p, " || [[touche/pas|au lien]] : stp::merci ");
    MergeRowStart("L#" + p + " || [[touche/pas|au lien]] : stp::merci ", r1);
    MergeRowStop("L#" + p + " || [[touche/pas|au lien]] : stp::merci ", r1);
  }

  lemma LinkKeptTidied(p: string)
    requires Postfix(p)
    ensures Tidied(["L#" + p + " || [[touche/pas|au lien]] : stp::merci "] + []) == ["L#" + p + " | [[touche/pas|au lien]] : stp|merci "]
  {
    var q1: seq<string> := [];
    var q0 := ["L#" + p + " || [[touche/pas|au lien]] : stp::merci "] + q1;
    TidiedCons("L#" + p + " || [[touche/pas|au lien]] : stp::merci ", q1);
    LinkKeptRow0(p);
    assert ["L#" + p + " | [[touche/pas|au lien]] : stp|merci "] == ["L#" + p + " | [[touche/pas|au lien]] : stp|merci "] + [];
  }

  lemma SeparateRowsRow0Parts0()
    ensures Still(" 1 ")
  {
  }

  lemma SeparateRowsRow0Level0() returns (c: Cells)
    ensures Separated(c) && Front(c) == " 1 " && c.First? && c.text == " 1 "
    ensures Written(WithFront(c, " | 1 ")) == " | 1 "
    ensures Barred(WithFront(c, " | 1 ")) == " | 1 "
  {
    SeparateRowsRow0Parts0();
    c := First(" 1 ");
  }

  lemma SeparateRowsRow0Written1()
    ensures " | 1 " + ("|" + " 2") == " | 1 | 2"
  {
  }

  lemma SeparateRowsRow0Barred1()
    ensures " | 1 " + ("|" + " 2") == " | 1 | 2"
  {
  }

  lemma SeparateRowsRow0Parts1()
    ensures IsRun("|") && Still(" 2")
  {
  }

  lemma SeparateRowsRow0Level1() returns (c: Cells)
    ensures Separated(c) && Front(c) == " 1 " && c.Cell? && c.text == " 2"
    ensures Written(WithFront(c, " | 1 ")) == " | 1 | 2"
    ensures Barred(WithFront(c, " | 1 ")) == " | 1 | 2"
  {
    var i := SeparateRowsRow0Level0();
    SeparateRowsRow0Parts1();
    SeparateRowsRow0Written1();
    SeparateRowsRow0Barred1();
    c := Cell(i, "|", " 2");
  }

  /** The cells of " | 1 | 2". */
  lemma SeparateRowsRow0Cells() returns (cs: Cells)
    ensures Separated(cs) && Front(cs) == " 1 "
    ensures Written(WithFront(cs, " " + "|" + Front(cs))) == " | 1 | 2"
    ensures Barred(WithFront(cs, " " + "|" + Front(cs))) == " | 1 | 2"
  {
    cs := SeparateRowsRow0Level1();
    assert " " + "|" + " 1 " == " | 1 ";
    assert " " + "|" + " 1 " == " | 1 ";
  }

  lemma SeparateRowsRow0(p: string)
    requires Postfix(p)
    ensures Tidy("L#" + p + " | 1 | 2") == "L#" + p + " | 1 | 2"
  {
    var cs := SeparateRowsRow0Cells();
    TidyPostfix(p, " ", "|", cs, " | 1 | 2", " | 1 | 2");
  }

  lemma SeparateRowsRow1()
    ensures Tidy("L# | 1 | 2") == "L# | 1 | 2"
  {
    var cs := SeparateRowsRow0Cells();
    assert "L# | 1 | 2" == "L#" + "" + " | 1 | 2" && "L# | 1 | 2" == "L#" + "" + " | 1 | 2";
    TidyPostfix("", " ", "|", cs, " | 1 | 2", " | 1 | 2");
  }

  lemma BrokenCellRow0Parts0()
    ensures Still(" 1<br>2 ")
  {
  }

  lemma BrokenCellRow0Level0() returns (c: Cells)
    ensures Separated(c) && Front(c) == " 1<br>2 " && c.First? && c.text == " 1<br>2 "
    ensures Written(WithFront(c, " | 1<br>2 ")) == " | 1<br>2 "
    ensures Barred(WithFront(c, " | 1<br>2 ")) == " | 1<br>2 "
  {
    BrokenCellRow0Parts0();
    c := First(" 1<br>2 ");
  }

  lemma BrokenCellRow0Written1()
    ensures " | 1<br>2 " + ("|" + " 2") == " | 1<br>2 | 2"
  {
  }

  lemma BrokenCellRow0Barred1()
    ensures " | 1<br>2 " + ("|" + " 2") == " | 1<br>2 | 2"
  {
  }

  lemma BrokenCellRow0Parts1()
    ensures IsRun("|") && Still(" 2")
  {
  }

  lemma BrokenCellRow0Level1() returns (c: Cells)
    ensures Separated(c) && Front(c) == " 1<br>2 " && c.Cell? && c.text == " 2"
    ensures Written(WithFront(c, " | 1<br>2 ")) == " | 1<br>2 | 2"
    ensures Barred(WithFront(c, " | 1<br>2 ")) == " | 1<br>2 | 2"
  {
    var i := BrokenCellRow0Level0();
    BrokenCellRow0Parts1();
    BrokenCellRow0Written1();
    BrokenCellRow0Barred1();
    c := Cell(i, "|", " 2");
  }

  /** The cells of " | 1<br>2 | 2". */
  lemma BrokenCellRow0Cells() returns (cs: Cells)
    ensures Separated(cs) && Front(cs) == " 1<br>2 "
    ensures Written(WithFront(cs, " " + "|" + Front(cs))) == " | 1<br>2 | 2"
    ensures Barred(WithFront(cs, " " + "|" + Front(cs))) == " | 1<br>2 | 2"
  {
    cs := BrokenCellRow0Level1();
    assert " " + "|" + " 1<br>2 " == " | 1<br>2 ";
    assert " " + "|" + " 1<br>2 " == " | 1<br>2 ";
  }

  lemma BrokenCellRow0(p: string)
    requires Postfix(p)
    ensures Tidy("L#" + p + " | 1<br>2 | 2") == "L#" + p + " | 1<br>2 | 2"
  {
    var cs := BrokenCellRow0Cells();
    TidyPostfix(p, " ", "|", cs, " | 1<br>2 | 2", " | 1<br>2 | 2");
  }

  lemma BrokenAtBarRow0Parts0()
    ensures Still(" 12 ")
  {
  }

  lemma BrokenAtBarRow0Level0() returns (c: Cells)
    ensures Separated(c) && Front(c) == " 12 " && c.First? && c.text == " 12 "
    ensures Written(WithFront(c, " | 12 ")) == " | 12 "
    ensures Barred(WithFront(c, " | 12 ")) == " | 12 "
  {
    BrokenAtBarRow0Parts0();
    c := First(" 12 ");
  }

  lemma BrokenAtBarRow0Written1()
    ensures " | 12 " + ("|" + " 2") == " | 12 | 2"
  {
  }

  lemma BrokenAtBarRow0Barred1()
    ensures " | 12 " + ("|" + " 2") == " | 12 | 2"
  {
  }

  lemma BrokenAtBarRow0Parts1()
    ensures IsRun("|") && Still(" 2")
  {
  }

  lemma BrokenAtBarRow0Level1() returns (c: Cells)
    ensures Separated(c) && Front(c) == " 12 " && c.Cell? && c.text == " 2"
    ensures Written(WithFront(c, " | 12 ")) == " | 12 | 2"
    ensures Barred(WithFront(c, " | 12 ")) == " | 12 | 2"
  {
    var i := BrokenAtBarRow0Level0();
    BrokenAtBarRow0Parts1();
    BrokenAtBarRow0Written1();
    BrokenAtBarRow0Barred1();
    c := Cell(i, "|", " 2");
  }

  /** The cells of " | 12 | 2". */
  lemma BrokenAtBarRow0Cells() returns (cs: Cells)
    ensures Separated(cs) && Front(cs) == " 12 "
    ensures Written(WithFront(cs, " " + "|" + Front(cs))) == " | 12 | 2"
    ensures Barred(WithFront(cs, " " + "|" + Front(cs))) == " | 12 | 2"
  {
    cs := BrokenAtBarRow0Level1();
    assert " " + "|" + " 12 " == " | 12 ";
    assert " " + "|" + " 12 " == " | 12 ";
  }

  lemma BrokenAtBarRow0(p: string)
    requires Postfix(p)
    ensures Tidy("L#" + p + " | 12 | 2") == "L#" + p + " | 12 | 2"
  {
    var cs := BrokenAtBarRow0Cells();
    TidyPostfix(p, " ", "|", cs, " | 12 | 2", " | 12 | 2");
  }

  lemma MarkerInCellRow0Parts0()
    ensures Still(" 1 L# 2 ")
  {
  }

  lemma MarkerInCellRow0Level0() returns (c: Cells)
    ensures Separated(c) && Front(c) == " 1 L# 2 " && c.First? && c.text == " 1 L# 2 "
    ensures Written(WithFront(c, " | 1 L# 2 ")) == " | 1 L# 2 "
    ensures Barred(WithFront(c, " | 1 L# 2 ")) == " | 1 L# 2 "
  {
    MarkerInCellRow0Parts0();
    c := First(" 1 L# 2 ");
  }

  lemma MarkerInCellRow0Written1()
    ensures " | 1 L# 2 " + ("|" + " 2") == " | 1 L# 2 | 2"
  {
  }

  lemma MarkerInCellRow0Barred1()
    ensures " | 1 L# 2 " + ("|" + " 2") == " | 1 L# 2 | 2"
  {
  }

  lemma MarkerInCellRow0Parts1()
    ensures IsRun("|") && Still(" 2")
  {
  }

  lemma MarkerInCellRow0Level1() returns (c: Cells)
    ensures Separated(c) && Front(c) == " 1 L# 2 " && c.Cell? && c.text == " 2"
    ensures Written(WithFront(c, " | 1 L# 2 ")) == " | 1 L# 2 | 2"
    ensures Barred(WithFront(c, " | 1 L# 2 ")) == " | 1 L# 2 | 2"
  {
    var i := MarkerInCellRow0Level0();
    MarkerInCellRow0Parts1();
    MarkerInCellRow0Written1();
    MarkerInCellRow0Barred1();
    c := Cell(i, "|", " 2");
  }

  /** The cells of " | 1 L# 2 | 2". */
  lemma MarkerInCellRow0Cells() returns (cs: Cells)
    ensures Separated(cs) && Front(cs) == " 1 L# 2 "
    ensures Written(WithFront(cs, " " + "|" + Front(cs))) == " | 1 L# 2 | 2"
    ensures Barred(WithFront(cs, " " + "|" + Front(cs))) == " | 1 L# 2 | 2"
  {
    cs := MarkerInCellRow0Level1();
    assert " " + "|" + " 1 L# 2 " == " | 1 L# 2 ";
    assert " " + "|" + " 1 L# 2 " == " | 1 L# 2 ";
  }

  lemma MarkerInCellRow0(p: string)
    requires Postfix(p)
    ensures Tidy("L#" + p + " | 1 L# 2 | 2") == "L#" + p + " | 1 L# 2 | 2"
  {
    var cs := MarkerInCellRow0Cells();
    TidyPostfix(p, " ", "|", cs, " | 1 L# 2 | 2", " | 1 L# 2 | 2");
  }

  lemma MarkerInCellRow1Parts0()
    ensures Still(" 1 ")
  {
  }

  lemma MarkerInCellRow1Level0() returns (c: Cells)
    ensures Separated(c) && Front(c) == " 1 " && c.First? && c.text == " 1 "
    ensures Written(WithFront(c, " | 1 ")) == " | 1 "
    ensures Barred(WithFront(c, " | 1 ")) == " | 1 "
  {
    MarkerInCellRow1Parts0();
    c := First(" 1 ");
  }

  lemma MarkerInCellRow1Written1()
    ensures " | 1 " + ("|" + " 2<br>3") == " | 1 | 2<br>3"
  {
  }

  lemma MarkerInCellRow1Barred1()
    ensures " | 1 " + ("|" + " 2<br>3") == " | 1 | 2<br>3"
  {
  }

  lemma MarkerInCellRow1Parts1()
    ensures IsRun("|") && Still(" 2<br>3")
  {
  }

  lemma MarkerInCellRow1Level1() returns (c: Cells)
    ensures Separated(c) && Front(c) == " 1 " && c.Cell? && c.text == " 2<br>3"
    ensures Written(WithFront(c, " | 1 ")) == " | 1 | 2<br>3"
    ensures Barred(WithFront(c, " | 1 ")) == " | 1 | 2<br>3"
  {
    var i := MarkerInCellRow1Level0();
    MarkerInCellRow1Parts1();
    MarkerInCellRow1Written1();
    MarkerInCellRow1Barred1();
    c := Cell(i, "|", " 2<br>3");
  }

  /** The cells of " | 1 | 2<br>3". */
  lemma MarkerInCellRow1Cells() returns (cs: Cells)
    ensures Separated(cs) && Front(cs) == " 1 "
    ensures Written(WithFront(cs, " " + "|" + Front(cs))) == " | 1 | 2<br>3"
    ensures Barred(WithFront(cs, " " + "|" + Front(cs))) == " | 1 | 2<br>3"
  {
    cs := MarkerInCellRow1Level1();
    assert " " + "|" + " 1 " == " | 1 ";
    assert " " + "|" + " 1 " == " | 1 ";
  }

  lemma MarkerInCellRow1(p: string)
    requires Postfix(p)
    ensures Tidy("L#" + p + " | 1 | 2<br>3") == "L#" + p + " | 1 | 2<br>3"
  {
    var cs := MarkerInCellRow1Cells();
    TidyPostfix(p, " ", "|", cs, " | 1 | 2<br>3", " | 1 | 2<br>3");
  }

  lemma ColonsBeforeHeadingRow0Parts0()
    ensures Still("1")
  {
  }

  lemma ColonsBeforeHeadingRow0Level0() returns (c: Cells)
    ensures Separated(c) && Front(c) == "1" && c.First? && c.text == "1"
    ensures Written(WithFront(c, ":1")) == ":1"
    ensures Barred(WithFront(c, "|1")) == "|1"
  {
    ColonsBeforeHeadingRow0Parts0();
    c := First("1");
  }

  lemma ColonsBeforeHeadingRow0Written1()
    ensures ":1" + ("::" + "2") == ":1::2"
  {
  }

  lemma ColonsBeforeHeadingRow0Barred1()
    ensures "|1" + ("|" + "2") == "|1|2"
  {
  }

  lemma ColonsBeforeHeadingRow0Parts1()
    ensures IsRun("::") && Still("2")
  {
  }

  lemma ColonsBeforeHeadingRow0Level1() returns (c: Cells)
    ensures Separated(c) && Front(c) == "1" && c.Cell? && c.text == "2"
    ensures Written(WithFront(c, ":1")) == ":1::2"
    ensures Barred(WithFront(c, "|1")) == "|1|2"
  {
    var i := ColonsBeforeHeadingRow0Level0();
    ColonsBeforeHeadingRow0Parts1();
    ColonsBeforeHeadingRow0Written1();
    ColonsBeforeHeadingRow0Barred1();
    c := Cell(i, "::", "2");
  }

  /** The cells of ":1::2". */
  lemma ColonsBeforeHeadingRow0Cells() returns (cs: Cells)
    ensures Separated(cs) && Front(cs) == "1"
    ensures Written(WithFront(cs, "" + ":" + Front(cs))) == ":1::2"
    ensures Barred(WithFront(cs, "" + "|" + Front(cs))) == "|1|2"
  {
    cs := ColonsBeforeHeadingRow0Level1();
    assert "" + ":" + "1" == ":1";
    assert "" + "|" + "1" == "|1";
  }

  lemma ColonsBeforeHeadingRow0(p: string)
    requires Postfix(p)
    ensures Tidy("L#" + p + ":1::2") == "L#" + p + "|1|2"
  {
    var cs := ColonsBeforeHeadingRow0Cells();
    TidyPostfix(p, "", ":", cs, ":1::2", "|1|2");
  }

  lemma BarAfterBlankRow0Parts0()
    ensures Still("1")
  {
  }

  lemma BarAfterBlankRow0Level0() returns (c: Cells)
    ensures Separated(c) && Front(c) == "1" && c.First? && c.text == "1"
    ensures Written(WithFront(c, " |1")) == " |1"
    ensures Barred(WithFront(c, " |1")) == " |1"
  {
    BarAfterBlankRow0Parts0();
    c := First("1");
  }

  lemma BarAfterBlankRow0Written1()
    ensures " |1" + ("::" + "2") == " |1::2"
  {
  }

  lemma BarAfterBlankRow0Barred1()
    ensures " |1" + ("|" + "2") == " |1|2"
  {
  }

  lemma BarAfterBlankRow0Parts1()
    ensures IsRun("::") && Still("2")
  {
  }

  lemma BarAfterBlankRow0Level1() returns (c: Cells)
    ensures Separated(c) && Front(c) == "1" && c.Cell? && c.text == "2"
    ensures Written(WithFront(c, " |1")) == " |1::2"
    ensures Barred(WithFront(c, " |1")) == " |1|2"
  {
    var i := BarAfterBlankRow0Level0();
    BarAfterBlankRow0Parts1();
    BarAfterBlankRow0Written1();
    BarAfterBlankRow0Barred1();
    c := Cell(i, "::", "2");
  }

  /** The cells of " |1::2". */
  lemma BarAfterBlankRow0Cells() returns (cs: Cells)
    ensures Separated(cs) && Front(cs) == "1"
    ensures Written(WithFront(cs, " " + "|" + Front(cs))) == " |1::2"
    ensures Barred(WithFront(cs, " " + "|" + Front(cs))) == " |1|2"
  {
    cs := BarAfterBlankRow0Level1();
    assert " " + "|" + "1" == " |1";
    assert " " + "|" + "1" == " |1";
  }

  lemma BarAfterBlankRow0(p: string)
    requires Postfix(p)
    ensures Tidy("L#" + p + " |1::2") == "L#" + p + " |1|2"
  {
    var cs := BarAfterBlankRow0Cells();
    TidyPostfix(p, " ", "|", cs, " |1::2", " |1|2");
  }

  lemma SeparatorRunsRow0Parts0()
    ensures Still("1:2")
  {
  }

  lemma SeparatorRunsRow0Level0() returns (c: Cells)
    ensures Separated(c) && Front(c) == "1:2" && c.First? && c.text == "1:2"
    ensures Written(WithFront(c, "|1:2")) == "|1:2"
    ensures Barred(WithFront(c, "|1:2")) == "|1:2"
  {
    SeparatorRunsRow0Parts0();
    c := First("1:2");
  }

  lemma SeparatorRunsRow0Written1()
    ensures "|1:2" + ("::" + "3") == "|1:2::3"
  {
  }

  lemma SeparatorRunsRow0Barred1()
    ensures "|1:2" + ("|" + "3") == "|1:2|3"
  {
  }

  lemma SeparatorRunsRow0Parts1()
    ensures IsRun("::") && Still("3")
  {
  }

  lemma SeparatorRunsRow0Level1() returns (c: Cells)
    ensures Separated(c) && Front(c) == "1:2" && c.Cell? && c.text == "3"
    ensures Written(WithFront(c, "|1:2")) == "|1:2::3"
    ensures Barred(WithFront(c, "|1:2")) == "|1:2|3"
  {
    var i := SeparatorRunsRow0Level0();
    SeparatorRunsRow0Parts1();
    SeparatorRunsRow0Written1();
    SeparatorRunsRow0Barred1();
    c := Cell(i, "::", "3");
  }

  lemma SeparatorRunsRow0Written2()
    ensures "|1:2::3" + ("||" + "R#4") == "|1:2::3||R#4"
  {
  }

  lemma SeparatorRunsRow0Barred2()
    ensures "|1:2|3" + ("|" + "R#4") == "|1:2|3|R#4"
  {
  }

  lemma SeparatorRunsRow0Parts2()
    ensures IsRun("||") && Still("R#4")
  {
  }

  lemma SeparatorRunsRow0Level2() returns (c: Cells)
    ensures Separated(c) && Front(c) == "1:2" && c.Cell? && c.text == "R#4"
    ensures Written(WithFront(c, "|1:2")) == "|1:2::3||R#4"
    ensures Barred(WithFront(c, "|1:2")) == "|1:2|3|R#4"
  {
    var i := SeparatorRunsRow0Level1();
    SeparatorRunsRow0Parts2();
    SeparatorRunsRow0Written2();
    SeparatorRunsRow0Barred2();
    c := Cell(i, "||", "R#4");
  }

  lemma SeparatorRunsRow0Written3()
    ensures "|1:2::3||R#4" + ("||||" + "5") == "|1:2::3||R#4||||5"
  {
  }

  lemma SeparatorRunsRow0Barred3()
    ensures "|1:2|3|R#4" + ("|" + "5") == "|1:2|3|R#4|5"
  {
  }

  lemma SeparatorRunsRow0Parts3()
    ensures IsRun("||||") && Still("5")
  {
  }

  lemma SeparatorRunsRow0Level3() returns (c: Cells)
    ensures Separated(c) && Front(c) == "1:2" && c.Cell? && c.text == "5"
    ensures Written(WithFront(c, "|1:2")) == "|1:2::3||R#4||||5"
    ensures Barred(WithFront(c, "|1:2")) == "|1:2|3|R#4|5"
  {
    var i := SeparatorRunsRow0Level2();
    SeparatorRunsRow0Parts3();
    SeparatorRunsRow0Written3();
    SeparatorRunsRow0Barred3();
    c := Cell(i, "||||", "5");
  }

  lemma SeparatorRunsRow0Written4()
    ensures "|1:2::3||R#4||||5" + ("::::" + "6") == "|1:2::3||R#4||||5::::6"
  {
  }

  lemma SeparatorRunsRow0Barred4()
    ensures "|1:2|3|R#4|5" + ("|" + "6") == "|1:2|3|R#4|5|6"
  {
  }

  lemma SeparatorRunsRow0Parts4()
    ensures IsRun("::::") && Still("6")
  {
  }

  lemma SeparatorRunsRow0Level4() returns (c: Cells)
    ensures Separated(c) && Front(c) == "1:2" && c.Cell? && c.text == "6"
    ensures Written(WithFront(c, "|1:2")) == "|1:2::3||R#4||||5::::6"
    ensures Barred(WithFront(c, "|1:2")) == "|1:2|3|R#4|5|6"
  {
    var i := SeparatorRunsRow0Level3();
    SeparatorRunsRow0Parts4();
    SeparatorRunsRow0Written4();
    SeparatorRunsRow0Barred4();
    c := Cell(i, "::::", "6");
  }

  /** The cells of "|1:2::3||R#4||||5::::6". */
  lemma SeparatorRunsRow0Cells() returns (cs: Cells)
    ensures Separated(cs) && Front(cs) == "1:2"
    ensures Written(WithFront(cs, "" + "|" + Front(cs))) == "|1:2::3||R#4||||5::::6"
    ensures Barred(WithFront(cs, "" + "|" + Front(cs))) == "|1:2|3|R#4|5|6"
  {
    cs := SeparatorRunsRow0Level4();
    assert "" + "|" + "1:2" == "|1:2";
    assert "" + "|" + "1:2" == "|1:2";
  }

  lemma SeparatorRunsRow0(p: string)
    requires Postfix(p)
    ensures Tidy("L#" + p + "|1:2::3||R#4||||5::::6") == "L#" + p + "|1:2|3|R#4|5|6"
  {
    var cs := SeparatorRunsRow0Cells();
    TidyPostfix(p, "", "|", cs, "|1:2::3||R#4||||5::::6", "|1:2|3|R#4|5|6");
  }

  lemma MissingBarRow0Parts0()
    ensures Still("1:2")
  {
  }

  lemma MissingBarRow0Level0() returns (c: Cells)
    ensures Separated(c) && Front(c) == "1:2" && c.First? && c.text == "1:2"
    ensures Written(WithFront(c, " 1:2")) == " 1:2"
    ensures Barred(WithFront(c, " |1:2")) == " |1:2"
  {
    MissingBarRow0Parts0();
    c := First("1:2");
  }

  /** The cells of " 1:2". */
  lemma MissingBarRow0Cells() returns (cs: Cells)
    ensures Separated(cs) && Front(cs) == "1:2"
    ensures Written(WithFront(cs, " " + "" + Front(cs))) == " 1:2"
    ensures Barred(WithFront(cs, " " + "|" + Front(cs))) == " |1:2"
  {
    cs := MissingBarRow0Level0();
    assert " " + "" + "1:2" == " 1:2";
    assert " " + "|" + "1:2" == " |1:2";
  }

  lemma MissingBarRow0(p: string)
    requires Postfix(p)
    ensures Tidy("L#" + p + " 1:2") == "L#" + p + " |1:2"
  {
    var cs := MissingBarRow0Cells();
    TidyPostfix(p, " ", "", cs, " 1:2", " |1:2");
  }

  lemma BarThenColonsRow0Parts0()
    ensures Still("1")
  {
  }

  lemma BarThenColonsRow0Level0() returns (c: Cells)
    ensures Separated(c) && Front(c) == "1" && c.First? && c.text == "1"
    ensures Written(WithFront(c, "|1")) == "|1"
    ensures Barred(WithFront(c, "|1")) == "|1"
  {
    BarThenColonsRow0Parts0();
    c := First("1");
  }

  lemma BarThenColonsRow0Written1()
    ensures "|1" + ("::" + "2") == "|1::2"
  {
  }

  lemma BarThenColonsRow0Barred1()
    ensures "|1" + ("|" + "2") == "|1|2"
  {
  }

  lemma BarThenColonsRow0Parts1()
    ensures IsRun("::") && Still("2")
  {
  }

  lemma BarThenColonsRow0Level1() returns (c: Cells)
    ensures Separated(c) && Front(c) == "1" && c.Cell? && c.text == "2"
    ensures Written(WithFront(c, "|1")) == "|1::2"
    ensures Barred(WithFront(c, "|1")) == "|1|2"
  {
    var i := BarThenColonsRow0Level0();
    BarThenColonsRow0Parts1();
    BarThenColonsRow0Written1();
    BarThenColonsRow0Barred1();
    c := Cell(i, "::", "2");
  }

  /** The cells of "|1::2". */
  lemma BarThenColonsRow0Cells() returns (cs: Cells)
    ensures Separated(cs) && Front(cs) == "1"
    ensures Written(WithFront(cs, "" + "|" + Front(cs))) == "|1::2"
    ensures Barred(WithFront(cs, "" + "|" + Front(cs))) == "|1|2"
  {
    cs := BarThenColonsRow0Level1();
    assert "" + "|" + "1" == "|1";
    assert "" + "|" + "1" == "|1";
  }

  lemma BarThenColonsRow0(p: string)
    requires Postfix(p)
    ensures Tidy("L#" + p + "|1::2") == "L#" + p + "|1|2"
  {
    var cs := BarThenColonsRow0Cells();
    TidyPostfix(p, "", "|", cs, "|1::2", "|1|2");
  }

  lemma MixedSeparatorsRow0Parts0()
    ensures Still("1")
  {
  }

  lemma MixedSeparatorsRow0Level0() returns (c: Cells)
    ensures Separated(c) && Front(c) == "1" && c.First? && c.text == "1"
    ensures Written(WithFront(c, "::1")) == "::1"
    ensures Barred(WithFront(c, "|1")) == "|1"
  {
    MixedSeparatorsRow0Parts0();
    c := First("1");
  }

  lemma MixedSeparatorsRow0Written1()
    ensures "::1" + ("::" + "2") == "::1::2"
  {
  }

  lemma MixedSeparatorsRow0Barred1()
    ensures "|1" + ("|" + "2") == "|1|2"
  {
  }

  lemma MixedSeparatorsRow0Parts1()
    ensures IsRun("::") && Still("2")
  {
  }

  lemma MixedSeparatorsRow0Level1() returns (c: Cells)
    ensures Separated(c) && Front(c) == "1" && c.Cell? && c.text == "2"
    ensures Written(WithFront(c, "::1")) == "::1::2"
    ensures Barred(WithFront(c, "|1")) == "|1|2"
  {
    var i := MixedSeparatorsRow0Level0();
    MixedSeparatorsRow0Parts1();
    MixedSeparatorsRow0Written1();
    MixedSeparatorsRow0Barred1();
    c := Cell(i, "::", "2");
  }

  lemma MixedSeparatorsRow0Written2()
    ensures "::1::2" + ("||" + "3") == "::1::2||3"
  {
  }

  lemma MixedSeparatorsRow0Barred2()
    ensures "|1|2" + ("|" + "3") == "|1|2|3"
  {
  }

  lemma MixedSeparatorsRow0Parts2()
    ensures IsRun("||") && Still("3")
  {
  }

  lemma MixedSeparatorsRow0Level2() returns (c: Cells)
    ensures Separated(c) && Front(c) == "1" && c.Cell? && c.text == "3"
    ensures Written(WithFront(c, "::1")) == "::1::2||3"
    ensures Barred(WithFront(c, "|1")) == "|1|2|3"
  {
    var i := MixedSeparatorsRow0Level1();
    MixedSeparatorsRow0Parts2();
    MixedSeparatorsRow0Written2();
    MixedSeparatorsRow0Barred2();
    c := Cell(i, "||", "3");
  }

  lemma MixedSeparatorsRow0Written3()
    ensures "::1::2||3" + ("::" + " ") == "::1::2||3:: "
  {
  }

  lemma MixedSeparatorsRow0Barred3()
    ensures "|1|2|3" + ("|" + " ") == "|1|2|3| "
  {
  }

  lemma MixedSeparatorsRow0Parts3()
    ensures IsRun("::") && Still(" ")
  {
  }

  lemma MixedSeparatorsRow0Level3() returns (c: Cells)
    ensures Separated(c) && Front(c) == "1" && c.Cell? && c.text == " "
    ensures Written(WithFront(c, "::1")) == "::1::2||3:: "
    ensures Barred(WithFront(c, "|1")) == "|1|2|3| "
  {
    var i := MixedSeparatorsRow0Level2();
    MixedSeparatorsRow0Parts3();
    MixedSeparatorsRow0Written3();
    MixedSeparatorsRow0Barred3();
    c := Cell(i, "::", " ");
  }

  lemma MixedSeparatorsRow0Written4()
    ensures "::1::2||3:: " + ("::" + "5") == "::1::2||3:: ::5"
  {
  }

  lemma MixedSeparatorsRow0Barred4()
    ensures "|1|2|3| " + ("|" + "5") == "|1|2|3| |5"
  {
  }

  lemma MixedSeparatorsRow0Parts4()
    ensures IsRun("::") && Still("5")
  {
  }

  lemma MixedSeparatorsRow0Level4() returns (c: Cells)
    ensures Separated(c) && Front(c) == "1" && c.Cell? && c.text == "5"
    ensures Written(WithFront(c, "::1")) == "::1::2||3:: ::5"
    ensures Barred(WithFront(c, "|1")) == "|1|2|3| |5"
  {
    var i := MixedSeparatorsRow0Level3();
    MixedSeparatorsRow0Parts4();
    MixedSeparatorsRow0Written4();
    MixedSeparatorsRow0Barred4();
    c := Cell(i, "::", "5");
  }

  lemma MixedSeparatorsRow0Written5()
    ensures "::1::2||3:: ::5" + ("|" + "6") == "::1::2||3:: ::5|6"
  {
  }

  lemma MixedSeparatorsRow0Barred5()
    ensures "|1|2|3| |5" + ("|" + "6") == "|1|2|3| |5|6"
  {
  }

  lemma MixedSeparatorsRow0Parts5()
    ensures IsRun("|") && Still("6")
  {
  }

  lemma MixedSeparatorsRow0Level5() returns (c: Cells)
    ensures Separated(c) && Front(c) == "1" && c.Cell? && c.text == "6"
    ensures Written(WithFront(c, "::1")) == "::1::2||3:: ::5|6"
    ensures Barred(WithFront(c, "|1")) == "|1|2|3| |5|6"
  {
    var i := MixedSeparatorsRow0Level4();
    MixedSeparatorsRow0Parts5();
    MixedSeparatorsRow0Written5();
    MixedSeparatorsRow0Barred5();
    c := Cell(i, "|", "6");
  }

  lemma MixedSeparatorsRow0Written6()
    ensures "::1::2||3:: ::5|6" + ("|" + " ") == "::1::2||3:: ::5|6| "
  {
  }

  lemma MixedSeparatorsRow0Barred6()
    ensures "|1|2|3| |5|6" + ("|" + " ") == "|1|2|3| |5|6| "
  {
  }

  lemma MixedSeparatorsRow0Parts6()
    ensures IsRun("|") && Still(" ")
  {
  }

  lemma MixedSeparatorsRow0Level6() returns (c: Cells)
    ensures Separated(c) && Front(c) == "1" && c.Cell? && c.text == " "
    ensures Written(WithFront(c, "::1")) == "::1::2||3:: ::5|6| "
    ensures Barred(WithFront(c, "|1")) == "|1|2|3| |5|6| "
  {
    var i := MixedSeparatorsRow0Level5();
    MixedSeparatorsRow0Parts6();
    MixedSeparatorsRow0Written6();
    MixedSeparatorsRow0Barred6();
    c := Cell(i, "|", " ");
  }

  lemma MixedSeparatorsRow0Written7()
    ensures "::1::2||3:: ::5|6| " + ("|" + "7") == "::1::2||3:: ::5|6| |7"
  {
  }

  lemma MixedSeparatorsRow0Barred7()
    ensures "|1|2|3| |5|6| " + ("|" + "7") == "|1|2|3| |5|6| |7"
  {
  }

  lemma MixedSeparatorsRow0Parts7()
    ensures IsRun("|") && Still("7")
  {
  }

  lemma MixedSeparatorsRow0Level7() returns (c: Cells)
    ensures Separated(c) && Front(c) == "1" && c.Cell? && c.text == "7"
    ensures Written(WithFront(c, "::1")) == "::1::2||3:: ::5|6| |7"
    ensures Barred(WithFront(c, "|1")) == "|1|2|3| |5|6| |7"
  {
    var i := MixedSeparatorsRow0Level6();
    MixedSeparatorsRow0Parts7();
    MixedSeparatorsRow0Written7();
    MixedSeparatorsRow0Barred7();
    c := Cell(i, "|", "7");
  }

  lemma MixedSeparatorsRow0Written8()
    ensures "::1::2||3:: ::5|6| |7" + ("::" + "8:aussi 8") == "::1::2||3:: ::5|6| |7::8:aussi 8"
  {
  }

  lemma MixedSeparatorsRow0Barred8()
    ensures "|1|2|3| |5|6| |7" + ("|" + "8:aussi 8") == "|1|2|3| |5|6| |7|8:aussi 8"
  {
  }

  lemma MixedSeparatorsRow0Parts8()
    ensures IsRun("::") && Still("8:aussi 8")
  {
  }

  lemma MixedSeparatorsRow0Level8() returns (c: Cells)
    ensures Separated(c) && Front(c) == "1" && c.Cell? && c.text == "8:aussi 8"
    ensures Written(WithFront(c, "::1")) == "::1::2||3:: ::5|6| |7::8:aussi 8"
    ensures Barred(WithFront(c, "|1")) == "|1|2|3| |5|6| |7|8:aussi 8"
  {
    var i := MixedSeparatorsRow0Level7();
    MixedSeparatorsRow0Parts8();
    MixedSeparatorsRow0Written8();
    MixedSeparatorsRow0Barred8();
    c := Cell(i, "::", "8:aussi 8");
  }

  lemma MixedSeparatorsRow0Written9()
    ensures "::1::2||3:: ::5|6| |7::8:aussi 8" + ("|" + "9") == "::1::2||3:: ::5|6| |7::8:aussi 8|9"
  {
  }

  lemma MixedSeparatorsRow0Barred9()
    ensures "|1|2|3| |5|6| |7|8:aussi 8" + ("|" + "9") == "|1|2|3| |5|6| |7|8:aussi 8|9"
  {
  }

  lemma MixedSeparatorsRow0Parts9()
    ensures IsRun("|") && Still("9")
  {
  }

  lemma MixedSeparatorsRow0Level9() returns (c: Cells)
    ensures Separated(c) && Front(c) == "1" && c.Cell? && c.text == "9"
    ensures Written(WithFront(c, "::1")) == "::1::2||3:: ::5|6| |7::8:aussi 8|9"
    ensures Barred(WithFront(c, "|1")) == "|1|2|3| |5|6| |7|8:aussi 8|9"
  {
    var i := MixedSeparatorsRow0Level8();
    MixedSeparatorsRow0Parts9();
    MixedSeparatorsRow0Written9();
    MixedSeparatorsRow0Barred9();
    c := Cell(i, "|", "9");
  }

  /** The cells of "::1::2||3:: ::5|6| |7::8:aussi 8|9". */
  lemma MixedSeparatorsRow0Cells() returns (cs: Cells)
    ensures Separated(cs) && Front(cs) == "1"
    ensures Written(WithFront(cs, "" + "::" + Front(cs))) == "::1::2||3:: ::5|6| |7::8:aussi 8|9"
    ensures Barred(WithFront(cs, "" + "|" + Front(cs))) == "|1|2|3| |5|6| |7|8:aussi 8|9"
  {
    cs := MixedSeparatorsRow0Level9();
    assert "" + "::" + "1" == "::1";
    assert "" + "|" + "1" == "|1";
  }

  lemma MixedSeparatorsRow0(p: string)
    requires Postfix(p)
    ensures Tidy("L#" + p + "::1::2||3:: ::5|6| |7::8:aussi 8|9") == "L#" + p + "|1|2|3| |5|6| |7|8:aussi 8|9"
  {
    var cs := MixedSeparatorsRow0Cells();
    TidyPostfix(p, "", "::", cs, "::1::2||3:: ::5|6| |7::8:aussi 8|9", "|1|2|3| |5|6| |7|8:aussi 8|9");
  }

  lemma LinkKeptRow0Parts0()
    ensures Still(" ")
  {
  }

  lemma LinkKeptRow0Level0() returns (c: Cells)
    ensures Separated(c) && Front(c) == " " && c.First? && c.text == " "
    ensures Written(WithFront(c, " || ")) == " || "
    ensures Barred(WithFront(c, " | ")) == " | "
  {
    LinkKeptRow0Parts0();
    c := First(" ");
  }

  lemma LinkKeptRow0Written1()
    ensures " || " + ("[[" + "touche/pas|au lien" + "]]" + " : stp") == " || [[touche/pas|au lien]] : stp"
  {
  }

  lemma LinkKeptRow0Barred1()
    ensures " | " + ("[[" + "touche/pas|au lien" + "]]" + " : stp") == " | [[touche/pas|au lien]] : stp"
  {
  }

  lemma LinkKeptRow0Parts1()
    ensures Unclosed("touche/pas|au lien") && Still(" : stp")
  {
  }

  lemma LinkKeptRow0Level1() returns (c: Cells)
    ensures Separated(c) && Front(c) == " " && c.Linked? && c.text == " : stp"
    ensures Written(WithFront(c, " || ")) == " || [[touche/pas|au lien]] : stp"
    ensures Barred(WithFront(c, " | ")) == " | [[touche/pas|au lien]] : stp"
  {
    var i := LinkKeptRow0Level0();
    LinkKeptRow0Parts1();
    LinkKeptRow0Written1();
    LinkKeptRow0Barred1();
    c := Linked(i, "touche/pas|au lien", " : stp");
  }

  lemma LinkKeptRow0Written2()
    ensures " || [[touche/pas|au lien]] : stp" + ("::" + "merci ") == " || [[touche/pas|au lien]] : stp::merci "
  {
  }

  lemma LinkKeptRow0Barred2()
    ensures " | [[touche/pas|au lien]] : stp" + ("|" + "merci ") == " | [[touche/pas|au lien]] : stp|merci "
  {
  }

  lemma LinkKeptRow0Parts2()
    ensures IsRun("::") && Still("merci ")
  {
  }

  lemma LinkKeptRow0Level2() returns (c: Cells)
    ensures Separated(c) && Front(c) == " " && c.Cell? && c.text == "merci "
    ensures Written(WithFront(c, " || ")) == " || [[touche/pas|au lien]] : stp::merci "
    ensures Barred(WithFront(c, " | ")) == " | [[touche/pas|au lien]] : stp|merci "
  {
    var i := LinkKeptRow0Level1();
    LinkKeptRow0Parts2();
    LinkKeptRow0Written2();
    LinkKeptRow0Barred2();
    c := Cell(i, "::", "merci ");
  }

  /** The cells of " || [[touche/pas|au lien]] : stp::merci ". */
  lemma LinkKeptRow0Cells() returns (cs: Cells)
    ensures Separated(cs) && Front(cs) == " "
    ensures Written(WithFront(cs, " " + "||" + Front(cs))) == " || [[touche/pas|au lien]] : stp::merci "
    ensures Barred(WithFront(cs, " " + "|" + Front(cs))) == " | [[touche/pas|au lien]] : stp|merci "
  {
    cs := LinkKeptRow0Level2();
    assert " " + "||" + " " == " || ";
    assert " " + "|" + " " == " | ";
  }

  lemma LinkKeptRow0(p: string)
    requires Postfix(p)
    ensures Tidy("L#" + p + " || [[touche/pas|au lien]] : stp::merci ") == "L#" + p + " | [[touche/pas|au lien]] : stp|merci "
  {
    var cs := LinkKeptRow0Cells();
    TidyPostfix(p, " ", "||", cs, " || [[touche/pas|au lien]] : stp::merci ", " | [[touche/pas|au lien]] : stp|merci ");
  }
}
