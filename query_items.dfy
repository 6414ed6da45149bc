/** The Markdown item report of `query_items`: the three query results (the number of
    rows of the sales table, the number of distinct non-NULL items, and the distinct
    items in the order the query returns them) are inputs here, and the script writes
    them out as a title, a two-line summary and a one-column table with one row per
    item. The file is modelled as the text accumulated by the successive writes. */
module QueryItems {
  import opened Wrappers
  import opened Text
  import Seqs

  // The fixed writes, as the script makes them.
  const TitleText: string := "# 銷售品項報告\n\n"
  const TotalLabel: string := "## 統計摘要\n- 總銷售記錄數: "
  const DistinctLabel: string := "- 獨特品項數量: "
  const TableHead: string := "## 完整品項清單\n| 品項名稱 |\n|----------|\n"

  /** How `f"{item}"` renders a value of the Item column: a NULL comes back as None. */
  function Rendered(item: Option<string>): string {
    if item.None? then "None" else item.value
  }

  /** The line the loop writes for one item: `f"| {item} |\n"`. */
  function ItemLine(item: Option<string>): string {
    "| " + Rendered(item) + " |\n"
  }

  /** The lines the loop writes for `items`, in order. */
  function ItemLines(items: seq<Option<string>>): string {
    if items == [] then "" else ItemLines(items[..|items| - 1]) + ItemLine(items[|items| - 1])
  }

  /** The text before the item table: title, summary and table heading. */
  function ReportHead(total: nat, distinct: nat): string {
    TitleText + (TotalLabel + NatToString(total) + "\n")
      + (DistinctLabel + NatToString(distinct) + "\n\n") + TableHead
  }

  /** Everything the script writes to the report file. */
  function Report(total: nat, distinct: nat, items: seq<Option<string>>): string {
    ReportHead(total, distinct) + ItemLines(items)
  }

  /** `query_items` after its queries: the writes in order, then one write per item. */
  method WriteReport(total: nat, distinct: nat, items: seq<Option<string>>) returns (text: string)
    ensures text == Report(total, distinct, items)
  {
    text := TitleText;
    text := text + (TotalLabel + NatToString(total) + "\n");
    text := text + (DistinctLabel + NatToString(distinct) + "\n\n");
    text := text + TableHead;
    ghost var head := text;
    for k := 0 to |items|
      invariant text == head + ItemLines(items[..k])
    {
      assert items[..k + 1][..k] == items[..k];
      text := text + ItemLine(items[k]);
    }
    assert items[..|items|] == items;
  }

  // ---------------------------------------------------------------------------
  // The report read back line by line

  /** The label of the summary line with the total. */
  const TotalPrefix: string := "- 總銷售記錄數: "
  /** The label of the summary line with the distinct count. */
  const DistinctPrefix: string := "- 獨特品項數量: "

  /** The table row of one item, without its line break. */
  function ItemRow(item: Option<string>): string {
    "| " + Rendered(item) + " |"
  }

  /** The lines of the report as a reader sees them: nine fixed lines with the two counts,
      then one table row per item in the given order. */
  function ReportLines(total: nat, distinct: nat, items: seq<Option<string>>): (lines: seq<string>)
    ensures |lines| == 9 + |items|
  {
    ["# 銷售品項報告", "", "## 統計摘要", TotalPrefix + NatToString(total),
     DistinctPrefix + NatToString(distinct), "", "## 完整品項清單", "| 品項名稱 |", "|----------|"]
      + seq(|items|, k requires 0 <= k < |items| => ItemRow(items[k]))
  }

  /** Items that can be written on one line each. */
  predicate OneLineItems(items: seq<Option<string>>) {
    forall k :: 0 <= k < |items| ==> '\n' !in Rendered(items[k])
  }

  /** Each line followed by a line break. */
  function Terminated(lines: seq<string>): string {
    if lines == [] then "" else lines[0] + "\n" + Terminated(lines[1..])
  }

  lemma {:induction false} TerminatedAppend(a: seq<string>, b: seq<string>)
    ensures Terminated(a + b) == Terminated(a) + Terminated(b)
  {
    if a != [] {
      assert (a + b)[0] == a[0] && (a + b)[1..] == a[1..] + b;
      TerminatedAppend(a[1..], b);
      assert Terminated(a + b) == a[0] + "\n" + (Terminated(a[1..]) + Terminated(b));
      Seqs.AppendAssoc(a[0] + "\n", Terminated(a[1..]), Terminated(b));
    } else {
      assert a + b == b;
    }
  }

  /** Splitting lines that were each followed by a line break gives them back, and one
      empty piece after the last break. */
  lemma {:induction false} SplitTerminated(lines: seq<string>)
    requires forall i :: 0 <= i < |lines| ==> '\n' !in lines[i]
    ensures Split(Terminated(lines), '\n') == lines + [""]
  {
    if lines == [] {
    } else {
      var rest := Terminated(lines[1..]);
      SplitTerminated(lines[1..]);
      SplitAppend(lines[0], '\n', rest);
      assert [lines[0]] + (lines[1..] + [""]) == lines + [""];
    }
  }

  lemma {:induction false} ItemLinesTerminated(items: seq<Option<string>>)
    ensures ItemLines(items) == Terminated(ReportLines(0, 0, items)[9..])
  {
    var rows := ReportLines(0, 0, items)[9..];
    if items != [] {
      var init, last := items[..|items| - 1], items[|items| - 1];
      ItemLinesTerminated(init);
      var before := ReportLines(0, 0, init)[9..];
      assert rows == before + [ItemRow(last)];
      TerminatedAppend(before, [ItemRow(last)]);
      assert ItemLine(last) == ItemRow(last) + "\n" + "";
    }
  }

  lemma TitleLines()
    ensures TitleText == Terminated(["# 銷售品項報告", ""])
  {
  }

  lemma TotalLines(n: string)
    ensures TotalLabel + n + "\n" == Terminated(["## 統計摘要", TotalPrefix + n])
  {
    var l := ["## 統計摘要", TotalPrefix + n];
    assert l[1..] == [TotalPrefix + n] && [TotalPrefix + n][1..] == [];
    assert Terminated([TotalPrefix + n]) == TotalPrefix + n + "\n" + Terminated([]);
    assert Terminated(l) == "## 統計摘要" + "\n" + Terminated([TotalPrefix + n]);
    assert TotalLabel == "## 統計摘要" + "\n" + TotalPrefix;
    Seqs.AppendAssoc("## 統計摘要" + "\n", TotalPrefix, n);
    Seqs.AppendAssoc("## 統計摘要" + "\n", TotalPrefix + n, "\n");
  }

  lemma DistinctLines(n: string)
    ensures DistinctLabel + n + "\n\n" == Terminated([DistinctPrefix + n, ""])
  {
    var l := [DistinctPrefix + n, ""];
    assert l[1..] == [""] && [""][1..] == [];
    assert Terminated([""]) == "" + "\n" + Terminated([]);
    assert Terminated(l) == DistinctPrefix + n + "\n" + Terminated([""]);
    assert "\n\n" == "\n" + "\n";
    Seqs.AppendAssoc(DistinctPrefix + n, "\n", "\n");
  }

  lemma TableHeadLines()
    ensures TableHead == Terminated(["## 完整品項清單", "| 品項名稱 |", "|----------|"])
  {
  }

  lemma HeadTerminated(total: nat, distinct: nat)
    ensures ReportHead(total, distinct) == Terminated(ReportLines(total, distinct, [])[..9])
  {
    var a, b := NatToString(total), NatToString(distinct);
    var l1, l2 := ["# 銷售品項報告", ""], ["## 統計摘要", TotalPrefix + a];
    var l3, l4 := [DistinctPrefix + b, ""], ["## 完整品項清單", "| 品項名稱 |", "|----------|"];
    TitleLines();
    TotalLines(a);
    DistinctLines(b);
    TableHeadLines();
    TerminatedAppend(l1, l2);
    TerminatedAppend(l1 + l2, l3);
    TerminatedAppend(l1 + l2 + l3, l4);
    assert ReportLines(total, distinct, [])[..9] == l1 + l2 + l3 + l4;
  }

  lemma FixedLinesFree(total: nat, distinct: nat)
    ensures forall i :: 0 <= i < 9 ==> '\n' !in ReportLines(total, distinct, [])[i]
  {
    var a, b := NatToString(total), NatToString(distinct);
    assert '\n' !in a by {
      forall i | 0 <= i < |a| ensures a[i] != '\n' { assert IsDigit(a[i]); }
    }
    assert '\n' !in b by {
      forall i | 0 <= i < |b| ensures b[i] != '\n' { assert IsDigit(b[i]); }
    }
    assert '\n' !in TotalPrefix + a;
    assert '\n' !in DistinctPrefix + b;
  }

  /** The report splits at its line breaks into exactly its lines, with nothing after
      the final break: the title first, the summary with the total before the distinct
      count, the table heading, then one row per item in order. */
  lemma ReportSplitsIntoLines(total: nat, distinct: nat, items: seq<Option<string>>)
    requires OneLineItems(items)
    ensures Split(Report(total, distinct, items), '\n') == ReportLines(total, distinct, items) + [""]
  {
    var lines := ReportLines(total, distinct, items);
    var head, rows := lines[..9], lines[9..];
    assert head == ReportLines(total, distinct, [])[..9];
    assert rows == ReportLines(0, 0, items)[9..];
    HeadTerminated(total, distinct);
    ItemLinesTerminated(items);
    assert lines == head + rows;
    TerminatedAppend(head, rows);
    FixedLinesFree(total, distinct);
    forall i | 0 <= i < |lines| ensures '\n' !in lines[i] {
      if i >= 9 {
        var item := items[i - 9];
        assert lines[i] == "| " + Rendered(item) + " |";
        assert '\n' !in Rendered(item);
      } else {
        assert lines[i] == ReportLines(total, distinct, [])[i];
      }
    }
    SplitTerminated(lines);
  }

  /** With one line per item, the report holds exactly 9 + |items| line breaks. */
  lemma ReportNewlineCount(total: nat, distinct: nat, items: seq<Option<string>>)
    requires OneLineItems(items)
    ensures CountChar(Report(total, distinct, items), '\n') == 9 + |items|
  {
    ReportSplitsIntoLines(total, distinct, items);
    SplitCount(Report(total, distinct, items), '\n');
  }

  /** The number after a summary label; None when the line is not such a line. */
  function ReadCount(line: string, prefix: string): Option<nat> {
    if |line| > |prefix| && line[..|prefix|] == prefix && AllDigits(line[|prefix|..])
    then Some(DigitsValue(line[|prefix|..]))
    else None
  }

  /** The cell of a one-column table row; None when the line is not a row. */
  function ReadCell(line: string): Option<string> {
    if |line| >= 4 && line[..2] == "| " && line[|line| - 2..] == " |" then Some(line[2..|line| - 2])
    else None
  }

  /** The summary reads back the two counts as given, the total first; nothing is
      recomputed on the way. */
  lemma CountsReadBack(total: nat, distinct: nat, items: seq<Option<string>>)
    ensures ReadCount(ReportLines(total, distinct, items)[3], TotalPrefix) == Some(total)
    ensures ReadCount(ReportLines(total, distinct, items)[4], DistinctPrefix) == Some(distinct)
  {
    var a, b := NatToString(total), NatToString(distinct);
    assert (TotalPrefix + a)[..|TotalPrefix|] == TotalPrefix && (TotalPrefix + a)[|TotalPrefix|..] == a;
    assert (DistinctPrefix + b)[..|DistinctPrefix|] == DistinctPrefix && (DistinctPrefix + b)[|DistinctPrefix|..] == b;
    NatToStringRoundTrip(total);
    NatToStringRoundTrip(distinct);
  }

  /** The table rows read back the items, one each, in the order given. */
  lemma ItemsReadBack(total: nat, distinct: nat, items: seq<Option<string>>, k: nat)
    requires k < |items|
    ensures ReadCell(ReportLines(total, distinct, items)[9 + k]) == Some(Rendered(items[k]))
  {
    var line := ReportLines(total, distinct, items)[9 + k];
    var r := Rendered(items[k]);
    assert line == "| " + r + " |";
    assert line[..2] == "| " && line[|line| - 2..] == " |" && line[2..|line| - 2] == r;
  }
}
