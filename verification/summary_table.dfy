/**
 * src/components/SummaryTable.tsx: the text the copy button puts on the
 * clipboard for the week's shooting plan: a markdown table, the shopping list
 * and the list of things to prepare.
 */
module SummaryTable {
  import opened Text

  datatype Row = Row(productName: string, menuMaterial: string, equipment: string)

  datatype SummaryData = SummaryData(table: seq<Row>, shoppingList: seq<string>, equipmentList: seq<string>)

  const Title := "📋 今週の撮影プランまとめ"
  const TableHeader := "| 商品名 | メニュー・材料メモ | 資材（お皿・小物） |"
  const TableRule := "| :--- | :--- | :--- |"
  const ShoppingHeading := "🛒 買い物リスト（トッピング・生鮮のみ）"
  const EquipmentHeading := "🏠 用意するもの（機材・資材）"

  /** A table row with its cells inserted verbatim. */
  function RowLine(row: Row): string {
    "| " + row.productName + " | " + row.menuMaterial + " | " + row.equipment + " |"
  }

  function RowLines(rows: seq<Row>): (r: seq<string>)
    ensures |r| == |rows|
    ensures forall i :: 0 <= i < |rows| ==> r[i] == RowLine(rows[i])
  {
    seq(|rows|, i requires 0 <= i < |rows| => RowLine(rows[i]))
  }

  /** `- [ ] item` for each item, in order. */
  function Checkboxes(items: seq<string>): (r: seq<string>)
    ensures |r| == |items|
    ensures forall i :: 0 <= i < |items| ==> r[i] == "- [ ] " + items[i]
  {
    seq(|items|, i requires 0 <= i < |items| => "- [ ] " + items[i])
  }

  /**
   * `handleCopyToClipboard`: the text built up by successive `+=`. It opens
   * with the title and a blank line and ends with a newline.
   */
  function CopyText(d: SummaryData): (t: string)
    ensures StartsWith(t, Title + "\n\n")
    ensures EndsWith(t, "\n")
  {
    CopyTextShape(Title + "\n\n", TableHeader + "\n", TableRule + "\n", Lines(RowLines(d.table)),
                  "\n" + ShoppingHeading + "\n", Lines(Checkboxes(d.shoppingList)),
                  "\n" + EquipmentHeading + "\n", Checkboxes(d.equipmentList));
    (Title + "\n\n")
    + (TableHeader + "\n")
    + (TableRule + "\n")
    + Lines(RowLines(d.table))
    + ("\n" + ShoppingHeading + "\n")
    + Lines(Checkboxes(d.shoppingList))
    + ("\n" + EquipmentHeading + "\n")
    + Lines(Checkboxes(d.equipmentList))
  }

  lemma CopyTextShape(a: string, b: string, c: string, rows: string, d: string, shop: string, e: string, equip: seq<string>)
    requires |e| > 0 && e[|e| - 1] == '\n'
    ensures var t := a + b + c + rows + d + shop + e + Lines(equip);
      StartsWith(t, a) && EndsWith(t, "\n")
  {
    var before := a + b + c + rows + d + shop + e;
    var t := before + Lines(equip);
    assert t == a + (b + c + rows + d + shop + e + Lines(equip));
    assert t[..|a|] == a;
    LinesEndsWithNewline(equip, before);
  }

  predicate NewlineFree(d: SummaryData) {
    && (forall i :: 0 <= i < |d.table| ==>
          '\n' !in d.table[i].productName && '\n' !in d.table[i].menuMaterial && '\n' !in d.table[i].equipment)
    && (forall i :: 0 <= i < |d.shoppingList| ==> '\n' !in d.shoppingList[i])
    && (forall i :: 0 <= i < |d.equipmentList| ==> '\n' !in d.equipmentList[i])
  }

  /** The lines of the copy text, as the reader sees them. */
  function CopyLines(d: SummaryData): seq<string> {
    [Title, "", TableHeader, TableRule] + RowLines(d.table)
    + ["", ShoppingHeading] + Checkboxes(d.shoppingList)
    + ["", EquipmentHeading] + Checkboxes(d.equipmentList)
  }

  lemma CopyTextAsLines(d: SummaryData)
    ensures CopyText(d) == Lines(CopyLines(d))
  {
    var head := [Title, "", TableHeader, TableRule];
    var rows := RowLines(d.table);
    var shop := Checkboxes(d.shoppingList);
    var equip := Checkboxes(d.equipmentList);
    var h2 := ["", ShoppingHeading];
    var h3 := ["", EquipmentHeading];
    HeadLines();
    HeadingLines(ShoppingHeading);
    HeadingLines(EquipmentHeading);
    LinesAppend(head, rows);
    LinesAppend(head + rows, h2);
    LinesAppend(head + rows + h2, shop);
    LinesAppend(head + rows + h2 + shop, h3);
    LinesAppend(head + rows + h2 + shop + h3, equip);
  }

  lemma HeadLines()
    ensures Lines([Title, "", TableHeader, TableRule]) == (Title + "\n\n") + (TableHeader + "\n") + (TableRule + "\n")
  {
    var head := [Title, "", TableHeader, TableRule];
    var rule := TableRule + "\n";
    assert Lines(head[3..]) == rule;
    assert Lines(head[2..]) == TableHeader + "\n" + rule;
    assert Lines(head[1..]) == "\n" + (TableHeader + "\n" + rule);
    assert Lines(head) == Title + "\n" + ("\n" + (TableHeader + "\n" + rule));
    Assoc(Title + "\n", "\n", TableHeader + "\n" + rule);
    assert Title + "\n" + "\n" == Title + "\n\n";
    Assoc(Title + "\n\n", TableHeader + "\n", rule);
    assert TableHeader + "\n" + rule == (TableHeader + "\n") + rule;
  }

  lemma HeadingLines(heading: string)
    ensures Lines(["", heading]) == "\n" + heading + "\n"
  {
    assert Lines([heading]) == heading + "\n";
    assert Lines(["", heading]) == "" + "\n" + Lines([heading]);
    Assoc("\n", heading, "\n");
  }

  /**
   * Read line by line, the copy text is the title, a blank line, the
   * two-line table header, one row per table entry in order, then the
   * shopping section and the equipment section, each a heading after a blank
   * line followed by one checkbox line per item in order; the text ends with
   * a newline.
   */
  lemma CopyTextLines(d: SummaryData)
    requires NewlineFree(d)
    ensures Split(CopyText(d), '\n') == CopyLines(d) + [""]
  {
    CopyTextAsLines(d);
    LineNewlineFree(d);
    assert forall i :: 0 <= i < |CopyLines(d)| ==> CopyLines(d)[i] in CopyLines(d);
    SplitLines(CopyLines(d), "");
    assert Lines(CopyLines(d)) + "" == Lines(CopyLines(d));
  }

  lemma LineNewlineFree(d: SummaryData)
    requires NewlineFree(d)
    ensures forall x :: x in CopyLines(d) ==> '\n' !in x
  {
    FixedLinesNewlineFree();
    forall x | x in RowLines(d.table) ensures '\n' !in x {
      var k :| 0 <= k < |d.table| && RowLines(d.table)[k] == x;
    }
    CheckboxesNewlineFree(d.shoppingList);
    CheckboxesNewlineFree(d.equipmentList);
  }

  lemma CheckboxesNewlineFree(items: seq<string>)
    requires forall i :: 0 <= i < |items| ==> '\n' !in items[i]
    ensures forall x :: x in Checkboxes(items) ==> '\n' !in x
  {
    forall x | x in Checkboxes(items) ensures '\n' !in x {
      var k :| 0 <= k < |items| && Checkboxes(items)[k] == x;
    }
  }

  lemma FixedLinesNewlineFree()
    ensures '\n' !in Title && '\n' !in TableHeader && '\n' !in TableRule
    ensures '\n' !in ShoppingHeading && '\n' !in EquipmentHeading
  {
    TitleNewlineFree();
    TableHeaderNewlineFree();
    TableRuleNewlineFree();
    ShoppingHeadingNewlineFree();
    EquipmentHeadingNewlineFree();
  }

  lemma TitleNewlineFree() ensures '\n' !in Title {}
  lemma TableHeaderNewlineFree() ensures '\n' !in TableHeader {}
  lemma TableRuleNewlineFree() ensures '\n' !in TableRule {}
  lemma ShoppingHeadingNewlineFree() ensures '\n' !in ShoppingHeading {}
  lemma EquipmentHeadingNewlineFree() ensures '\n' !in EquipmentHeading {}

}
