/** The CSV export of the admin panel (components/dashboard/AdminPanel.tsx):
    a header line, then one line per transaction in store order. */
module AdminPanel {
  import opened Optional
  import opened Text
  import opened LedgerTypes

  const Header := "ID,Type,Amount,Category,Date,Notes\n"

  /** The row template `id,type,amount,category name,date,"notes"`, with
      missing or empty notes written as `""`. `amountText` is the number's
      `toString`. Nothing is escaped. */
  function Row(t: Transaction, amountText: real -> string): string {
    var notes := "\"" + t.notes.GetOr("") + "\"";
    t.id + ("," + (TypeText(t.kind) + ("," + (amountText(t.amount) + ("," + (t.category.name
      + ("," + (t.date + ("," + notes)))))))))
  }

  /** The six cells a reader of the file expects in a row. */
  function Fields(t: Transaction, amountText: real -> string): (r: seq<string>)
    ensures |r| == 6
  {
    [t.id, TypeText(t.kind), amountText(t.amount), t.category.name, t.date, "\"" + t.notes.GetOr("") + "\""]
  }

  function Rows(ts: seq<Transaction>, amountText: real -> string): (r: seq<string>)
    ensures |r| == |ts|
  {
    seq(|ts|, i requires 0 <= i < |ts| => Row(ts[i], amountText))
  }

  /** `headers + transactions.map(row).join("\n")`. */
  function ExportCsv(ts: seq<Transaction>, amountText: real -> string): string {
    Header + Join(Rows(ts, amountText), '\n')
  }

  /** A row is its six cells joined by commas. */
  lemma RowIsJoinedFields(t: Transaction, amountText: real -> string)
    ensures Row(t, amountText) == Join(Fields(t, amountText), ',')
  {
    var f := Fields(t, amountText);
    assert Join(f[5..], ',') == f[5];
    assert Join(f[4..], ',') == f[4] + ("," + f[5]) by {
      assert f[4..][1..] == f[5..];
    }
    assert Join(f[3..], ',') == f[3] + ("," + Join(f[4..], ',')) by {
      assert f[3..][1..] == f[4..];
    }
    assert Join(f[2..], ',') == f[2] + ("," + Join(f[3..], ',')) by {
      assert f[2..][1..] == f[3..];
    }
    assert Join(f[1..], ',') == f[1] + ("," + Join(f[2..], ',')) by {
      assert f[1..][1..] == f[2..];
    }
  }

  /** Cells without a comma come back from splitting the row on commas
      (`CommaBreaksRow` shows that any comma in a cell prevents it). */
  lemma RowSplitsIntoFields(t: Transaction, amountText: real -> string)
    requires forall k :: 0 <= k < 6 ==> ',' !in Fields(t, amountText)[k]
    ensures Split(Row(t, amountText), ',') == Fields(t, amountText)
  {
    RowIsJoinedFields(t, amountText);
    SplitJoin(Fields(t, amountText), ',');
  }

  /** The commas of a row: the five between its cells and those inside them. */
  lemma RowCommas(t: Transaction, amountText: real -> string)
    ensures var f := Fields(t, amountText);
      Count(Row(t, amountText), ',') ==
        5 + Count(f[0], ',') + Count(f[1], ',') + Count(f[2], ',') + Count(f[3], ',') + Count(f[4], ',') + Count(f[5], ',')
  {
    var f := Fields(t, amountText);
    var r4 := f[4] + ("," + f[5]);
    var r3 := f[3] + ("," + r4);
    var r2 := f[2] + ("," + r3);
    var r1 := f[1] + ("," + r2);
    assert Row(t, amountText) == f[0] + ("," + r1);
    assert Count(",", ',') == 1;
    CountConcat(",", f[5], ',');
    CountConcat(f[4], "," + f[5], ',');
    CountConcat(",", r4, ',');
    CountConcat(f[3], "," + r4, ',');
    CountConcat(",", r3, ',');
    CountConcat(f[2], "," + r3, ',');
    CountConcat(",", r2, ',');
    CountConcat(f[1], "," + r2, ',');
    CountConcat(",", r1, ',');
    CountConcat(f[0], "," + r1, ',');
  }

  /** Nothing is escaped, so a comma in any cell (a category name, the notes,
      the id, the date or the amount text) adds a cell: splitting the row on
      commas then gives more than six cells, never the six fields. */
  lemma CommaBreaksRow(t: Transaction, amountText: real -> string, k: int)
    requires 0 <= k < 6 && ',' in Fields(t, amountText)[k]
    ensures |Split(Row(t, amountText), ',')| >= 7
    ensures Split(Row(t, amountText), ',') != Fields(t, amountText)
  {
    RowCommas(t, amountText);
    CountPresent(Fields(t, amountText)[k], ',');
    SplitCount(Row(t, amountText), ',');
  }

  /** A category name with one comma in it, the other cells having none,
      splits into seven cells: the name's two halves take the places of
      the name and the date, and every later cell shifts right. */
  lemma CommaInNameShiftsCells(t: Transaction, amountText: real -> string, x: string, y: string)
    requires t.category.name == x + "," + y && ',' !in x && ',' !in y
    requires forall k :: 0 <= k < 6 && k != 3 ==> ',' !in Fields(t, amountText)[k]
    ensures
      var f := Fields(t, amountText);
      Split(Row(t, amountText), ',') == [f[0], f[1], f[2], x, y, f[4], f[5]]
    ensures |Split(Row(t, amountText), ',')| == 7
  {
    var f := Fields(t, amountText);
    var cells := [f[0], f[1], f[2], x, y, f[4], f[5]];
    RowIsJoinedFields(t, amountText);
    assert cells[5..] == f[4..];
    assert Join(cells[4..], ',') == y + ("," + Join(f[4..], ',')) by {
      assert cells[4..][1..] == cells[5..];
    }
    assert Join(cells[3..], ',') == Join(f[3..], ',') by {
      assert cells[3..][1..] == cells[4..];
      assert f[3..][1..] == f[4..];
      assert x + ("," + (y + ("," + Join(f[4..], ',')))) == (x + "," + y) + ("," + Join(f[4..], ','));
    }
    assert Join(cells[2..], ',') == Join(f[2..], ',') by {
      assert cells[2..][1..] == cells[3..] && f[2..][1..] == f[3..];
    }
    assert Join(cells[1..], ',') == Join(f[1..], ',') by {
      assert cells[1..][1..] == cells[2..] && f[1..][1..] == f[2..];
    }
    assert Join(cells, ',') == Join(f, ',');
    forall k | 0 <= k < 7 ensures ',' !in cells[k] {
      if k < 3 {
        assert cells[k] == f[k];
      } else if k > 4 {
        assert cells[k] == f[k - 1];
      }
    }
    SplitJoin(cells, ',');
  }

  /** The text starts with the header; after it come the rows, in store
      order, separated by newlines with none after the last; a row without
      a newline in any cell comes back from splitting on newlines. */
  lemma ExportLayout(ts: seq<Transaction>, amountText: real -> string)
    ensures IsPrefix(Header, ExportCsv(ts, amountText))
    ensures ExportCsv(ts, amountText)[|Header|..] == Join(Rows(ts, amountText), '\n')
    ensures ts == [] ==> ExportCsv(ts, amountText) == Header
    ensures |ts| >= 1 && (forall k :: 0 <= k < |ts| ==> '\n' !in Row(ts[k], amountText)) ==>
      Split(ExportCsv(ts, amountText)[|Header|..], '\n') == Rows(ts, amountText)
  {
    var body := Join(Rows(ts, amountText), '\n');
    assert ExportCsv(ts, amountText)[..|Header|] == Header;
    assert ExportCsv(ts, amountText)[|Header|..] == body;
    if ts == [] {
      assert Header + "" == Header;
    }
    if |ts| >= 1 && (forall k :: 0 <= k < |ts| ==> '\n' !in Row(ts[k], amountText)) {
      SplitJoin(Rows(ts, amountText), '\n');
    }
  }
}
