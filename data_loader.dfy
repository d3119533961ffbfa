/**
 * The required-column check applied when a spreadsheet is loaded
 * (gerador_relatorios/data_loader.py). Reading the workbook is outside the
 * model: `LoadExcel` receives the sheet that was read.
 */
module DataLoader {
  import opened Wrappers
  import opened Text
  import opened Seqs

  /** The columns every sheet must carry, in their declared order. */
  const RequiredColumns: seq<string> :=
    ["NOME", "DATA DE NASCIMENTO", "RESPONSÁVEL", "ESPECIALIDADE", "MÊS DE REFERÊNCIA"]

  const MissingColumnsPrefix: string := "Colunas obrigatórias não encontradas: "

  /** A sheet as read: its column headers and its rows of (possibly empty) cells. */
  datatype Sheet = Sheet(columns: seq<string>, rows: seq<seq<Option<string>>>)

  /**
   * The entries of `required` that are not among `columns`: exactly the
   * absent ones, in the order `required` lists them.
   */
  function MissingColumns(required: seq<string>, columns: seq<string>): (missing: seq<string>)
    ensures forall c :: c in missing <==> c in required && c !in columns
    ensures SubsequenceOf(missing, required)
  {
    if required == [] then []
    else if required[0] in columns then MissingColumns(required[1..], columns)
    else [required[0]] + MissingColumns(required[1..], columns)
  }

  /** The message of the error raised when columns are missing. */
  function MissingColumnsMessage(missing: seq<string>): string {
    MissingColumnsPrefix + Join(missing, ", ")
  }

  /**
   * `load_excel` after the sheet has been read: the sheet itself, unchanged,
   * when every required column is present; otherwise the error naming the
   * missing ones.
   */
  function LoadExcel(sheet: Sheet): (r: Result<Sheet, string>)
    ensures r.Success? <==> forall c :: c in RequiredColumns ==> c in sheet.columns
    ensures r.Success? ==> r.value == sheet
    ensures r.Failure? ==> r.error == MissingColumnsMessage(MissingColumns(RequiredColumns, sheet.columns))
  {
    var missing := MissingColumns(RequiredColumns, sheet.columns);
    if missing != [] then
      assert missing[0] in missing;
      Failure(MissingColumnsMessage(missing))
    else Success(sheet)
  }

  /** A joined list mentions each of its elements. */
  lemma {:induction false} JoinMentionsEach(xs: seq<string>, sep: string, x: string)
    requires x in xs
    ensures Contains(Join(xs, sep), x)
    decreases |xs|
  {
    if |xs| == 1 {
      ContainsSelf(x);
    } else if x == xs[0] {
      ContainsSelf(x);
      var j := Join(xs, sep);
      assert j[0..|x|] == x;
      assert OccursAt(j, x, 0);
    } else {
      JoinMentionsEach(xs[1..], sep, x);
      var rest := Join(xs[1..], sep);
      var k: nat :| k <= |rest| && OccursAt(rest, x, k);
      var pre := xs[0] + sep;
      var j := Join(xs, sep);
      assert j == pre + rest;
      assert j[|pre| + k..|pre| + k + |x|] == rest[k..k + |x|];
      assert OccursAt(j, x, |pre| + k);
    }
  }

  /** A message built from a list of columns starts with the fixed prefix and names each of them. */
  lemma MessageMentions(missing: seq<string>, c: string)
    requires c in missing
    ensures MissingColumnsMessage(missing)[..|MissingColumnsPrefix|] == MissingColumnsPrefix
    ensures Contains(MissingColumnsMessage(missing), c)
  {
    JoinMentionsEach(missing, ", ", c);
    ContainsAfterPrefix(MissingColumnsPrefix, Join(missing, ", "), c);
  }

  /** The error message starts with the fixed prefix and names every missing column. */
  lemma MessageNamesMissingColumns(sheet: Sheet, c: string)
    requires LoadExcel(sheet).Failure?
    requires c in RequiredColumns && c !in sheet.columns
    ensures LoadExcel(sheet).error[..|MissingColumnsPrefix|] == MissingColumnsPrefix
    ensures Contains(LoadExcel(sheet).error, c)
  {
    MessageMentions(MissingColumns(RequiredColumns, sheet.columns), c);
  }

  /** Only which columns are present matters, not their order, repetitions or extra columns. */
  lemma {:induction false} MissingDependsOnlyOnPresence(required: seq<string>, cols1: seq<string>, cols2: seq<string>)
    requires forall c :: c in required ==> (c in cols1 <==> c in cols2)
    ensures MissingColumns(required, cols1) == MissingColumns(required, cols2)
    decreases |required|
  {
    if required != [] {
      MissingDependsOnlyOnPresence(required[1..], cols1, cols2);
    }
  }

  lemma ColumnOrderIrrelevant(s1: Sheet, s2: Sheet)
    requires forall c :: c in RequiredColumns ==> (c in s1.columns <==> c in s2.columns)
    ensures LoadExcel(s1).Success? == LoadExcel(s2).Success?
    ensures LoadExcel(s1).Failure? ==> LoadExcel(s1).error == LoadExcel(s2).error
  {
    MissingDependsOnlyOnPresence(RequiredColumns, s1.columns, s2.columns);
  }

  /** A sheet with only a NOME column is refused, naming the other four in declared order. */
  lemma OnlyNameColumnRefused(rows: seq<seq<Option<string>>>)
    ensures LoadExcel(Sheet(["NOME"], rows)) ==
      Failure(MissingColumnsMessage(["DATA DE NASCIMENTO", "RESPONSÁVEL", "ESPECIALIDADE", "MÊS DE REFERÊNCIA"]))
  {
    var cols := ["NOME"];
    var tail := ["DATA DE NASCIMENTO", "RESPONSÁVEL", "ESPECIALIDADE", "MÊS DE REFERÊNCIA"];
    assert RequiredColumns[0] in cols;
    assert RequiredColumns[1..] == tail;
    assert forall c :: c in tail ==> |c| != 4;
    AllAbsentAreMissing(tail, cols);
    assert MissingColumns(RequiredColumns, cols) == tail;
  }

  lemma {:induction false} AllAbsentAreMissing(required: seq<string>, columns: seq<string>)
    requires forall c :: c in required ==> c !in columns
    ensures MissingColumns(required, columns) == required
    decreases |required|
  {
    if required != [] {
      AllAbsentAreMissing(required[1..], columns);
    }
  }
}
