/**
 * What the interface does with the loaded rows (gerador_relatorios/gui.py):
 * the per-row formatting of `load_preview`, and the grouping of rows into one
 * entry per patient that `generate_reports` performs before writing anything.
 */
module Aggregation {
  import opened Wrappers
  import opened Text
  import opened Seqs
  import opened Reports

  /**
   * A birth-date cell: empty, a timestamp (which has `strftime`), or any
   * other value, given by its `str` text.
   */
  datatype BirthDate = Missing | Timestamp(day: nat, month: nat, year: nat) | Value(text: string)

  /** One spreadsheet row, restricted to the five required columns; `None` is an empty cell. */
  datatype Row = Row(
    nome: Option<string>,
    dataNascimento: BirthDate,
    responsavel: Option<string>,
    especialidade: Option<string>,
    mesReferencia: Option<string>)

  const NoBirthDate: string := "Data não informada"
  const NotInformed: string := "Não informado"
  const NoName: string := "Nome não informado"
  /** `str` of pandas' missing value. */
  const MissingText: string := "nan"

  /**
   * The birth-date rule shared by the preview and the aggregation: a
   * timestamp as DD/MM/YYYY, other text cut at its first space when it
   * contains '/', and a fixed text for an empty cell.
   */
  function FormatBirthDate(d: BirthDate): string {
    match d
    case Missing => NoBirthDate
    case Timestamp(day, month, year) => ZeroPad(day, 2) + "/" + ZeroPad(month, 2) + "/" + ZeroPad(year, 4)
    case Value(s) => if '/' in s then BeforeFirst(s, ' ') else s
  }

  /** The text of a cell, or `absent` when it is empty. */
  function CellText(cell: Option<string>, absent: string): string {
    match cell
    case Some(s) => s
    case None => absent
  }

  /** The patient information taken from a row (`str(row["NOME"])` gives "nan" for an empty name). */
  function MakeInfo(row: Row): Info {
    Info(
      CellText(row.nome, MissingText),
      FormatBirthDate(row.dataNascimento),
      CellText(row.responsavel, NotInformed),
      CellText(row.mesReferencia, NotInformed))
  }

  /** The specialty a row contributes: its text, or nothing for an empty cell. */
  function Contribution(row: Row): seq<string> {
    if row.especialidade.Some? then [row.especialidade.value] else []
  }

  // ---------------------------------------------------------------- dates

  /** A number below `10^k` has at most `k` decimal digits. */
  lemma {:induction false} DigitsWidth(n: nat, k: nat, bound: nat)
    requires 1 <= k && bound == Pow10(k) && n < bound
    ensures |Digits(n)| <= k
    decreases k
  {
    if n >= 10 {
      assert k >= 2;
      assert n / 10 < Pow10(k - 1);
      DigitsWidth(n / 10, k - 1, Pow10(k - 1));
    }
  }

  function Pow10(k: nat): nat {
    if k == 0 then 1 else 10 * Pow10(k - 1)
  }

  /** A number below `10^width`, zero-padded to `width`, is exactly `width` characters long. */
  lemma PaddedWidth(n: nat, width: nat)
    requires 1 <= width && n < Pow10(width)
    ensures |ZeroPad(n, width)| == width
  {
    DigitsWidth(n, width, Pow10(width));
  }

  /**
   * A timestamp is printed as DD/MM/YYYY: ten characters, slashes at
   * positions 2 and 5, and the three fields read back as day, month and year.
   */
  lemma TimestampRoundTrip(day: nat, month: nat, year: nat)
    requires day < 100 && month < 100 && year < 10000
    ensures var r := FormatBirthDate(Timestamp(day, month, year));
      && |r| == 10 && r[2] == '/' && r[5] == '/'
      && ParseNat(r[..2]) == day && ParseNat(r[3..5]) == month && ParseNat(r[6..]) == year
  {
    assert Pow10(2) == 100 && Pow10(4) == 10000;
    PaddedWidth(day, 2);
    PaddedWidth(month, 2);
    PaddedWidth(year, 4);
    var dd, mm, yy := ZeroPad(day, 2), ZeroPad(month, 2), ZeroPad(year, 4);
    var r := dd + "/" + mm + "/" + yy;
    assert r[..2] == dd && r[3..5] == mm && r[6..] == yy;
    ZeroPadRoundTrip(day, 2);
    ZeroPadRoundTrip(month, 2);
    ZeroPadRoundTrip(year, 4);
  }

  /**
   * Text with a '/' keeps only what precedes its first space (a time of day
   * after a date is dropped); text without '/' is kept whole.
   */
  lemma ValueDateRule(s: string)
    ensures var r := FormatBirthDate(Value(s));
      && ('/' !in s ==> r == s)
      && ('/' in s ==>
            && r <= s && ' ' !in r
            && (|r| < |s| ==> s[|r|] == ' ')
            && (' ' !in s ==> r == s))
  {
    var k := IndexOf(s, ' ');
  }

  // ---------------------------------------------------------------- preview

  /** The five values `load_preview` shows for a row, in column order. */
  function PreviewRow(row: Row): seq<string> {
    [ CellText(row.nome, NoName),
      FormatBirthDate(row.dataNascimento),
      CellText(row.responsavel, NotInformed),
      CellText(row.especialidade, NotInformed),
      CellText(row.mesReferencia, NotInformed) ]
  }

  /**
   * The preview and the report header agree on a row's date, guardian and
   * reference month; they agree on the name exactly when it is present (an
   * empty name previews as "Nome não informado" but reaches the report as
   * "nan"); a non-empty specialty is shown as the text the report receives.
   */
  lemma PreviewAgreesWithInfo(row: Row)
    ensures var cells, info := PreviewRow(row), MakeInfo(row);
      && |cells| == 5
      && cells[1] == info.dataNascimento
      && cells[2] == info.responsavel
      && cells[4] == info.mesReferencia
      && (cells[0] == info.nome <==> row.nome.Some?)
      && (row.especialidade.Some? ==> Contribution(row) == [cells[3]])
  {
    if row.nome.None? {
      assert NoName[0] != MissingText[0];
    }
  }

  /** The preview table: one row of values per spreadsheet row. */
  class PreviewTable {
    var items: seq<seq<string>>

    constructor()
      ensures items == []
    {
      items := [];
    }

    /** `load_preview`: clear the table, then insert every row's values in order. */
    method LoadPreview(data: seq<Row>)
      modifies this
      ensures |items| == |data|
      ensures forall i :: 0 <= i < |data| ==> items[i] == PreviewRow(data[i])
    {
      items := [];
      var i := 0;
      while i < |data|
        invariant 0 <= i <= |data|
        invariant |items| == i
        invariant forall j :: 0 <= j < i ==> items[j] == PreviewRow(data[j])
      {
        items := items + [PreviewRow(data[i])];
        i := i + 1;
      }
    }
  }

  // ---------------------------------------------------------------- aggregation

  /** The grouping key of every row, in row order. */
  function NameKeys(rows: seq<Row>): (ks: seq<Option<string>>)
    ensures |ks| == |rows|
    ensures forall i :: 0 <= i < |rows| ==> ks[i] == rows[i].nome
  {
    seq(|rows|, i requires 0 <= i < |rows| => rows[i].nome)
  }

  /**
   * The dictionary `generate_reports` has built after reading `rows`: a key's
   * information is set when the key is first seen, and every row with a
   * non-empty specialty appends it to its key's list.
   */
  function Aggregated(rows: seq<Row>): map<Option<string>, PatientData>
    decreases |rows|
  {
    if rows == [] then map[]
    else
      var m := Aggregated(rows[..|rows| - 1]);
      var row := rows[|rows| - 1];
      var entry := if row.nome in m then m[row.nome] else PatientData(MakeInfo(row), []);
      m[row.nome := entry.(especialidades := entry.especialidades + Contribution(row))]
  }

  /** Reference definition: the specialties of the rows named `k`, in row order, empty cells skipped. */
  function SpecialtiesOf(rows: seq<Row>, k: Option<string>): seq<string>
    decreases |rows|
  {
    if rows == [] then []
    else (if rows[0].nome == k then Contribution(rows[0]) else []) + SpecialtiesOf(rows[1..], k)
  }

  /** Reference definition: the row that gives key `k` its information is the first row named `k`. */
  function FirstRowOf(rows: seq<Row>, k: Option<string>): (row: Row)
    requires k in NameKeys(rows)
    ensures row in rows && row.nome == k
  {
    rows[FirstPos(NameKeys(rows), k)]
  }

  lemma {:induction false} SpecialtiesOfAppend(a: seq<Row>, b: seq<Row>, k: Option<string>)
    ensures SpecialtiesOf(a + b, k) == SpecialtiesOf(a, k) + SpecialtiesOf(b, k)
    decreases |a|
  {
    if a == [] {
      assert a + b == b;
    } else {
      assert (a + b)[0] == a[0];
      assert (a + b)[1..] == a[1..] + b;
      SpecialtiesOfAppend(a[1..], b, k);
      AppendAssoc(if a[0].nome == k then Contribution(a[0]) else [], SpecialtiesOf(a[1..], k), SpecialtiesOf(b, k));
    }
  }

  /** A name no row carries has no specialties. */
  lemma {:induction false} SpecialtiesOfAbsent(rows: seq<Row>, k: Option<string>)
    requires k !in NameKeys(rows)
    ensures SpecialtiesOf(rows, k) == []
    decreases |rows|
  {
    if rows != [] {
      assert NameKeys(rows)[0] == rows[0].nome;
      forall j | 0 <= j < |rows| - 1 ensures NameKeys(rows[1..])[j] != k {
        assert NameKeys(rows[1..])[j] == NameKeys(rows)[j + 1];
      }
      SpecialtiesOfAbsent(rows[1..], k);
    }
  }

  /** The keys of a non-empty sequence of rows are those of all but the last row, then the last row's. */
  lemma SplitLast(rows: seq<Row>)
    requires rows != []
    ensures NameKeys(rows) == NameKeys(rows[..|rows| - 1]) + [rows[|rows| - 1].nome]
  {
  }

  /** The keys of concatenated rows are the keys of each part, in order. */
  lemma NameKeysAppend(a: seq<Row>, b: seq<Row>)
    ensures NameKeys(a + b) == NameKeys(a) + NameKeys(b)
  {
  }

  /** The dictionary has an entry for exactly the names that occur among the rows. */
  lemma {:induction false} AggregatedKeys(rows: seq<Row>)
    ensures forall k :: k in Aggregated(rows) <==> k in NameKeys(rows)
    decreases |rows|
  {
    if rows != [] {
      AggregatedKeys(rows[..|rows| - 1]);
      SplitLast(rows);
    }
  }

  /**
   * Each entry holds the information of the first row with its name and the
   * specialties of all rows with that name, in row order, duplicates and
   * empty strings included.
   */
  lemma {:induction false} AggregatedEntry(rows: seq<Row>, k: Option<string>)
    requires k in NameKeys(rows)
    ensures k in Aggregated(rows)
    ensures Aggregated(rows)[k].info == MakeInfo(FirstRowOf(rows, k))
    ensures Aggregated(rows)[k].especialidades == SpecialtiesOf(rows, k)
    decreases |rows|
  {
    var init := rows[..|rows| - 1];
    var row := rows[|rows| - 1];
    assert rows == init + [row];
    SplitLast(rows);
    AggregatedKeys(init);
    SpecialtiesOfAppend(init, [row], k);
    assert [row][1..] == [];
    assert SpecialtiesOf([row], k) == (if row.nome == k then Contribution(row) else []);
    if k in NameKeys(init) {
      AggregatedEntry(init, k);
      FirstPosPrefix(NameKeys(init), [row.nome], k);
    } else {
      SpecialtiesOfAbsent(init, k);
      assert FirstPos(NameKeys(rows), k) == |init|;
    }
  }

  /** Every specialty listed for `k` comes from a row named `k`, and every such row's specialty is listed. */
  lemma {:induction false} SpecialtiesOfIff(rows: seq<Row>, k: Option<string>, x: string)
    ensures x in SpecialtiesOf(rows, k) <==>
      exists i :: 0 <= i < |rows| && rows[i].nome == k && rows[i].especialidade == Some(x)
    decreases |rows|
  {
    if rows != [] {
      SpecialtiesOfIff(rows[1..], k, x);
      if x in SpecialtiesOf(rows[1..], k) {
        var i :| 0 <= i < |rows[1..]| && rows[1..][i].nome == k && rows[1..][i].especialidade == Some(x);
        assert rows[i + 1] == rows[1..][i];
      }
      if exists i :: 0 <= i < |rows| && rows[i].nome == k && rows[i].especialidade == Some(x) {
        var i :| 0 <= i < |rows| && rows[i].nome == k && rows[i].especialidade == Some(x);
        if i > 0 {
          assert rows[1..][i - 1] == rows[i];
        }
      }
    }
  }

  /** One more row: its key is appended to the keys if it is new. */
  lemma KeysStep(prefix: seq<Row>, row: Row)
    ensures var keys := Dedup(NameKeys(prefix));
      Dedup(NameKeys(prefix + [row])) == if row.nome in keys then keys else keys + [row.nome]
  {
    var rows := prefix + [row];
    assert rows[..|rows| - 1] == prefix;
    SplitLast(rows);
  }

  /** One more row: its entry is created if new, then its specialty (if any) appended. */
  lemma AggregatedStep(prefix: seq<Row>, row: Row)
    ensures Aggregated(prefix + [row]) ==
      var m := Aggregated(prefix);
      var entry := if row.nome in m then m[row.nome] else PatientData(MakeInfo(row), []);
      m[row.nome := entry.(especialidades := entry.especialidades + Contribution(row))]
  {
    var rows := prefix + [row];
    assert rows[..|rows| - 1] == prefix;
  }

  /**
   * Creating a missing entry and then appending the contribution to it,
   * as two separate updates, is the single update of `Aggregated`.
   */
  lemma EntryUpdate(m: map<Option<string>, PatientData>, k: Option<string>, created: PatientData, extra: seq<string>)
    requires created.especialidades == [] && |extra| <= 1
    ensures var entry := if k in m then m[k] else created;
      var m1 := if k in m then m else m[k := created];
      m[k := entry.(especialidades := entry.especialidades + extra)] ==
        if extra == [] then m1 else m1[k := m1[k].(especialidades := m1[k].especialidades + extra)]
  {
    if k in m {
      if extra == [] {
        assert m[k].(especialidades := m[k].especialidades + []) == m[k];
        assert m[k := m[k]] == m;
      }
    } else {
      var m1 := m[k := created];
      assert m1[k] == created;
      if extra != [] {
        var last := created.(especialidades := created.especialidades + extra);
        assert m1[k := last] == m[k := last];
      } else {
        assert created.(especialidades := created.especialidades + extra) == created;
      }
    }
  }

  /** One iteration of the aggregation loop keeps the keys and the dictionary those of the rows read so far. */
  lemma LoopStep(seen: seq<Row>, row: Row,
                 keys: seq<Option<string>>, patients: map<Option<string>, PatientData>,
                 keys': seq<Option<string>>, created: map<Option<string>, PatientData>,
                 patients': map<Option<string>, PatientData>)
    requires keys == Dedup(NameKeys(seen)) && patients == Aggregated(seen)
    requires row.nome in patients ==> keys' == keys && created == patients
    requires row.nome !in patients ==>
      keys' == keys + [row.nome] && created == patients[row.nome := PatientData(MakeInfo(row), [])]
    requires row.especialidade.None? ==> patients' == created
    requires row.especialidade.Some? && row.nome in created ==>
      patients' == created[row.nome := created[row.nome].(especialidades := created[row.nome].especialidades + [row.especialidade.value])]
    ensures keys' == Dedup(NameKeys(seen + [row]))
    ensures patients' == Aggregated(seen + [row])
  {
    KeysStep(seen, row);
    AggregatedStep(seen, row);
    AggregatedKeys(seen);
    EntryUpdate(patients, row.nome, PatientData(MakeInfo(row), []), Contribution(row));
  }

  /**
   * The aggregation loop of `generate_reports`: `keys` are the dictionary's
   * keys in insertion order and `patients` the dictionary itself.
   */
  method AggregateRows(rows: seq<Row>) returns (keys: seq<Option<string>>, patients: map<Option<string>, PatientData>)
    ensures keys == Dedup(NameKeys(rows))
    ensures patients == Aggregated(rows)
  {
    keys := [];
    patients := map[];
    var i := 0;
    while i < |rows|
      invariant 0 <= i <= |rows|
      invariant keys == Dedup(NameKeys(rows[..i]))
      invariant patients == Aggregated(rows[..i])
    {
      var row := rows[i];
      ghost var seen, keys0, patients0 := rows[..i], keys, patients;
      assert rows[..i + 1] == seen + [row];
      // The entry's information is still empty exactly when the key is new.
      if row.nome !in patients {
        patients := patients[row.nome := PatientData(MakeInfo(row), [])];
        keys := keys + [row.nome];
      }
      ghost var created := patients;
      if row.especialidade.Some? {
        patients := patients[row.nome := patients[row.nome].(especialidades := patients[row.nome].especialidades + [row.especialidade.value])];
      }
      LoopStep(seen, row, keys0, patients0, keys, created, patients);
      i := i + 1;
    }
    assert rows[..i] == rows;
  }

  /** The set of names among the rows, read from their keys. */
  lemma NameSet(rows: seq<Row>)
    ensures (set x | x in NameKeys(rows)) == set r | r in rows :: r.nome
  {
    var ks := NameKeys(rows);
    forall x | x in ks ensures x in set r | r in rows :: r.nome {
      var i :| 0 <= i < |ks| && ks[i] == x;
      assert rows[i] in rows;
    }
    forall x | x in set r | r in rows :: r.nome ensures x in ks {
      var r :| r in rows && r.nome == x;
      var i :| 0 <= i < |rows| && rows[i] == r;
      assert ks[i] == x;
    }
  }

  /** There are as many entries, and so as many reports, as distinct names among the rows. */
  lemma AggregateCount(rows: seq<Row>)
    ensures |Dedup(NameKeys(rows))| == |Aggregated(rows).Keys| == |set r | r in rows :: r.nome|
  {
    var ks := NameKeys(rows);
    ListingLength(Dedup(ks), ks);
    AggregatedKeys(rows);
    NameSet(rows);
    assert Aggregated(rows).Keys == set x | x in ks;
  }

  /** Reports are written in the order in which each name first appears among the rows. */
  lemma KeysInFirstAppearanceOrder(rows: seq<Row>, i: nat, j: nat)
    requires i < j < |Dedup(NameKeys(rows))|
    ensures var keys := Dedup(NameKeys(rows));
      FirstPos(NameKeys(rows), keys[i]) < FirstPos(NameKeys(rows), keys[j])
  {
    DedupInOrder(NameKeys(rows), i, j);
  }

  /** Later rows never change the information already recorded for a name. */
  lemma FirstRowWins(rows: seq<Row>, more: seq<Row>, k: Option<string>)
    requires k in NameKeys(rows)
    ensures k in Aggregated(rows) && k in Aggregated(rows + more)
    ensures Aggregated(rows + more)[k].info == Aggregated(rows)[k].info
  {
    AggregatedEntry(rows, k);
    NameKeysAppend(rows, more);
    AggregatedEntry(rows + more, k);
    FirstPosPrefix(NameKeys(rows), NameKeys(more), k);
    assert (rows + more)[FirstPos(NameKeys(rows), k)] == rows[FirstPos(NameKeys(rows), k)];
  }

  /** Later rows only append to a name's specialties: order and duplicates are kept. */
  lemma SpecialtiesAccumulate(rows: seq<Row>, more: seq<Row>, k: Option<string>)
    requires k in NameKeys(rows)
    ensures k in Aggregated(rows) && k in Aggregated(rows + more)
    ensures Aggregated(rows + more)[k].especialidades ==
      Aggregated(rows)[k].especialidades + SpecialtiesOf(more, k)
  {
    AggregatedEntry(rows, k);
    NameKeysAppend(rows, more);
    AggregatedEntry(rows + more, k);
    SpecialtiesOfAppend(rows, more, k);
  }
}
