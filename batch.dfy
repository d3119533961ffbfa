/**
 * The report batch of `generate_reports` (gerador_relatorios/gui.py): refuse
 * to run without data, group the rows per patient, stop if no output folder
 * was chosen, then write one report per patient with the generator of the
 * selected type, stopping at the first report that cannot be saved.
 */
module Batch {
  import opened Wrappers
  import opened Seqs
  import opened Docx
  import opened Reports
  import opened Aggregation

  const NoDataMessage: string := "Nenhum arquivo carregado! Use 'Selecionar Arquivo' ou 'Usar Exemplo'."
  const FailurePrefix: string := "Erro ao gerar relatórios: "

  /** How a run ends: the files written so far travel with the success and the failure. */
  datatype Outcome =
    | NoData(message: string)
    | Cancelled
    | Generated(count: nat, files: seq<ReportFile>)
    | Failed(files: seq<ReportFile>, message: string)

  /** The report type choice: "PNE" selects the PNE report, any other value the Típico one. */
  function ProfileFor(reportType: string): (p: Profile)
    ensures p == Pne <==> reportType == "PNE"
  {
    if reportType == "PNE" then Pne else Tipico
  }

  /** The dictionary's entries in insertion order. */
  function Patients(rows: seq<Row>): (ps: seq<PatientData>)
    ensures |ps| == |Dedup(NameKeys(rows))|
    ensures forall i :: 0 <= i < |ps| ==>
      Dedup(NameKeys(rows))[i] in Aggregated(rows) && ps[i] == Aggregated(rows)[Dedup(NameKeys(rows))[i]]
  {
    var keys := Dedup(NameKeys(rows));
    AggregatedKeys(rows);
    seq(|keys|, i requires 0 <= i < |keys| => Aggregated(rows)[keys[i]])
  }

  /** The file written for `patient` is the document of the chosen type, for some order of the header's specialties. */
  ghost predicate IsReportFor(f: ReportFile, profile: Profile, template: Option<seq<Block>>, patient: PatientData) {
    && f.filename == ReportFilename(profile, patient.info.nome)
    && exists listing ::
      && IsListing(listing, patient.especialidades)
      && f.blocks == ReportDocument(profile, template, patient, listing)
  }

  /** The file of every patient up to `n` can be saved. */
  predicate AllWritable(ps: seq<PatientData>, profile: Profile, writable: string -> bool, n: nat)
    requires n <= |ps|
  {
    forall j :: 0 <= j < n ==> writable(ReportFilename(profile, ps[j].info.nome))
  }

  lemma WritableExtends(ps: seq<PatientData>, profile: Profile, writable: string -> bool, n: nat)
    requires n < |ps| && AllWritable(ps, profile, writable, n)
    requires writable(ReportFilename(profile, ps[n].info.nome))
    ensures AllWritable(ps, profile, writable, n + 1)
  {
  }

  lemma ReportsExtend(files: seq<ReportFile>, f: ReportFile, profile: Profile, template: Option<seq<Block>>, ps: seq<PatientData>)
    requires |files| < |ps|
    requires forall j :: 0 <= j < |files| ==> IsReportFor(files[j], profile, template, ps[j])
    requires IsReportFor(f, profile, template, ps[|files|])
    ensures forall j :: 0 <= j < |files| + 1 ==> IsReportFor((files + [f])[j], profile, template, ps[j])
  {
  }

  /** One report for one patient, with the generator the report type selects. */
  method GenerateOne(patient: PatientData, reportType: string, template: Option<seq<Block>>, writable: string -> bool)
    returns (r: Result<ReportFile, string>)
    ensures r.Success? <==> writable(ReportFilename(ProfileFor(reportType), patient.info.nome))
    ensures r.Failure? ==> r.error == ReportFilename(ProfileFor(reportType), patient.info.nome)
    ensures r.Success? ==> IsReportFor(r.value, ProfileFor(reportType), template, patient)
  {
    if reportType == "PNE" {
      r := GeneratePneReport(patient, template, writable);
    } else {
      r := GenerateTipicoReport(patient, template, writable);
    }
  }

  /**
   * `generate_reports`: `data` is the loaded sheet (`None` when nothing was
   * loaded), `outputDir` the folder chosen ("" when the dialog was
   * cancelled), and `writable` whether a report file can be saved there.
   */
  method GenerateReports(data: Option<seq<Row>>, reportType: string, outputDir: string,
                         template: Option<seq<Block>>, writable: string -> bool)
    returns (o: Outcome)
    ensures data.None? <==> o.NoData?
    ensures o.NoData? ==> o.message == NoDataMessage
    ensures o.Cancelled? <==> data.Some? && outputDir == ""
    ensures data.Some? && outputDir != "" ==>
      var ps, profile := Patients(data.value), ProfileFor(reportType);
      && (o.Generated? <==> AllWritable(ps, profile, writable, |ps|))
      && (o.Generated? ==> o.count == |o.files| == |ps| == |set r | r in data.value :: r.nome|)
      && (o.Generated? || o.Failed?)
      && (o.Failed? ==>
            && |o.files| < |ps|
            && AllWritable(ps, profile, writable, |o.files|)
            && !writable(ReportFilename(profile, ps[|o.files|].info.nome))
            && o.message == FailurePrefix + ReportFilename(profile, ps[|o.files|].info.nome))
      && (forall j :: 0 <= j < |o.files| ==> IsReportFor(o.files[j], profile, template, ps[j]))
  {
    if data.None? {
      return NoData(NoDataMessage);
    }
    var rows := data.value;
    var keys, patients := AggregateRows(rows);
    if outputDir == "" {
      return Cancelled;
    }
    ghost var ps := Patients(rows);
    AggregateCount(rows);
    ghost var profile := ProfileFor(reportType);
    var files: seq<ReportFile> := [];
    var reportCount := 0;
    var i := 0;
    while i < |keys|
      invariant 0 <= i <= |keys| == |ps|
      invariant reportCount == i == |files|
      invariant AllWritable(ps, profile, writable, i)
      invariant forall j :: 0 <= j < i ==> IsReportFor(files[j], profile, template, ps[j])
    {
      assert keys[i] in patients && patients[keys[i]] == ps[i];
      var r := GenerateOne(patients[keys[i]], reportType, template, writable);
      if r.Failure? {
        return Failed(files, FailurePrefix + r.error);
      }
      assert writable(ReportFilename(profile, ps[i].info.nome));
      WritableExtends(ps, profile, writable, i);
      ReportsExtend(files, r.value, profile, template, ps);
      files := files + [r.value];
      reportCount := reportCount + 1;
      i := i + 1;
    }
    o := Generated(reportCount, files);
  }
}
