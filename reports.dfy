/**
 * The report composer of gerador_relatorios/reports.py. Each helper appends
 * blocks to a shared `Document`; the two generators call them in a fixed
 * order and name the output file. Each method is proved against a function
 * that gives the blocks it appends, and those functions are what the lemmas
 * in ReportFacts talk about.
 */
module Reports {
  import opened Wrappers
  import opened Text
  import opened Docx
  import opened Specialties
  import opened Narratives
  import opened Seqs

  /** The demographic fields of one patient, already formatted as text. */
  datatype Info = Info(nome: string, dataNascimento: string, responsavel: string, mesReferencia: string)

  /** One patient aggregate: its info and the raw specialty strings of its rows. */
  datatype PatientData = PatientData(info: Info, especialidades: seq<string>)

  datatype Profile = Pne | Tipico

  /** What a generator hands to the file system: a file name and the document body. */
  datatype ReportFile = ReportFile(filename: string, blocks: seq<Block>)

  const HeaderLabels: seq<string> :=
    ["Nome", "Data de Nascimento", "Responsável", "Convênio", "Especialidade", "Mês de referência"]

  const PlaceDateText: string := "Brasília, data da assinatura digital."
  /** The signature line: fifty underscores. */
  const SignatureRule: string := "__________________________________________________"
  const SignerCaption: string := "Responsável técnica(o)"

  /** The Típico report's titled programming sections: every specialty but Psicoterapia. */
  const TipicoTitledOrder: seq<Specialty> :=
    [Aba, TerapiaOcupacional, Fonoaudiologia, Psicomotricidade, Psicopedagogia]

  function Convenio(profile: Profile): string {
    if profile == Pne then "Fusex PNE" else "FUSEX"
  }

  /** The heading written when the letterhead template cannot be opened. */
  function FallbackHeading(profile: Profile): string {
    if profile == Pne then "CLÍNICA MÉDICA - PNE" else "CLÍNICA MÉDICA"
  }

  function FilenamePrefix(profile: Profile): string {
    if profile == Pne then "Relatório_PNE_" else "Relatório_Típico_"
  }

  /** The output file name: profile prefix, the name with each space made '_', ".docx". */
  function ReportFilename(profile: Profile, nome: string): string {
    FilenamePrefix(profile) + ReplaceChar(nome, ' ', '_') + ".docx"
  }

  // ---------------------------------------------------------------------------
  // The blocks each helper appends

  /** `add_section_title`: one bold run, justified, with the given spacing. */
  function TitleBlock(title: string, before: nat, after: nat): Block {
    Para(Paragraph([Run(title, true, None)], Justify, Some(before), Some(after)))
  }

  /** `add_section_text`: the plain text, justified, with the given spacing. */
  function TextBlock(text: string, before: nat, after: nat): Block {
    Para(Paragraph(PlainRuns(text), Justify, Some(before), Some(after)))
  }

  /** The centred bold 16-point heading of a document opened without template. */
  function HeadingBlock(text: string): Block {
    Para(Paragraph([Run(text, true, Some(16))], Center, None, None))
  }

  /** `add_fixed_signature_section`: the text right-aligned at the given size. */
  function PlaceDateBlock(text: string, fontSize: nat, alignment: Alignment): Block {
    Para(Paragraph(if text == "" then [] else [Run(text, false, Some(fontSize))], alignment, None, None))
  }

  const RuleBlock: Block := Para(Paragraph(PlainRuns(SignatureRule), Center, Some(24), Some(6)))
  const CaptionBlock: Block := Para(Paragraph(PlainRuns(SignerCaption), Center, None, None))

  /** `add_signature_section`, whatever its signature type. */
  const SignatureBlocks: seq<Block> := [Blank, RuleBlock, CaptionBlock]

  /** What both reports end with: the place/date line and the signature rule. */
  const ClosingBlocks: seq<Block> :=
    [PlaceDateBlock(PlaceDateText, 12, Right)] + SignatureBlocks

  /** The start of a document: the template's content, or the fallback heading and a blank line. */
  function Opening(template: Option<seq<Block>>, heading: string): seq<Block> {
    match template
    case Some(content) => content
    case None => [HeadingBlock(heading), Blank]
  }

  /** `add_specialty_section`: title, evolution paragraph, and the programming paragraph when non-empty. */
  function SpecialtySection(name: string, evolutionText: string, programmingText: Option<string>, isEvolution: bool): seq<Block> {
    [TitleBlock(name, if isEvolution then 18 else 16, 8), TextBlock(evolutionText, 12, 12)]
    + (if programmingText.Some? && programmingText.value != "" then [TextBlock(programmingText.value, 12, 12)] else [])
  }

  // ---------------------------------------------------------------------------
  // The header table

  /** The value shown on each header row, in row order. */
  function HeaderValues(info: Info, convenio: string, listing: seq<string>): seq<string> {
    [info.nome, info.dataNascimento, info.responsavel, convenio, Join(listing, ", "), info.mesReferencia]
  }

  /** The six lines of the header table. */
  function HeaderLines(info: Info, convenio: string, listing: seq<string>): seq<string> {
    [ "Nome: " + info.nome,
      "Data de Nascimento: " + info.dataNascimento,
      "Responsável: " + info.responsavel,
      "Convênio: " + convenio,
      "Especialidade: " + Join(listing, ", "),
      "Mês de referência: " + info.mesReferencia ]
  }

  /** The cell paragraph one iteration of the header loop fills in for `line`. */
  function HeaderCell(line: string): Paragraph {
    if ':' in line then
      var k := IndexOf(line, ':');
      Paragraph([Run(line[..k] + ": ", true, None), Run(line[k + 1..], false, None)], Justify, None, None)
    else
      Paragraph([Run(line, true, None)], Justify, None, None)
  }

  function HeaderCells(lines: seq<string>): (cells: seq<Paragraph>)
    ensures |cells| == |lines|
  {
    seq(|lines|, i requires 0 <= i < |lines| => HeaderCell(lines[i]))
  }

  /** `create_header_table`: the six-row table and a blank paragraph after it. */
  function HeaderBlocks(info: Info, convenio: string, listing: seq<string>): seq<Block> {
    [Table(HeaderCells(HeaderLines(info, convenio, listing))), Blank]
  }

  // ---------------------------------------------------------------------------
  // The report bodies

  function EvolutionSection(sp: Specialty, esps: seq<string>): seq<Block> {
    if Present(sp, esps) then SpecialtySection(Title(sp), EvolutionText(sp), None, true) else []
  }

  /** The PNE evolution sections of `kinds` whose test holds, in the order of `kinds`. */
  function EvolutionSections(kinds: seq<Specialty>, esps: seq<string>): seq<Block> {
    if kinds == [] then [] else EvolutionSection(kinds[0], esps) + EvolutionSections(kinds[1..], esps)
  }

  function ProgrammingSection(sp: Specialty, esps: seq<string>): seq<Block> {
    if Present(sp, esps) then [TitleBlock(Title(sp), 16, 8), TextBlock(ProgrammingText(sp), 12, 12)] else []
  }

  /** The titled programming sections of `kinds` whose test holds, in the order of `kinds`. */
  function ProgrammingSections(kinds: seq<Specialty>, esps: seq<string>): seq<Block> {
    if kinds == [] then [] else ProgrammingSection(kinds[0], esps) + ProgrammingSections(kinds[1..], esps)
  }

  const PneIntro: seq<Block> :=
    [TitleBlock("Hipótese Diagnóstica", 24, 12), TextBlock(PneDiagnosis, 12, 12)]

  const PneFinal: seq<Block> :=
    [TitleBlock("Considerações Finais", 30, 12), TextBlock(PneClosing, 12, 12), TextBlock(PneAvailability, 12, 12)]

  /** Everything the PNE report writes after the header table. */
  function PneBody(esps: seq<string>): seq<Block> {
    PneIntro
    + EvolutionSections(Order, esps)
    + [TitleBlock("Programação Terapêutica Atual", 30, 12)]
    + ProgrammingSections(Order, esps)
    + PneFinal
    + ClosingBlocks
  }

  const TipicoIntro: seq<Block> :=
    [ TitleBlock("Hipótese Diagnóstica", 24, 12), TextBlock(TipicoDiagnosis, 12, 12),
      TitleBlock("Evolução", 24, 12), TextBlock(TipicoEvolution, 12, 12),
      TitleBlock("Programação Terapêutica Atual", 24, 12) ]

  /** The Típico report's untitled Psicoterapia paragraph, when that test holds. */
  function TipicoPsicoterapia(esps: seq<string>): seq<Block> {
    if Present(Psicoterapia, esps) then [TextBlock(TipicoPsicoterapiaProgramming, 12, 12)] else []
  }

  const TipicoFinal: seq<Block> :=
    [TitleBlock("Considerações Finais", 24, 12), TextBlock(TipicoClosing, 12, 12)]

  /** Everything the Típico report writes after the header table. */
  function TipicoBody(esps: seq<string>): seq<Block> {
    TipicoIntro
    + TipicoPsicoterapia(esps)
    + ProgrammingSections(TipicoTitledOrder, esps)
    + TipicoFinal
    + ClosingBlocks
  }

  function Body(profile: Profile, esps: seq<string>): seq<Block> {
    if profile == Pne then PneBody(esps) else TipicoBody(esps)
  }

  /**
   * The whole document a generator saves, given the order in which the set
   * of distinct specialties happened to be listed in the header.
   */
  function ReportDocument(profile: Profile, template: Option<seq<Block>>, patient: PatientData, listing: seq<string>): seq<Block> {
    Opening(template, FallbackHeading(profile))
    + HeaderBlocks(patient.info, Convenio(profile), listing)
    + Body(profile, patient.especialidades)
  }

  // ---------------------------------------------------------------------------
  // The helpers, appending to the document

  method AddSectionTitle(doc: Document, title: string, spaceBefore: nat, spaceAfter: nat)
    modifies doc
    ensures doc.blocks == old(doc.blocks) + [TitleBlock(title, spaceBefore, spaceAfter)]
  {
    doc.AddParagraph(Paragraph([Run(title, true, None)], Justify, Some(spaceBefore), Some(spaceAfter)));
  }

  method AddSectionText(doc: Document, text: string, spaceBefore: nat, spaceAfter: nat)
    modifies doc
    ensures doc.blocks == old(doc.blocks) + [TextBlock(text, spaceBefore, spaceAfter)]
  {
    doc.AddParagraph(Paragraph(PlainRuns(text), Justify, Some(spaceBefore), Some(spaceAfter)));
  }

  method AddSpecialtySection(doc: Document, specialtyName: string, evolutionText: string, programmingText: Option<string>, isEvolution: bool)
    modifies doc
    ensures doc.blocks == old(doc.blocks) + SpecialtySection(specialtyName, evolutionText, programmingText, isEvolution)
  {
    if isEvolution {
      AddSectionTitle(doc, specialtyName, 18, 8);
    } else {
      AddSectionTitle(doc, specialtyName, 16, 8);
    }
    AddSectionText(doc, evolutionText, 12, 12);
    if programmingText.Some? && programmingText.value != "" {
      AddSectionText(doc, programmingText.value, 12, 12);
    }
  }

  /**
   * `add_fixed_signature_section`. For an empty text the paragraph gets no
   * run, so setting the run's size raises after the paragraph was added:
   * `raised` reports that.
   */
  method AddFixedSignatureSection(doc: Document, text: string, fontSize: nat, alignment: Alignment) returns (raised: bool)
    modifies doc
    ensures raised <==> text == ""
    ensures doc.blocks == old(doc.blocks) + [PlaceDateBlock(text, fontSize, alignment)]
  {
    var runs := PlainRuns(text);
    if runs == [] {
      doc.AddParagraph(Paragraph([], alignment, None, None));
      raised := true;
    } else {
      doc.AddParagraph(Paragraph([Run(runs[0].text, runs[0].bold, Some(fontSize))], alignment, None, None));
      raised := false;
    }
  }

  /** `add_signature_section`: the same three paragraphs for every signature type. */
  method AddSignatureSection(doc: Document, signatureType: string)
    modifies doc
    ensures doc.blocks == old(doc.blocks) + SignatureBlocks
  {
    doc.AddParagraph(Paragraph([], Unset, None, None));
    doc.AddParagraph(Paragraph(PlainRuns(SignatureRule), Center, Some(24), Some(6)));
    doc.AddParagraph(Paragraph(PlainRuns(SignerCaption), Center, None, None));
  }

  /** Open the letterhead template, or fall back to a heading and a blank line. */
  method OpenReport(template: Option<seq<Block>>, heading: string) returns (doc: Document)
    ensures fresh(doc)
    ensures doc.blocks == Opening(template, heading)
  {
    match template {
      case Some(content) =>
        doc := new Document(content);
      case None =>
        doc := new Document([]);
        doc.AddParagraph(Paragraph([Run(heading, true, Some(16))], Center, None, None));
        doc.AddParagraph(Paragraph([], Unset, None, None));
    }
  }

  /**
   * `create_header_table`. The distinct specialties are listed in the order
   * a set yields them, which the contract leaves open: some duplicate-free
   * listing of them.
   */
  method CreateHeaderTable(doc: Document, patient: PatientData, convenio: string)
    modifies doc
    ensures exists listing ::
      && IsListing(listing, patient.especialidades)
      && doc.blocks == old(doc.blocks) + HeaderBlocks(patient.info, convenio, listing)
  {
    var especialidadesUnicas := Dedup(patient.especialidades);
    var headerData := HeaderLines(patient.info, convenio, especialidadesUnicas);
    var cells: seq<Paragraph> := [];
    for i := 0 to |headerData|
      invariant |cells| == i
      invariant forall j :: 0 <= j < i ==> cells[j] == HeaderCell(headerData[j])
    {
      var data := headerData[i];
      if ':' in data {
        var k := IndexOf(data, ':');
        cells := cells + [Paragraph([Run(data[..k] + ": ", true, None), Run(data[k + 1..], false, None)], Justify, None, None)];
      } else {
        cells := cells + [Paragraph([Run(data, true, None)], Justify, None, None)];
      }
    }
    assert cells == HeaderCells(headerData);
    doc.AddTable(cells);
    doc.AddParagraph(Paragraph([], Unset, None, None));
  }

  // ---------------------------------------------------------------------------
  // The generators

  /**
   * `generate_pne_report`: build the PNE document and save it under its file
   * name. `writable` says whether saving that file succeeds; when it does
   * not, the error (named by the file) propagates to the caller.
   */
  method GeneratePneReport(patient: PatientData, template: Option<seq<Block>>, writable: string -> bool)
    returns (r: Result<ReportFile, string>)
    ensures r.Success? <==> writable(ReportFilename(Pne, patient.info.nome))
    ensures r.Failure? ==> r.error == ReportFilename(Pne, patient.info.nome)
    ensures r.Success? ==> r.value.filename == ReportFilename(Pne, patient.info.nome)
    ensures r.Success? ==> exists listing ::
      && IsListing(listing, patient.especialidades)
      && r.value.blocks == ReportDocument(Pne, template, patient, listing)
  {
    var doc := OpenReport(template, "CLÍNICA MÉDICA - PNE");
    CreateHeaderTable(doc, patient, "Fusex PNE");
    ghost var listing :| IsListing(listing, patient.especialidades)
      && doc.blocks == Opening(template, FallbackHeading(Pne)) + HeaderBlocks(patient.info, Convenio(Pne), listing);
    WritePneBody(doc, patient.especialidades);

    var filename := ReportFilename(Pne, patient.info.nome);
    if writable(filename) {
      r := Success(ReportFile(filename, doc.blocks));
    } else {
      r := Failure(filename);
    }
  }

  /**
   * `generate_tipico_report`: build the Típico document and save it under
   * its file name, with the same treatment of a failing save.
   */
  method GenerateTipicoReport(patient: PatientData, template: Option<seq<Block>>, writable: string -> bool)
    returns (r: Result<ReportFile, string>)
    ensures r.Success? <==> writable(ReportFilename(Tipico, patient.info.nome))
    ensures r.Failure? ==> r.error == ReportFilename(Tipico, patient.info.nome)
    ensures r.Success? ==> r.value.filename == ReportFilename(Tipico, patient.info.nome)
    ensures r.Success? ==> exists listing ::
      && IsListing(listing, patient.especialidades)
      && r.value.blocks == ReportDocument(Tipico, template, patient, listing)
  {
    var doc := OpenReport(template, "CLÍNICA MÉDICA");
    CreateHeaderTable(doc, patient, "FUSEX");
    ghost var listing :| IsListing(listing, patient.especialidades)
      && doc.blocks == Opening(template, FallbackHeading(Tipico)) + HeaderBlocks(patient.info, Convenio(Tipico), listing);
    WriteTipicoBody(doc, patient.especialidades);

    var filename := ReportFilename(Tipico, patient.info.nome);
    if writable(filename) {
      r := Success(ReportFile(filename, doc.blocks));
    } else {
      r := Failure(filename);
    }
  }

  /** The part of `generate_pne_report` after the header table: sections, closing and signature. */
  method WritePneBody(doc: Document, esps: seq<string>)
    modifies doc
    ensures doc.blocks == old(doc.blocks) + PneBody(esps)
  {
    ghost var head := doc.blocks;
    WritePneIntro(doc);
    ghost var intro := doc.blocks;

    var especialidadesEncontradas := UpperAll(esps);
    AddPneEvolutionSections(doc, especialidadesEncontradas, esps);
    ghost var evolutions := doc.blocks;

    AddSectionTitle(doc, "Programação Terapêutica Atual", 30, 12);
    ghost var programmingTitle := doc.blocks;
    AddPneProgrammingSections(doc, especialidadesEncontradas, esps);
    ghost var programming := doc.blocks;

    WritePneFinal(doc);
    ghost var final := doc.blocks;
    WriteClosing(doc, "pne");
    PneBodyAssembled(head, intro, evolutions, programmingTitle, programming, final, doc.blocks, esps);
  }

  /** The PNE diagnosis: its heading and paragraph. */
  method WritePneIntro(doc: Document)
    modifies doc
    ensures doc.blocks == old(doc.blocks) + PneIntro
  {
    ghost var head := doc.blocks;
    AddSectionTitle(doc, "Hipótese Diagnóstica", 24, 12);
    AddSectionText(doc, PneDiagnosis, 12, 12);
    AppendAssoc(head, [TitleBlock("Hipótese Diagnóstica", 24, 12)], [TextBlock(PneDiagnosis, 12, 12)]);
  }

  /** The PNE final considerations: heading and two paragraphs. */
  method WritePneFinal(doc: Document)
    modifies doc
    ensures doc.blocks == old(doc.blocks) + PneFinal
  {
    ghost var programming := doc.blocks;
    AddSectionTitle(doc, "Considerações Finais", 30, 12);
    AddSectionText(doc, PneClosing, 12, 12);
    AppendAssoc(programming, [TitleBlock("Considerações Finais", 30, 12)], [TextBlock(PneClosing, 12, 12)]);
    AddSectionText(doc, PneAvailability, 12, 12);
    AppendAssoc(programming, [TitleBlock("Considerações Finais", 30, 12), TextBlock(PneClosing, 12, 12)], [TextBlock(PneAvailability, 12, 12)]);
  }

  /** The place/date line and the signature block both reports end with. */
  method WriteClosing(doc: Document, signatureType: string)
    modifies doc
    ensures doc.blocks == old(doc.blocks) + ClosingBlocks
  {
    ghost var final := doc.blocks;
    var _ := AddFixedSignatureSection(doc, PlaceDateText, 12, Right);
    AddSignatureSection(doc, signatureType);
    AppendAssoc(final, [PlaceDateBlock(PlaceDateText, 12, Right)], SignatureBlocks);
  }

  /** The part of `generate_tipico_report` after the header table: sections, closing and signature. */
  method WriteTipicoBody(doc: Document, esps: seq<string>)
    modifies doc
    ensures doc.blocks == old(doc.blocks) + TipicoBody(esps)
  {
    ghost var head := doc.blocks;
    WriteTipicoIntro(doc);
    ghost var intro := doc.blocks;

    var especialidadesEncontradas := UpperAll(esps);
    AddTipicoPsicoterapiaIfPresent(doc, especialidadesEncontradas, esps);
    ghost var psicoterapia := doc.blocks;
    AddTipicoProgrammingSections(doc, especialidadesEncontradas, esps);
    ghost var programming := doc.blocks;

    WriteTipicoFinal(doc);
    ghost var final := doc.blocks;
    WriteClosing(doc, "tipico");
    TipicoBodyAssembled(head, intro, psicoterapia, programming, final, doc.blocks, esps);
  }

  /** The Típico diagnosis and evolution, and the programming heading. */
  method WriteTipicoIntro(doc: Document)
    modifies doc
    ensures doc.blocks == old(doc.blocks) + TipicoIntro
  {
    ghost var head := doc.blocks;
    AddSectionTitle(doc, "Hipótese Diagnóstica", 24, 12);
    AddSectionText(doc, TipicoDiagnosis, 12, 12);
    AppendAssoc(head, [TitleBlock("Hipótese Diagnóstica", 24, 12)], [TextBlock(TipicoDiagnosis, 12, 12)]);
    AddSectionTitle(doc, "Evolução", 24, 12);
    AppendAssoc(head, TipicoIntro[..2], [TitleBlock("Evolução", 24, 12)]);
    AddSectionText(doc, TipicoEvolution, 12, 12);
    AppendAssoc(head, TipicoIntro[..3], [TextBlock(TipicoEvolution, 12, 12)]);
    AddSectionTitle(doc, "Programação Terapêutica Atual", 24, 12);
    AppendAssoc(head, TipicoIntro[..4], [TitleBlock("Programação Terapêutica Atual", 24, 12)]);
  }

  /** The Típico final considerations: heading and paragraph. */
  method WriteTipicoFinal(doc: Document)
    modifies doc
    ensures doc.blocks == old(doc.blocks) + TipicoFinal
  {
    ghost var programming := doc.blocks;
    AddSectionTitle(doc, "Considerações Finais", 24, 12);
    AddSectionText(doc, TipicoClosing, 12, 12);
    AppendAssoc(programming, [TitleBlock("Considerações Finais", 24, 12)], [TextBlock(TipicoClosing, 12, 12)]);
  }

  /** The document states `WritePneBody` passes through add up to `PneBody`. */
  lemma PneBodyAssembled(head: seq<Block>, intro: seq<Block>, evolutions: seq<Block>, programmingTitle: seq<Block>,
                         programming: seq<Block>, final: seq<Block>, blocks: seq<Block>, esps: seq<string>)
    requires intro == head + PneIntro
    requires evolutions == intro + EvolutionSections(Order, esps)
    requires programmingTitle == evolutions + [TitleBlock("Programação Terapêutica Atual", 30, 12)]
    requires programming == programmingTitle + ProgrammingSections(Order, esps)
    requires final == programming + PneFinal
    requires blocks == final + ClosingBlocks
    ensures blocks == head + PneBody(esps)
  {
    AppendAssoc6(head, PneIntro, EvolutionSections(Order, esps), [TitleBlock("Programação Terapêutica Atual", 30, 12)],
      ProgrammingSections(Order, esps), PneFinal, ClosingBlocks);
  }

  /** The document states `WriteTipicoBody` passes through add up to `TipicoBody`. */
  lemma TipicoBodyAssembled(head: seq<Block>, intro: seq<Block>, psicoterapia: seq<Block>, programming: seq<Block>,
                            final: seq<Block>, blocks: seq<Block>, esps: seq<string>)
    requires intro == head + TipicoIntro
    requires psicoterapia == intro + TipicoPsicoterapia(esps)
    requires programming == psicoterapia + ProgrammingSections(TipicoTitledOrder, esps)
    requires final == programming + TipicoFinal
    requires blocks == final + ClosingBlocks
    ensures blocks == head + TipicoBody(esps)
  {
    AppendAssoc5(head, TipicoIntro, TipicoPsicoterapia(esps), ProgrammingSections(TipicoTitledOrder, esps), TipicoFinal, ClosingBlocks);
  }

  /** The Típico report's Psicoterapia test: its programming paragraph, untitled, iff the specialty is present. */
  method AddTipicoPsicoterapiaIfPresent(doc: Document, especialidadesEncontradas: seq<string>, ghost esps: seq<string>)
    requires especialidadesEncontradas == UpperAll(esps)
    modifies doc
    ensures doc.blocks == old(doc.blocks) + TipicoPsicoterapia(esps)
  {
    if AnyMatches(Psicoterapia, especialidadesEncontradas) {
      AddSectionText(doc, TipicoPsicoterapiaProgramming, 12, 12);
    }
  }

  /** One test of `generate_pne_report`'s evolution part: the section is written iff the specialty is present. */
  method AddEvolutionIfPresent(doc: Document, sp: Specialty, especialidadesEncontradas: seq<string>, ghost esps: seq<string>)
    requires especialidadesEncontradas == UpperAll(esps)
    modifies doc
    ensures doc.blocks == old(doc.blocks) + EvolutionSection(sp, esps)
  {
    if AnyMatches(sp, especialidadesEncontradas) {
      AddSpecialtySection(doc, Title(sp), EvolutionText(sp), None, true);
    }
  }

  /** One test of a programming part: title (16/8) and text written iff the specialty is present. */
  method AddProgrammingIfPresent(doc: Document, sp: Specialty, especialidadesEncontradas: seq<string>, ghost esps: seq<string>)
    requires especialidadesEncontradas == UpperAll(esps)
    modifies doc
    ensures doc.blocks == old(doc.blocks) + ProgrammingSection(sp, esps)
  {
    if AnyMatches(sp, especialidadesEncontradas) {
      AddSectionTitle(doc, Title(sp), 16, 8);
      AddSectionText(doc, ProgrammingText(sp), 12, 12);
    }
  }

  /** The six PNE evolution tests of `generate_pne_report`, in their order. */
  method AddPneEvolutionSections(doc: Document, especialidadesEncontradas: seq<string>, ghost esps: seq<string>)
    requires especialidadesEncontradas == UpperAll(esps)
    modifies doc
    ensures doc.blocks == old(doc.blocks) + EvolutionSections(Order, esps)
  {
    ghost var s0 := doc.blocks;
    AddEvolutionIfPresent(doc, Aba, especialidadesEncontradas, esps);
    ghost var s1 := doc.blocks;
    AddEvolutionIfPresent(doc, Psicoterapia, especialidadesEncontradas, esps);
    ghost var s2 := doc.blocks;
    AddEvolutionIfPresent(doc, TerapiaOcupacional, especialidadesEncontradas, esps);
    ghost var s3 := doc.blocks;
    AddEvolutionIfPresent(doc, Fonoaudiologia, especialidadesEncontradas, esps);
    ghost var s4 := doc.blocks;
    AddEvolutionIfPresent(doc, Psicomotricidade, especialidadesEncontradas, esps);
    ghost var s5 := doc.blocks;
    AddEvolutionIfPresent(doc, Psicopedagogia, especialidadesEncontradas, esps);
    EvolutionChain(Order, s0, s1, s2, s3, s4, s5, doc.blocks, esps);
  }

  /** Six evolution tests, one per kind in order, append the evolution sections of those kinds. */
  lemma EvolutionChain(kinds: seq<Specialty>, s0: seq<Block>, s1: seq<Block>, s2: seq<Block>, s3: seq<Block>,
                       s4: seq<Block>, s5: seq<Block>, s6: seq<Block>, esps: seq<string>)
    requires |kinds| == 6
    requires s1 == s0 + EvolutionSection(kinds[0], esps)
    requires s2 == s1 + EvolutionSection(kinds[1], esps)
    requires s3 == s2 + EvolutionSection(kinds[2], esps)
    requires s4 == s3 + EvolutionSection(kinds[3], esps)
    requires s5 == s4 + EvolutionSection(kinds[4], esps)
    requires s6 == s5 + EvolutionSection(kinds[5], esps)
    ensures s6 == s0 + EvolutionSections(kinds, esps)
  {
    assert kinds[..0] == [];
    assert s0 == s0 + EvolutionSections(kinds[..0], esps);
    EvolutionStep(s0, s0, s1, kinds, 0, esps);
    EvolutionStep(s0, s1, s2, kinds, 1, esps);
    EvolutionStep(s0, s2, s3, kinds, 2, esps);
    EvolutionStep(s0, s3, s4, kinds, 3, esps);
    EvolutionStep(s0, s4, s5, kinds, 4, esps);
    EvolutionStep(s0, s5, s6, kinds, 5, esps);
    assert kinds[..6] == kinds;
  }

  /** The six programming tests of `generate_pne_report`, in their order. */
  method AddPneProgrammingSections(doc: Document, especialidadesEncontradas: seq<string>, ghost esps: seq<string>)
    requires especialidadesEncontradas == UpperAll(esps)
    modifies doc
    ensures doc.blocks == old(doc.blocks) + ProgrammingSections(Order, esps)
  {
    ghost var s0 := doc.blocks;
    AddProgrammingIfPresent(doc, Aba, especialidadesEncontradas, esps);
    ghost var s1 := doc.blocks;
    AddProgrammingIfPresent(doc, Psicoterapia, especialidadesEncontradas, esps);
    ghost var s2 := doc.blocks;
    AddProgrammingIfPresent(doc, TerapiaOcupacional, especialidadesEncontradas, esps);
    ghost var s3 := doc.blocks;
    AddProgrammingIfPresent(doc, Fonoaudiologia, especialidadesEncontradas, esps);
    ghost var s4 := doc.blocks;
    AddProgrammingIfPresent(doc, Psicomotricidade, especialidadesEncontradas, esps);
    ghost var s5 := doc.blocks;
    AddProgrammingIfPresent(doc, Psicopedagogia, especialidadesEncontradas, esps);
    ProgrammingChain6(Order, s0, s1, s2, s3, s4, s5, doc.blocks, esps);
  }

  /** Six programming tests, one per kind in order, append the programming sections of those kinds. */
  lemma ProgrammingChain6(kinds: seq<Specialty>, s0: seq<Block>, s1: seq<Block>, s2: seq<Block>, s3: seq<Block>,
                          s4: seq<Block>, s5: seq<Block>, s6: seq<Block>, esps: seq<string>)
    requires |kinds| == 6
    requires s1 == s0 + ProgrammingSection(kinds[0], esps)
    requires s2 == s1 + ProgrammingSection(kinds[1], esps)
    requires s3 == s2 + ProgrammingSection(kinds[2], esps)
    requires s4 == s3 + ProgrammingSection(kinds[3], esps)
    requires s5 == s4 + ProgrammingSection(kinds[4], esps)
    requires s6 == s5 + ProgrammingSection(kinds[5], esps)
    ensures s6 == s0 + ProgrammingSections(kinds, esps)
  {
    ProgrammingChain5(kinds[..5], s0, s1, s2, s3, s4, s5, esps);
    ProgrammingStep(s0, s5, s6, kinds, 5, esps);
    assert kinds[..6] == kinds;
  }

  /** The five titled programming tests of `generate_tipico_report` (Psicoterapia is written untitled before them). */
  method AddTipicoProgrammingSections(doc: Document, especialidadesEncontradas: seq<string>, ghost esps: seq<string>)
    requires especialidadesEncontradas == UpperAll(esps)
    modifies doc
    ensures doc.blocks == old(doc.blocks) + ProgrammingSections(TipicoTitledOrder, esps)
  {
    ghost var s0 := doc.blocks;
    AddProgrammingIfPresent(doc, Aba, especialidadesEncontradas, esps);
    ghost var s1 := doc.blocks;
    AddProgrammingIfPresent(doc, TerapiaOcupacional, especialidadesEncontradas, esps);
    ghost var s2 := doc.blocks;
    AddProgrammingIfPresent(doc, Fonoaudiologia, especialidadesEncontradas, esps);
    ghost var s3 := doc.blocks;
    AddProgrammingIfPresent(doc, Psicomotricidade, especialidadesEncontradas, esps);
    ghost var s4 := doc.blocks;
    AddProgrammingIfPresent(doc, Psicopedagogia, especialidadesEncontradas, esps);
    ProgrammingChain5(TipicoTitledOrder, s0, s1, s2, s3, s4, doc.blocks, esps);
  }

  /** Five programming tests, one per kind in order, append the programming sections of those kinds. */
  lemma ProgrammingChain5(kinds: seq<Specialty>, s0: seq<Block>, s1: seq<Block>, s2: seq<Block>, s3: seq<Block>,
                          s4: seq<Block>, s5: seq<Block>, esps: seq<string>)
    requires |kinds| == 5
    requires s1 == s0 + ProgrammingSection(kinds[0], esps)
    requires s2 == s1 + ProgrammingSection(kinds[1], esps)
    requires s3 == s2 + ProgrammingSection(kinds[2], esps)
    requires s4 == s3 + ProgrammingSection(kinds[3], esps)
    requires s5 == s4 + ProgrammingSection(kinds[4], esps)
    ensures s5 == s0 + ProgrammingSections(kinds, esps)
  {
    assert kinds[..0] == [];
    assert s0 == s0 + ProgrammingSections(kinds[..0], esps);
    ProgrammingStep(s0, s0, s1, kinds, 0, esps);
    ProgrammingStep(s0, s1, s2, kinds, 1, esps);
    ProgrammingStep(s0, s2, s3, kinds, 2, esps);
    ProgrammingStep(s0, s3, s4, kinds, 3, esps);
    ProgrammingStep(s0, s4, s5, kinds, 4, esps);
    assert kinds[..5] == kinds;
  }

  /** Appending one more specialty's evolution section extends the prefix of `Order` covered. */
  lemma EvolutionStep(start: seq<Block>, mid: seq<Block>, blocks: seq<Block>, kinds: seq<Specialty>, k: nat, esps: seq<string>)
    requires k < |kinds|
    requires mid == start + EvolutionSections(kinds[..k], esps)
    requires blocks == mid + EvolutionSection(kinds[k], esps)
    ensures blocks == start + EvolutionSections(kinds[..k + 1], esps)
  {
    EvolutionSectionsSnoc(kinds, k, esps);
    AppendAssoc(start, EvolutionSections(kinds[..k], esps), EvolutionSection(kinds[k], esps));
  }

  lemma ProgrammingStep(start: seq<Block>, mid: seq<Block>, blocks: seq<Block>, kinds: seq<Specialty>, k: nat, esps: seq<string>)
    requires k < |kinds|
    requires mid == start + ProgrammingSections(kinds[..k], esps)
    requires blocks == mid + ProgrammingSection(kinds[k], esps)
    ensures blocks == start + ProgrammingSections(kinds[..k + 1], esps)
  {
    ProgrammingSectionsSnoc(kinds, k, esps);
    AppendAssoc(start, ProgrammingSections(kinds[..k], esps), ProgrammingSection(kinds[k], esps));
  }

  lemma {:induction false} EvolutionSectionsSnoc(kinds: seq<Specialty>, k: nat, esps: seq<string>)
    requires k < |kinds|
    ensures EvolutionSections(kinds[..k + 1], esps) == EvolutionSections(kinds[..k], esps) + EvolutionSection(kinds[k], esps)
    decreases k
  {
    if k > 0 {
      EvolutionSectionsSnoc(kinds[1..], k - 1, esps);
      assert kinds[..k + 1][1..] == kinds[1..][..k];
      assert kinds[..k][1..] == kinds[1..][..k - 1];
      AppendAssoc(EvolutionSection(kinds[0], esps), EvolutionSections(kinds[1..][..k - 1], esps), EvolutionSection(kinds[k], esps));
    } else {
      assert kinds[..1][1..] == [];
    }
  }

  lemma {:induction false} ProgrammingSectionsSnoc(kinds: seq<Specialty>, k: nat, esps: seq<string>)
    requires k < |kinds|
    ensures ProgrammingSections(kinds[..k + 1], esps) == ProgrammingSections(kinds[..k], esps) + ProgrammingSection(kinds[k], esps)
    decreases k
  {
    if k > 0 {
      ProgrammingSectionsSnoc(kinds[1..], k - 1, esps);
      assert kinds[..k + 1][1..] == kinds[1..][..k];
      assert kinds[..k][1..] == kinds[1..][..k - 1];
      AppendAssoc(ProgrammingSection(kinds[0], esps), ProgrammingSections(kinds[1..][..k - 1], esps), ProgrammingSection(kinds[k], esps));
    } else {
      assert kinds[..1][1..] == [];
    }
  }
}
