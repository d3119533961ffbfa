# Gerador de relatórios — a verified model

This project models the core of *gerador-de-relatorios*, a desktop tool that reads
a spreadsheet of therapy-clinic patients and writes one Word report per patient.
It comes in two layouts: PNE (special-needs patients, agreement "Fusex PNE") and
Típico (agreement "FUSEX"). The model covers three parts of the tool:

- **loading** (`data_loader.py`): the check that the sheet has the five required
  columns, and the error message when it does not;
- **aggregation and the batch** (`gui.py`): the preview table and the per-row
  birth-date rule. The rows are grouped into one entry per patient name: the first
  row gives the patient's information, and every row adds its specialty. Then the
  batch runs, choosing PNE or Típico and stopping at the first report that cannot
  be saved;
- **report composition** (`reports.py`): the header table and the section helpers.
  Six specialty tests (Terapia ABA, Psicoterapia, Terapia Ocupacional,
  Fonoaudiologia, Psicomotricidade, Psicopedagogia) decide which sections a report
  gets, and the two generators put the sections together.

Modules:

| module | file | what it holds |
|---|---|---|
| `Wrappers` | wrappers.dfy | `Option`, `Result` |
| `Text` | text.dfy | substring search, ASCII `upper`, `join`, one-character `replace`, `split(c)[0]`, zero-padded digits |
| `Seqs` | seqs.dfy | duplicate-free listings, first-appearance `Dedup`, first positions |
| `DataLoader` | data_loader.dfy | required columns and `load_excel` after reading |
| `Docx` | docx.dfy | runs, paragraphs, tables, and a `Document` class that only grows at its end |
| `Specialties` | specialties.dfy | the six specialty tests and their trigger substrings |
| `Narratives` | narratives.dfy | the fixed paragraphs of both reports, word for word |
| `Reports` | reports.dfy | helpers and generators as methods on `Document`, each proved against a function giving the blocks it appends |
| `ReportFacts` | report_facts.dfy | what those functions promise: titles and their order, header rows, closing blocks, file names |
| `Aggregation` | aggregation.dfy | rows, the date rule, the preview table, the grouping loop |
| `Batch` | batch.dfy | `generate_reports` |

The help dialog (`gui.py:149-150`) lists Nutrição and Fisioterapia as supported
for PNE only. No test in `reports.py` looks at either specialty, so in both
layouts a patient with only those specialties gets no specialty section. The
model follows the code.

## Model

| member | source | states |
|---|---|---|
| DataLoader.MissingColumns | gerador_relatorios/data_loader.py:17 | a column is reported missing exactly when it is required and absent; missing columns keep their declared order |
| DataLoader.LoadExcel | gerador_relatorios/data_loader.py:14-22 | succeeds exactly when every required column is present, and then returns the sheet unchanged; otherwise fails with the prefix and the missing columns joined by ", " |
| DataLoader.MessageNamesMissingColumns | gerador_relatorios/data_loader.py:18-21 | the error message starts with "Colunas obrigatórias não encontradas: " and names every required column that is absent |
| DataLoader.ColumnOrderIrrelevant | gerador_relatorios/data_loader.py:17-18 | only which required columns are present matters; order, repetition and extra columns do not |
| DataLoader.OnlyNameColumnRefused | tests/test_data_loader.py:23-31 | a sheet with only NOME is refused, naming the other four columns in declared order |
| Specialties.UpperAll | gerador_relatorios/reports.py:148 | one upper-cased string per specialty string, position by position |
| Specialties.Enabled | gerador_relatorios/reports.py:150-221 | a specialty is listed exactly when its test holds |
| Specialties.EnabledInOrder | gerador_relatorios/reports.py:150-221 | the listed specialties keep the order in which the tests run, and none is listed twice |
| Specialties.MatchesIffSomeTrigger | gerador_relatorios/reports.py:150-211 | one string passes a test exactly when it contains one of that test's trigger substrings |
| Specialties.AnyMatchesIff | gerador_relatorios/reports.py:150 | `any(...)` holds exactly when some upper-cased string passes the test |
| Specialties.PresentIff | gerador_relatorios/reports.py:148-221 | a section is enabled exactly when some specialty string, upper-cased, contains one of its triggers |
| Specialties.PresentDependsOnlyOnElements | gerador_relatorios/reports.py:148-150 | reordering or repeating specialty strings changes no test |
| Specialties.EnabledDependsOnlyOnElements | gerador_relatorios/reports.py:148-221 | the enabled list depends only on the set of specialty strings |
| Specialties.LongerTriggersRedundant | gerador_relatorios/reports.py:150-211 | for ABA, Ocupacional, Fono and Pedagog the longer trigger adds nothing: the short one decides |
| Specialties.PsicomotorTriggersIndependent | gerador_relatorios/reports.py:199 | neither Psicomotricidade trigger contains the other, and each alone enables the section |
| Specialties.FonoPrefixEnablesFonoaudiologia | gerador_relatorios/reports.py:187 | any string beginning with "fono" in any ASCII case enables Fonoaudiologia |
| Specialties.UnrecognisedEnablesNothing | gerador_relatorios/reports.py:148-221 | strings holding no 'A', 'P' or 'F' once upper-cased (such as "Nutrição") enable no section |
| Specialties.NoMatchEnablesNothing | gerador_relatorios/reports.py:148-221 | if no specialty string passes any test, no specialty section is enabled |
| Specialties.NutritionAndPhysiotherapyEnableNothing | gerador_relatorios/gui.py:149-150 | a patient whose specialties are only "Nutrição" and "Fisioterapia" gets no specialty section, although the help text lists both as supported |
| Specialties.OneStringEnablesSeveral | gerador_relatorios/reports.py:150-221 | one string holding both "PSICOTERAPIA" and "ABA" enables both sections, since the tests are independent |
| Reports.AddSectionTitle | gerador_relatorios/reports.py:63-71 | appends exactly one justified paragraph holding the bold title, with the given spacing |
| Reports.AddSectionText | gerador_relatorios/reports.py:74-80 | appends exactly one justified plain paragraph with the given spacing |
| Reports.AddSpecialtySection | gerador_relatorios/reports.py:83-98 | appends the title (18/8 for evolution, otherwise 16/8), the text, and the programming text only when it is given and not empty |
| Reports.AddFixedSignatureSection | gerador_relatorios/reports.py:100-110 | appends the place/date paragraph; it raises (`raised`) exactly when the text is empty |
| Reports.AddSignatureSection | gerador_relatorios/reports.py:112-120 | appends a blank paragraph, the rule and the caption, for every signature type |
| Reports.OpenReport | gerador_relatorios/reports.py:125-135 | starts from the template's content, or from the bold 16-point heading and a blank line |
| Reports.CreateHeaderTable | gerador_relatorios/reports.py:30-60 | appends the six-row table and a blank paragraph; the specialty row lists each distinct specialty once, in some order |
| Reports.WritePneBody | gerador_relatorios/reports.py:139-304 | appends exactly the PNE body: diagnosis, evolutions, programming heading, programming, final considerations, closing |
| Reports.WritePneIntro | gerador_relatorios/reports.py:139-146 | appends the diagnosis heading and paragraph |
| Reports.AddPneEvolutionSections | gerador_relatorios/reports.py:150-221 | appends the evolution section of each enabled specialty, in the fixed order |
| Reports.AddPneProgrammingSections | gerador_relatorios/reports.py:225-284 | appends the 16/8 programming section of each enabled specialty, in the fixed order |
| Reports.WritePneFinal | gerador_relatorios/reports.py:286-300 | appends the 30/12 final heading and its two paragraphs |
| Reports.WriteClosing | gerador_relatorios/reports.py:302-304 | appends the right-aligned place/date line and the signature blocks |
| Reports.WriteTipicoBody | gerador_relatorios/reports.py:326-440 | appends exactly the Típico body: intro, Psicoterapia paragraph, titled programming, final, closing |
| Reports.WriteTipicoIntro | gerador_relatorios/reports.py:326-358 | appends the diagnosis, evolution and programming headings with their paragraphs |
| Reports.AddTipicoPsicoterapiaIfPresent | gerador_relatorios/reports.py:361-375 | appends the untitled Psicoterapia paragraph exactly when that test holds |
| Reports.AddTipicoProgrammingSections | gerador_relatorios/reports.py:377-426 | appends the titled programming section of each enabled specialty except Psicoterapia, in order |
| Reports.WriteTipicoFinal | gerador_relatorios/reports.py:428-436 | appends the 24/12 final heading and its paragraph |
| Reports.GeneratePneReport | gerador_relatorios/reports.py:124-308 | succeeds exactly when the file name is writable; the file is named by the PNE rule and holds the PNE document for some listing of the distinct specialties; a failed save reports that file |
| Reports.GenerateTipicoReport | gerador_relatorios/reports.py:311-444 | the same, for the Típico layout and file name |
| ReportFacts.EvolutionTitles | gerador_relatorios/reports.py:150-221 | the evolution part's 18/8 titles are the names of the enabled specialties, in order, and it has no other titles |
| ReportFacts.ProgrammingTitles | gerador_relatorios/reports.py:225-284 | the programming part's 16/8 titles are the names of the enabled specialties, in order |
| ReportFacts.PneTitlesAt | gerador_relatorios/reports.py:139-300 | the PNE body's titles for any spacing, in document order |
| ReportFacts.PneTitles | gerador_relatorios/reports.py:139-300 | the 18/8 and 16/8 titles both name the enabled specialties in the same order; the 30/12 titles are the programming and final headings; the single 24/12 title is the diagnosis heading |
| ReportFacts.PneEvolutionsBeforeProgramming | gerador_relatorios/reports.py:150-284 | every evolution title precedes the "Programação Terapêutica Atual" heading and every programming title follows it |
| ReportFacts.TipicoTitlesAt | gerador_relatorios/reports.py:326-436 | the Típico body's titles for any spacing, in document order |
| ReportFacts.TipicoTitles | gerador_relatorios/reports.py:326-436 | no evolution titles; the four 24/12 headings in order; a 16/8 title for each enabled specialty except Psicoterapia, which never gets one |
| ReportFacts.TipicoPsicoterapiaFirst | gerador_relatorios/reports.py:355-375 | the block right after the programming heading is the Psicoterapia paragraph exactly when Psicoterapia is enabled |
| ReportFacts.BodyDependsOnlyOnElements | gerador_relatorios/reports.py:148-426 | everything after the header depends only on the set of specialty strings |
| ReportFacts.ReportEndsWithSignature | gerador_relatorios/reports.py:100-120 | every report ends with the place/date line, a blank paragraph, the 50-underscore rule and the signer caption |
| ReportFacts.FallbackOpening | gerador_relatorios/reports.py:124-137 | without a template the report starts with its layout's heading, a blank paragraph and then the header table |
| ReportFacts.HeaderCellSplitsAfterLabel | gerador_relatorios/reports.py:48-56 | a header line splits at the ':' after its label: a bold run with the label and ": ", then a plain run still starting with the space |
| ReportFacts.HeaderTableRows | gerador_relatorios/reports.py:30-60 | six rows in label order; the Convênio row shows the layout's agreement and the Especialidade row the listing joined by ", " |
| ReportFacts.FilenameShape | gerador_relatorios/reports.py:306 | file name = layout prefix + name with each space made '_' + ".docx"; it contains no space |
| ReportFacts.FilenameCollisions | gerador_relatorios/reports.py:306 | two patients share a file exactly when their names agree once spaces are made '_' |
| ReportFacts.SpaceAndUnderscoreCollide | gerador_relatorios/reports.py:306 | "Ana Maria" and "Ana_Maria" are written to the same file |
| ReportFacts.ProfilesNeverShareAFile | gerador_relatorios/reports.py:442 | a PNE file and a Típico file never have the same name |
| ReportFacts.FilenamesForTeste | tests/test_reports.py:17-28 | a patient named "Teste" gets "Relatório_PNE_Teste.docx" and "Relatório_Típico_Teste.docx" |
| Aggregation.TimestampRoundTrip | gerador_relatorios/gui.py:227-228 | a timestamp prints as ten characters DD/MM/YYYY whose fields read back as day, month and year |
| Aggregation.ValueDateRule | gerador_relatorios/gui.py:229-232 | other text with a '/' keeps what precedes its first space, and text without '/' is kept whole |
| Aggregation.PreviewAgreesWithInfo | gerador_relatorios/gui.py:177-202 | the preview and the report agree on date, guardian and month; they agree on the name exactly when it is present ("Nome não informado" vs "nan") |
| Aggregation.PreviewTable.LoadPreview | gerador_relatorios/gui.py:173-202 | the table is cleared and then holds one row of values per spreadsheet row, in order |
| Aggregation.AggregateRows | gerador_relatorios/gui.py:220-244 | the keys are the distinct names in first-appearance order, and the dictionary is the one defined row by row |
| Aggregation.AggregatedKeys | gerador_relatorios/gui.py:220-223 | there is an entry for exactly the names that occur among the rows |
| Aggregation.AggregatedEntry | gerador_relatorios/gui.py:223-244 | an entry holds the information of the first row with that name and the specialties of all its rows, in order |
| Aggregation.SpecialtiesOfIff | gerador_relatorios/gui.py:243-244 | a specialty is listed for a name exactly when some row with that name carries it in a non-empty cell |
| Aggregation.AggregateCount | gerador_relatorios/gui.py:254 | as many entries, and so as many reports, as distinct names |
| Aggregation.KeysInFirstAppearanceOrder | gerador_relatorios/gui.py:254 | entries come in the order in which their names first appear |
| Aggregation.FirstRowWins | gerador_relatorios/gui.py:223 | later rows never change the information already recorded for a name |
| Aggregation.SpecialtiesAccumulate | gerador_relatorios/gui.py:243-244 | later rows only append to a name's specialties, keeping order, duplicates and empty strings |
| Batch.ProfileFor | gerador_relatorios/gui.py:255-258 | "PNE" selects the PNE layout and every other value the Típico one |
| Batch.GenerateOne | gerador_relatorios/gui.py:255-258 | calls the generator of the selected layout, with its contract |
| Batch.GenerateReports | gerador_relatorios/gui.py:212-269 | without data, the fixed error message; with no folder, nothing is written. Otherwise success exactly when every patient's file is writable: one file per distinct name, in order, each with its layout. On failure it stops at the first unwritable file, whose name is in the message |

## Left out

- Reading the workbook, saving files and the folder dialog are outside the model. A
  sheet arrives as a value, and a save is a `writable` predicate on the file name.
  The output folder only matters through `writable`; `os.path.join` is not modelled.
- The error text of a failed save is modelled as the file name. The real exception
  text comes from the operating system.
- Every status-bar text, message box and `root.update()` call is left out, and so
  are the success message with its count, `setup_ui`, `select_file`,
  `load_example`, `show_help`, `clear_data` and `utils.resource_path`.
- Word formatting beyond bold, point size, alignment and spacing is not modelled:
  fonts, cell borders (`add_table_borders`) and table widths.
- The letterhead template is an optional list of blocks. `None` stands for a
  template that could not be opened. Its content is not modelled.
- Specialties.UpperAll: models `str.upper` for ASCII letters only, and leaves
  other characters unchanged. Python also upper-cases accented letters, which no
  trigger contains. It maps a few non-ASCII characters to ASCII letters ('ı' to
  'I', 'ſ' to 'S', 'ﬁ' to "FI"); a test on a string holding one of them may
  differ from the model.
- The order in which `set()` yields the distinct specialties in the header is not
  fixed. The generators' contracts state it existentially: some duplicate-free
  listing of the distinct specialties.
- Reports.CreateHeaderTable: weaker than the code, because the order of the header's specialty list is left open (see above).
- Cells are text or empty. The model does not cover `str()` of numbers or other
  cell types, apart from dates.
- A missing NOME is a single key, so every row with an empty name groups under it.
  In pandas each missing value can be a separate dictionary key.
- The `except` branch of the date rule is not modelled: `strftime` does not fail
  for the timestamps pandas produces.
- Aggregation.TimestampRoundTrip: requires day and month below 100 and year below 10000, which pandas timestamps always meet.
- ReportFacts.ReportEndsWithSignature: states the rule's length (50) and the rule
  itself as a literal. It does not derive the rule from a repeated-character
  expression.
