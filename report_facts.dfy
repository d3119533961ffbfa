/**
 * What the two report layouts promise, proved about the functions the
 * generators of gerador_relatorios/reports.py are verified against: which
 * section titles appear, with which spacing and in which order; the shape of
 * each header row; the end of every document; and the output file name.
 */
module ReportFacts {
  import opened Wrappers
  import opened Text
  import opened Docx
  import opened Specialties
  import opened Narratives
  import opened Seqs
  import opened Reports

  // ---------------------------------------------------------------------------
  // Section titles

  /** A block `add_section_title` wrote with the given spacing: one bold run. */
  predicate IsTitleWith(b: Block, before: nat, after: nat) {
    && b.Para?
    && |b.paragraph.runs| == 1
    && b.paragraph.runs[0].bold
    && b.paragraph.spaceBefore == Some(before)
    && b.paragraph.spaceAfter == Some(after)
  }

  /** The texts of the titles with the given spacing, in document order. */
  function TitlesWith(blocks: seq<Block>, before: nat, after: nat): (ts: seq<string>)
    ensures |ts| <= |blocks|
  {
    if blocks == [] then []
    else
      (if IsTitleWith(blocks[0], before, after) then [blocks[0].paragraph.runs[0].text] else [])
      + TitlesWith(blocks[1..], before, after)
  }

  /** The section titles of a list of specialties. */
  function Names(sps: seq<Specialty>): (ns: seq<string>)
    ensures |ns| == |sps|
    ensures forall i :: 0 <= i < |sps| ==> ns[i] == Title(sps[i])
  {
    if sps == [] then [] else [Title(sps[0])] + Names(sps[1..])
  }

  /** The title a single block contributes, if any. */
  function TitleOf(b: Block, before: nat, after: nat): seq<string> {
    if IsTitleWith(b, before, after) then [b.paragraph.runs[0].text] else []
  }

  lemma {:induction false} TitlesAppend(a: seq<Block>, b: seq<Block>, before: nat, after: nat)
    ensures TitlesWith(a + b, before, after) == TitlesWith(a, before, after) + TitlesWith(b, before, after)
  {
    if a == [] {
      assert a + b == b;
    } else {
      assert (a + b)[0] == a[0];
      assert (a + b)[1..] == a[1..] + b;
      TitlesAppend(a[1..], b, before, after);
      AppendAssoc(TitleOf(a[0], before, after), TitlesWith(a[1..], before, after), TitlesWith(b, before, after));
    }
  }

  lemma TitlesOfPair(x: Block, y: Block, before: nat, after: nat)
    ensures TitlesWith([x, y], before, after) == TitleOf(x, before, after) + TitleOf(y, before, after)
  {
    assert [x, y][1..] == [y];
    assert [y][1..] == [];
  }

  /** The titles are exactly what `add_section_title` wrote: a title block with that spacing, and no text block. */
  lemma TitleBlocksAreTitles(t: string, x: string, before: nat, after: nat)
    ensures IsTitleWith(TitleBlock(t, before, after), before, after)
    ensures !IsTitleWith(TextBlock(x, 12, 12), before, after)
  {
  }

  /** Each present specialty contributes two blocks, title and text. */
  lemma {:induction false} EvolutionSectionsLength(kinds: seq<Specialty>, esps: seq<string>)
    ensures |EvolutionSections(kinds, esps)| == 2 * |Enabled(kinds, esps)|
  {
    if kinds != [] {
      EvolutionSectionsLength(kinds[1..], esps);
    }
  }

  /**
   * The PNE evolution part: one 18/8 title per present specialty, in the
   * order of `kinds`, and no title with any other spacing.
   */
  lemma {:induction false} EvolutionTitles(kinds: seq<Specialty>, esps: seq<string>, before: nat, after: nat)
    ensures TitlesWith(EvolutionSections(kinds, esps), before, after)
         == if before == 18 && after == 8 then Names(Enabled(kinds, esps)) else []
  {
    if kinds != [] {
      var k0 := kinds[0];
      var s := EvolutionSection(k0, esps);
      var rest := EvolutionSections(kinds[1..], esps);
      var tail := Enabled(kinds[1..], esps);
      assert EvolutionSections(kinds, esps) == s + rest;
      EvolutionTitles(kinds[1..], esps, before, after);
      TitlesAppend(s, rest, before, after);
      if Present(k0, esps) {
        assert Enabled(kinds, esps) == [k0] + tail;
        var title := TitleBlock(Title(k0), 18, 8);
        var text := TextBlock(EvolutionText(k0), 12, 12);
        assert s == [title, text];
        TitlesOfPair(title, text, before, after);
        TitleBlocksAreTitles(Title(k0), EvolutionText(k0), before, after);
        assert TitlesWith(s, before, after) == if before == 18 && after == 8 then [Title(k0)] else [];
        assert Names([k0] + tail) == [Title(k0)] + Names(tail);
      } else {
        assert Enabled(kinds, esps) == tail;
        assert s == [];
      }
    }
  }

  /** Each present specialty contributes two blocks, title and text. */
  lemma {:induction false} ProgrammingSectionsLength(kinds: seq<Specialty>, esps: seq<string>)
    ensures |ProgrammingSections(kinds, esps)| == 2 * |Enabled(kinds, esps)|
  {
    if kinds != [] {
      ProgrammingSectionsLength(kinds[1..], esps);
    }
  }

  /** A programming part: one 16/8 title per present specialty, in the order of `kinds`, and nothing else titled. */
  lemma {:induction false} ProgrammingTitles(kinds: seq<Specialty>, esps: seq<string>, before: nat, after: nat)
    ensures TitlesWith(ProgrammingSections(kinds, esps), before, after)
         == if before == 16 && after == 8 then Names(Enabled(kinds, esps)) else []
  {
    if kinds != [] {
      var k0 := kinds[0];
      var s := ProgrammingSection(k0, esps);
      var rest := ProgrammingSections(kinds[1..], esps);
      var tail := Enabled(kinds[1..], esps);
      assert ProgrammingSections(kinds, esps) == s + rest;
      ProgrammingTitles(kinds[1..], esps, before, after);
      TitlesAppend(s, rest, before, after);
      if Present(k0, esps) {
        assert Enabled(kinds, esps) == [k0] + tail;
        var title := TitleBlock(Title(k0), 16, 8);
        var text := TextBlock(ProgrammingText(k0), 12, 12);
        assert s == [title, text];
        TitlesOfPair(title, text, before, after);
        TitleBlocksAreTitles(Title(k0), ProgrammingText(k0), before, after);
        assert TitlesWith(s, before, after) == if before == 16 && after == 8 then [Title(k0)] else [];
        assert Names([k0] + tail) == [Title(k0)] + Names(tail);
      } else {
        assert Enabled(kinds, esps) == tail;
        assert s == [];
      }
    }
  }

  /** Neither the closing lines nor the signature carry a title. */
  lemma ClosingUntitled(before: nat, after: nat)
    ensures TitlesWith(ClosingBlocks, before, after) == []
  {
    var c := ClosingBlocks;
    assert !IsTitleWith(c[0], before, after) && !IsTitleWith(c[1], before, after);
    assert !IsTitleWith(c[2], before, after) && !IsTitleWith(c[3], before, after);
    TitlesOfPair(c[0], c[1], before, after);
    TitlesOfPair(c[2], c[3], before, after);
    assert c == [c[0], c[1]] + [c[2], c[3]];
    TitlesAppend([c[0], c[1]], [c[2], c[3]], before, after);
  }

  lemma PneIntroTitles(before: nat, after: nat)
    ensures TitlesWith(PneIntro, before, after) == if before == 24 && after == 12 then ["Hipótese Diagnóstica"] else []
  {
    TitlesOfPair(PneIntro[0], PneIntro[1], before, after);
  }

  lemma PneFinalTitles(before: nat, after: nat)
    ensures TitlesWith(PneFinal, before, after) == if before == 30 && after == 12 then ["Considerações Finais"] else []
  {
    var f := PneFinal;
    TitlesOfPair(f[1], f[2], before, after);
    assert f == [f[0]] + [f[1], f[2]];
    assert TitlesWith([f[0]], before, after) == TitleOf(f[0], before, after) by {
      assert [f[0]][1..] == [];
    }
    TitlesAppend([f[0]], [f[1], f[2]], before, after);
  }

  lemma TipicoIntroTitles(before: nat, after: nat)
    ensures TitlesWith(TipicoIntro, before, after)
         == if before == 24 && after == 12 then ["Hipótese Diagnóstica", "Evolução", "Programação Terapêutica Atual"] else []
  {
    var t := TipicoIntro;
    TitlesOfPair(t[0], t[1], before, after);
    TitlesOfPair(t[2], t[3], before, after);
    assert TitlesWith([t[4]], before, after) == TitleOf(t[4], before, after) by {
      assert [t[4]][1..] == [];
    }
    assert t == [t[0], t[1]] + ([t[2], t[3]] + [t[4]]);
    TitlesAppend([t[2], t[3]], [t[4]], before, after);
    TitlesAppend([t[0], t[1]], [t[2], t[3]] + [t[4]], before, after);
  }

  lemma TipicoFinalTitles(before: nat, after: nat)
    ensures TitlesWith(TipicoFinal, before, after) == if before == 24 && after == 12 then ["Considerações Finais"] else []
  {
    TitlesOfPair(TipicoFinal[0], TipicoFinal[1], before, after);
  }

  lemma TipicoPsicoterapiaUntitled(esps: seq<string>, before: nat, after: nat)
    ensures TitlesWith(TipicoPsicoterapia(esps), before, after) == []
  {
    if Present(Psicoterapia, esps) {
      assert [TextBlock(TipicoPsicoterapiaProgramming, 12, 12)][1..] == [];
    }
  }

  lemma HeadingTitles(t: string, before: nat, after: nat)
    ensures TitlesWith([TitleBlock(t, 30, 12)], before, after) == if before == 30 && after == 12 then [t] else []
  {
    assert [TitleBlock(t, 30, 12)][1..] == [];
  }

  lemma TitlesAppend4(a: seq<Block>, b: seq<Block>, c: seq<Block>, d: seq<Block>, before: nat, after: nat)
    ensures TitlesWith(a + b + c + d, before, after)
         == TitlesWith(a, before, after) + TitlesWith(b, before, after) + TitlesWith(c, before, after) + TitlesWith(d, before, after)
  {
    TitlesAppend(a, b, before, after);
    TitlesAppend(a + b, c, before, after);
    TitlesAppend(a + b + c, d, before, after);
  }

  lemma TitlesAppend5(a: seq<Block>, b: seq<Block>, c: seq<Block>, d: seq<Block>, e: seq<Block>, before: nat, after: nat)
    ensures TitlesWith(a + b + c + d + e, before, after)
         == TitlesWith(a, before, after) + TitlesWith(b, before, after) + TitlesWith(c, before, after)
          + TitlesWith(d, before, after) + TitlesWith(e, before, after)
  {
    TitlesAppend4(a, b, c, d, before, after);
    TitlesAppend(a + b + c + d, e, before, after);
  }

  lemma TitlesAppend6(a: seq<Block>, b: seq<Block>, c: seq<Block>, d: seq<Block>, e: seq<Block>, f: seq<Block>, before: nat, after: nat)
    ensures TitlesWith(a + b + c + d + e + f, before, after)
         == TitlesWith(a, before, after) + TitlesWith(b, before, after) + TitlesWith(c, before, after)
          + TitlesWith(d, before, after) + TitlesWith(e, before, after) + TitlesWith(f, before, after)
  {
    TitlesAppend5(a, b, c, d, e, before, after);
    TitlesAppend(a + b + c + d + e, f, before, after);
  }

  /**
   * The PNE report's titles with any spacing, in document order:
   * "Hipótese Diagnóstica" at 24/12, one 18/8 evolution title per present
   * specialty, the 30/12 "Programação Terapêutica Atual" heading, one 16/8
   * programming title per present specialty, and the 30/12 "Considerações
   * Finais" heading.
   */
  lemma PneTitlesAt(esps: seq<string>, before: nat, after: nat)
    ensures TitlesWith(PneBody(esps), before, after)
         == (if before == 24 && after == 12 then ["Hipótese Diagnóstica"] else [])
          + (if before == 18 && after == 8 then Names(Enabled(Order, esps)) else [])
          + (if before == 30 && after == 12 then ["Programação Terapêutica Atual"] else [])
          + (if before == 16 && after == 8 then Names(Enabled(Order, esps)) else [])
          + (if before == 30 && after == 12 then ["Considerações Finais"] else [])
  {
    TitlesAppend6(PneIntro, EvolutionSections(Order, esps), [TitleBlock("Programação Terapêutica Atual", 30, 12)],
      ProgrammingSections(Order, esps), PneFinal, ClosingBlocks, before, after);
    PneIntroTitles(before, after);
    EvolutionTitles(Order, esps, before, after);
    HeadingTitles("Programação Terapêutica Atual", before, after);
    ProgrammingTitles(Order, esps, before, after);
    PneFinalTitles(before, after);
    ClosingUntitled(before, after);
  }

  /** The PNE evolution titles and programming titles name the same present specialties in the same order. */
  lemma PneTitles(esps: seq<string>)
    ensures TitlesWith(PneBody(esps), 18, 8) == Names(Enabled(Order, esps))
    ensures TitlesWith(PneBody(esps), 16, 8) == Names(Enabled(Order, esps))
    ensures TitlesWith(PneBody(esps), 30, 12) == ["Programação Terapêutica Atual", "Considerações Finais"]
    ensures TitlesWith(PneBody(esps), 24, 12) == ["Hipótese Diagnóstica"]
  {
    PneTitlesAt(esps, 18, 8);
    PneTitlesAt(esps, 16, 8);
    PneTitlesAt(esps, 30, 12);
    PneTitlesAt(esps, 24, 12);
  }

  /** Where the PNE report's "Programação Terapêutica Atual" heading sits: after the intro and the evolution part. */
  function PneProgrammingHeadingIndex(esps: seq<string>): nat {
    2 + 2 * |Enabled(Order, esps)|
  }

  /**
   * Every 18/8 evolution title comes before the "Programação Terapêutica
   * Atual" heading, and every 16/8 programming title after it.
   */
  lemma PneEvolutionsBeforeProgramming(esps: seq<string>)
    ensures PneProgrammingHeadingIndex(esps) < |PneBody(esps)|
    ensures PneBody(esps)[PneProgrammingHeadingIndex(esps)] == TitleBlock("Programação Terapêutica Atual", 30, 12)
    ensures TitlesWith(PneBody(esps)[..PneProgrammingHeadingIndex(esps)], 18, 8) == Names(Enabled(Order, esps))
    ensures TitlesWith(PneBody(esps)[..PneProgrammingHeadingIndex(esps)], 16, 8) == []
    ensures TitlesWith(PneBody(esps)[PneProgrammingHeadingIndex(esps)..], 18, 8) == []
    ensures TitlesWith(PneBody(esps)[PneProgrammingHeadingIndex(esps)..], 16, 8) == Names(Enabled(Order, esps))
  {
    var front := PneIntro + EvolutionSections(Order, esps);
    var rest := PneRest(esps);
    AppendAssoc4(front, [TitleBlock("Programação Terapêutica Atual", 30, 12)], ProgrammingSections(Order, esps), PneFinal, ClosingBlocks);
    assert PneBody(esps) == front + rest;
    EvolutionSectionsLength(Order, esps);
    var k := PneProgrammingHeadingIndex(esps);
    assert |front| == k;
    assert PneBody(esps)[..k] == front;
    assert PneBody(esps)[k..] == rest;
    PneFrontTitles(esps, 18, 8);
    PneFrontTitles(esps, 16, 8);
    PneRestTitles(esps, 18, 8);
    PneRestTitles(esps, 16, 8);
  }

  /** The PNE body from the "Programação Terapêutica Atual" heading on. */
  function PneRest(esps: seq<string>): seq<Block> {
    [TitleBlock("Programação Terapêutica Atual", 30, 12)] + ProgrammingSections(Order, esps) + PneFinal + ClosingBlocks
  }

  lemma PneFrontTitles(esps: seq<string>, before: nat, after: nat)
    ensures TitlesWith(PneIntro + EvolutionSections(Order, esps), before, after)
         == (if before == 24 && after == 12 then ["Hipótese Diagnóstica"] else [])
          + (if before == 18 && after == 8 then Names(Enabled(Order, esps)) else [])
  {
    TitlesAppend(PneIntro, EvolutionSections(Order, esps), before, after);
    PneIntroTitles(before, after);
    EvolutionTitles(Order, esps, before, after);
  }

  lemma PneRestTitles(esps: seq<string>, before: nat, after: nat)
    ensures TitlesWith(PneRest(esps), before, after)
         == (if before == 30 && after == 12 then ["Programação Terapêutica Atual"] else [])
          + (if before == 16 && after == 8 then Names(Enabled(Order, esps)) else [])
          + (if before == 30 && after == 12 then ["Considerações Finais"] else [])
  {
    TitlesAppend4([TitleBlock("Programação Terapêutica Atual", 30, 12)], ProgrammingSections(Order, esps), PneFinal, ClosingBlocks, before, after);
    HeadingTitles("Programação Terapêutica Atual", before, after);
    ProgrammingTitles(Order, esps, before, after);
    PneFinalTitles(before, after);
    ClosingUntitled(before, after);
  }

  /**
   * The Típico report's titles with any spacing, in document order: its
   * three 24/12 opening headings, one 16/8 title per present specialty
   * other than Psicoterapia, and the 24/12 "Considerações Finais".
   */
  lemma TipicoTitlesAt(esps: seq<string>, before: nat, after: nat)
    ensures TitlesWith(TipicoBody(esps), before, after)
         == (if before == 24 && after == 12 then ["Hipótese Diagnóstica", "Evolução", "Programação Terapêutica Atual"] else [])
          + (if before == 16 && after == 8 then Names(Enabled(TipicoTitledOrder, esps)) else [])
          + (if before == 24 && after == 12 then ["Considerações Finais"] else [])
  {
    TitlesAppend5(TipicoIntro, TipicoPsicoterapia(esps), ProgrammingSections(TipicoTitledOrder, esps), TipicoFinal, ClosingBlocks, before, after);
    TipicoIntroTitles(before, after);
    TipicoPsicoterapiaUntitled(esps, before, after);
    ProgrammingTitles(TipicoTitledOrder, esps, before, after);
    TipicoFinalTitles(before, after);
    ClosingUntitled(before, after);
  }

  /**
   * The Típico report has no 18/8 evolution title, its four part headings in
   * order, and a 16/8 title for each present specialty but Psicoterapia.
   */
  lemma TipicoTitles(esps: seq<string>)
    ensures TitlesWith(TipicoBody(esps), 18, 8) == []
    ensures TitlesWith(TipicoBody(esps), 30, 12) == []
    ensures TitlesWith(TipicoBody(esps), 16, 8) == Names(Enabled(TipicoTitledOrder, esps))
    ensures TitlesWith(TipicoBody(esps), 24, 12)
         == ["Hipótese Diagnóstica", "Evolução", "Programação Terapêutica Atual", "Considerações Finais"]
    ensures Title(Psicoterapia) !in TitlesWith(TipicoBody(esps), 16, 8)
  {
    TipicoTitlesAt(esps, 18, 8);
    TipicoTitlesAt(esps, 30, 12);
    TipicoTitlesAt(esps, 16, 8);
    TipicoTitlesAt(esps, 24, 12);
    var names := Names(Enabled(TipicoTitledOrder, esps));
    if Title(Psicoterapia) in names {
      var i :| 0 <= i < |names| && names[i] == Title(Psicoterapia);
      var sp := Enabled(TipicoTitledOrder, esps)[i];
      assert sp in TipicoTitledOrder;
      TitleInjective(sp, Psicoterapia);
    }
  }

  /**
   * In the Típico report the Psicoterapia programming paragraph is the
   * block right after the "Programação Terapêutica Atual" heading when, and
   * only when, Psicoterapia is present; it never gets a title of its own.
   */
  lemma TipicoPsicoterapiaFirst(esps: seq<string>)
    ensures 5 < |TipicoBody(esps)|
    ensures TipicoBody(esps)[4] == TitleBlock("Programação Terapêutica Atual", 24, 12)
    ensures TipicoBody(esps)[5] == TextBlock(TipicoPsicoterapiaProgramming, 12, 12) <==> Present(Psicoterapia, esps)
  {
    var p := ProgrammingSections(TipicoTitledOrder, esps);
    var rest := p + TipicoFinal + ClosingBlocks;
    AppendAssoc4(TipicoIntro, TipicoPsicoterapia(esps), p, TipicoFinal, ClosingBlocks);
    assert TipicoBody(esps) == TipicoIntro + (TipicoPsicoterapia(esps) + rest);
    if !Present(Psicoterapia, esps) {
      assert TipicoBody(esps)[5] == rest[0];
      if p == [] {
        assert rest[0] == TipicoFinal[0];
        TitleBlocksAreTitles("Considerações Finais", TipicoPsicoterapiaProgramming, 24, 12);
      } else {
        ProgrammingFirstIsTitle(TipicoTitledOrder, esps);
        assert rest[0] == p[0];
        TitleBlocksAreTitles("", TipicoPsicoterapiaProgramming, 16, 8);
      }
    }
  }

  /** A non-empty programming part starts with a title block. */
  lemma {:induction false} ProgrammingFirstIsTitle(kinds: seq<Specialty>, esps: seq<string>)
    requires ProgrammingSections(kinds, esps) != []
    ensures IsTitleWith(ProgrammingSections(kinds, esps)[0], 16, 8)
  {
    if !Present(kinds[0], esps) {
      ProgrammingFirstIsTitle(kinds[1..], esps);
    }
  }

  // ---------------------------------------------------------------------------
  // Independence from how the specialties are listed

  lemma {:induction false} EvolutionSectionsDependOnlyOnElements(kinds: seq<Specialty>, e1: seq<string>, e2: seq<string>)
    requires forall x :: x in e1 <==> x in e2
    ensures EvolutionSections(kinds, e1) == EvolutionSections(kinds, e2)
  {
    if kinds != [] {
      PresentDependsOnlyOnElements(kinds[0], e1, e2);
      EvolutionSectionsDependOnlyOnElements(kinds[1..], e1, e2);
    }
  }

  lemma {:induction false} ProgrammingSectionsDependOnlyOnElements(kinds: seq<Specialty>, e1: seq<string>, e2: seq<string>)
    requires forall x :: x in e1 <==> x in e2
    ensures ProgrammingSections(kinds, e1) == ProgrammingSections(kinds, e2)
  {
    if kinds != [] {
      PresentDependsOnlyOnElements(kinds[0], e1, e2);
      ProgrammingSectionsDependOnlyOnElements(kinds[1..], e1, e2);
    }
  }

  /**
   * Everything after the header depends only on which specialty strings a
   * patient has: reordering or repeating them changes nothing.
   */
  lemma BodyDependsOnlyOnElements(profile: Profile, e1: seq<string>, e2: seq<string>)
    requires forall x :: x in e1 <==> x in e2
    ensures Body(profile, e1) == Body(profile, e2)
  {
    EvolutionSectionsDependOnlyOnElements(Order, e1, e2);
    ProgrammingSectionsDependOnlyOnElements(Order, e1, e2);
    ProgrammingSectionsDependOnlyOnElements(TipicoTitledOrder, e1, e2);
    PresentDependsOnlyOnElements(Psicoterapia, e1, e2);
  }

  // ---------------------------------------------------------------------------
  // The whole document

  /**
   * Every report ends with the right-aligned place/date line, a blank
   * paragraph, the fifty-underscore rule and the signer caption.
   */
  lemma ReportEndsWithSignature(profile: Profile, template: Option<seq<Block>>, patient: PatientData, listing: seq<string>)
    ensures 4 <= |ReportDocument(profile, template, patient, listing)|
    ensures ReportDocument(profile, template, patient, listing)[|ReportDocument(profile, template, patient, listing)| - 4..] == ClosingBlocks
    ensures ClosingBlocks[0] == Para(Paragraph([Run("Brasília, data da assinatura digital.", false, Some(12))], Right, None, None))
    ensures ClosingBlocks[1] == Blank
    ensures ClosingBlocks[2].paragraph.runs == [Run(SignatureRule, false, None)]
    ensures |SignatureRule| == 50
    ensures ClosingBlocks[3].paragraph.runs == [Run("Responsável técnica(o)", false, None)]
  {
    var d := ReportDocument(profile, template, patient, listing);
    var front := Opening(template, FallbackHeading(profile)) + HeaderBlocks(patient.info, Convenio(profile), listing);
    var b := Body(profile, patient.especialidades);
    var esps := patient.especialidades;
    var mid := if profile == Pne then
        PneIntro + EvolutionSections(Order, esps) + [TitleBlock("Programação Terapêutica Atual", 30, 12)]
        + ProgrammingSections(Order, esps) + PneFinal
      else
        TipicoIntro + TipicoPsicoterapia(esps) + ProgrammingSections(TipicoTitledOrder, esps) + TipicoFinal;
    assert b == mid + ClosingBlocks;
    AppendAssoc(front, mid, ClosingBlocks);
    assert d == (front + mid) + ClosingBlocks;
    assert d[|d| - 4..] == ClosingBlocks;
  }

  /** A report opened without template starts with its profile's bold 16-point heading and a blank paragraph. */
  lemma FallbackOpening(profile: Profile, patient: PatientData, listing: seq<string>)
    ensures ReportDocument(profile, None, patient, listing)[0]
         == Para(Paragraph([Run(if profile == Pne then "CLÍNICA MÉDICA - PNE" else "CLÍNICA MÉDICA", true, Some(16))], Center, None, None))
    ensures ReportDocument(profile, None, patient, listing)[1] == Blank
    ensures ReportDocument(profile, None, patient, listing)[2] == Table(HeaderCells(HeaderLines(patient.info, Convenio(profile), listing)))
  {
  }

  // ---------------------------------------------------------------------------
  // The header table

  /**
   * One header row: the line splits at its first ':', which is the one after
   * the name; the name and ": " form the bold run, and the rest of the
   * line, which still starts with the space after the colon, the plain run.
   */
  lemma HeaderCellSplitsAfterLabel(name: string, value: string)
    requires ':' !in name
    ensures HeaderCell(name + ": " + value)
         == Paragraph([Run(name + ": ", true, None), Run(" " + value, false, None)], Justify, None, None)
  {
    var line := name + ": " + value;
    assert line[|name|] == ':';
    forall j | 0 <= j < |name| ensures line[j] != ':' {
      assert line[j] == name[j];
    }
    assert IndexOf(line, ':') == |name|;
    assert line[..|name|] == name;
    assert line[|name| + 1..] == " " + value;
  }

  /**
   * `create_header_table`: six rows, each the bold name with ": " and then
   * the value, in the order Nome, Data de Nascimento, Responsável, Convênio,
   * Especialidade, Mês de referência; the Convênio row shows the profile's
   * agreement and the Especialidade row the listing joined with ", ".
   */
  lemma HeaderTableRows(info: Info, convenio: string, listing: seq<string>)
    ensures HeaderBlocks(info, convenio, listing)[1] == Blank
    ensures HeaderBlocks(info, convenio, listing)[0].Table?
    ensures |HeaderBlocks(info, convenio, listing)[0].cells| == |HeaderLabels| == 6
    ensures forall i :: 0 <= i < 6 ==>
      HeaderBlocks(info, convenio, listing)[0].cells[i]
      == Paragraph([Run(HeaderLabels[i] + ": ", true, None), Run(" " + HeaderValues(info, convenio, listing)[i], false, None)], Justify, None, None)
    ensures HeaderValues(info, convenio, listing)[3] == convenio
    ensures HeaderValues(info, convenio, listing)[4] == Join(listing, ", ")
  {
    var lines := HeaderLines(info, convenio, listing);
    var values := HeaderValues(info, convenio, listing);
    forall i | 0 <= i < 6
      ensures HeaderCells(lines)[i]
           == Paragraph([Run(HeaderLabels[i] + ": ", true, None), Run(" " + values[i], false, None)], Justify, None, None)
    {
      assert ':' !in HeaderLabels[i];
      assert lines[i] == HeaderLabels[i] + ": " + values[i];
      HeaderCellSplitsAfterLabel(HeaderLabels[i], values[i]);
    }
  }

  // ---------------------------------------------------------------------------
  // File names

  /**
   * The file name is the profile prefix, the patient's name with every
   * space made '_', and ".docx"; it contains no space.
   */
  lemma FilenameShape(profile: Profile, nome: string)
    ensures |ReportFilename(profile, nome)| == |FilenamePrefix(profile)| + |nome| + 5
    ensures ReportFilename(profile, nome)[..|FilenamePrefix(profile)|] == FilenamePrefix(profile)
    ensures ReportFilename(profile, nome)[|FilenamePrefix(profile)| + |nome|..] == ".docx"
    ensures forall i :: 0 <= i < |nome| ==>
      ReportFilename(profile, nome)[|FilenamePrefix(profile)| + i] == (if nome[i] == ' ' then '_' else nome[i])
    ensures ' ' !in ReportFilename(profile, nome)
  {
    var f := ReportFilename(profile, nome);
    var p := FilenamePrefix(profile);
    var m := ReplaceChar(nome, ' ', '_');
    assert f == p + m + ".docx";
    assert f[..|p|] == p;
    assert f[|p| + |nome|..] == ".docx";
    forall i | 0 <= i < |f| ensures f[i] != ' ' {
      if i < |p| {
        assert f[i] == p[i];
      } else if i < |p| + |nome| {
        assert f[i] == m[i - |p|];
      } else {
        assert f[i] == ".docx"[i - |p| - |nome|];
      }
    }
  }

  /** Two patients share a file name exactly when their names agree once spaces are made '_'. */
  lemma FilenameCollisions(profile: Profile, a: string, b: string)
    ensures ReportFilename(profile, a) == ReportFilename(profile, b)
        <==> ReplaceChar(a, ' ', '_') == ReplaceChar(b, ' ', '_')
  {
    var p := FilenamePrefix(profile);
    var ma := ReplaceChar(a, ' ', '_');
    var mb := ReplaceChar(b, ' ', '_');
    if ReportFilename(profile, a) == ReportFilename(profile, b) {
      var fa := ReportFilename(profile, a);
      assert |ma| == |mb|;
      assert ma == fa[|p|..|p| + |ma|];
      assert mb == fa[|p|..|p| + |mb|];
    }
  }

  /** For example "Ana Maria" and "Ana_Maria" are written to the same file. */
  lemma SpaceAndUnderscoreCollide(profile: Profile)
    ensures ReportFilename(profile, "Ana Maria") == ReportFilename(profile, "Ana_Maria")
  {
    assert ReplaceChar("Ana Maria", ' ', '_') == "Ana_Maria";
    assert ReplaceChar("Ana_Maria", ' ', '_') == "Ana_Maria";
  }

  /** A PNE file and a Típico file never share a name. */
  lemma ProfilesNeverShareAFile(a: string, b: string)
    ensures ReportFilename(Pne, a) != ReportFilename(Tipico, b)
  {
    assert ReportFilename(Pne, a)[10] == 'P';
    assert ReportFilename(Tipico, b)[10] == 'T';
  }

  /** The file names the generators produce for a patient named "Teste". */
  lemma FilenamesForTeste()
    ensures ReportFilename(Pne, "Teste") == "Relatório_PNE_Teste.docx"
    ensures ReportFilename(Tipico, "Teste") == "Relatório_Típico_Teste.docx"
  {
    assert ReplaceChar("Teste", ' ', '_') == "Teste";
  }
}
