/**
 * The part of a word-processing document the reports touch: paragraphs made
 * of runs, one-column tables, and a document object that only ever grows at
 * its end. Fonts are reduced to bold and point size, paragraph format to
 * alignment and spacing in points; table borders are not represented.
 */
module Docx {
  import opened Wrappers

  datatype Alignment = Unset | Center | Right | Justify

  /** A run of text; `size` is None when the run keeps the style's font size. */
  datatype Run = Run(text: string, bold: bool, size: Option<nat>)

  datatype Paragraph = Paragraph(
    runs: seq<Run>,
    alignment: Alignment,
    spaceBefore: Option<nat>,
    spaceAfter: Option<nat>)

  /** A block of the document body: a paragraph, or a one-column table with one paragraph per row. */
  datatype Block = Para(paragraph: Paragraph) | Table(cells: seq<Paragraph>)

  /** The runs `add_paragraph(text)` creates: one plain run, or none for the empty text. */
  function PlainRuns(text: string): (runs: seq<Run>)
    ensures text == "" <==> runs == []
    ensures runs != [] ==> runs == [Run(text, false, None)]
  {
    if text == "" then [] else [Run(text, false, None)]
  }

  /** What `add_paragraph()` appends: no runs, no format. */
  const Blank: Block := Para(Paragraph([], Unset, None, None))

  class Document {
    /** The body, in order. */
    var blocks: seq<Block>

    /** A document whose body starts as `initial` (a template's content, or nothing). */
    constructor (initial: seq<Block>)
      ensures blocks == initial
    {
      blocks := initial;
    }

    method AddParagraph(p: Paragraph)
      modifies this
      ensures blocks == old(blocks) + [Para(p)]
    {
      blocks := blocks + [Para(p)];
    }

    method AddTable(cells: seq<Paragraph>)
      modifies this
      ensures blocks == old(blocks) + [Table(cells)]
    {
      blocks := blocks + [Table(cells)];
    }
  }
}
