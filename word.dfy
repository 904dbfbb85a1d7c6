/**
 * The Word generator: `{{field}}` substitution in the runs of every body,
 * table-cell, header and footer paragraph, and the template's field list.
 */
module Word {
  import opened Strings
  import opened Values
  import opened Shapes
  import opened FieldNames
  import opened Substitution

  /** A table: rows of cells, each cell holding its paragraphs. */
  datatype DocTable = DocTable(rows: seq<seq<seq<Paragraph>>>)

  /** A section's header and footer paragraphs. */
  datatype Section = Section(header: seq<Paragraph>, footer: seq<Paragraph>)

  /** An opened document, whose runs the generator rewrites in place. */
  class WordDocument {
    var paragraphs: seq<Paragraph>
    var tables: seq<DocTable>
    var sections: seq<Section>

    constructor (paragraphs: seq<Paragraph>, tables: seq<DocTable>, sections: seq<Section>)
      ensures this.paragraphs == paragraphs && this.tables == tables && this.sections == sections
    {
      this.paragraphs := paragraphs;
      this.tables := tables;
      this.sections := sections;
    }
  }

  /**
   * One field in one paragraph: when the paragraph's text holds the token,
   * each run holding the whole token has every occurrence replaced.
   */
  function FieldInParagraph(p: Paragraph, f: Field): Paragraph
  {
    var placeholder := Token(f.name);
    if Contains(ParagraphText(p), placeholder) then
      p.(runs := seq(|p.runs|, i requires 0 <= i < |p.runs| => RunWithField(p.runs[i], placeholder, Str(f.value))))
    else p
  }

  /** A run holding the whole token has every occurrence replaced; any other run is left alone. */
  function RunWithField(r: Run, placeholder: string, value: string): Run
    requires placeholder != []
  {
    if Contains(r.text, placeholder) then r.(text := Replace(r.text, placeholder, value)) else r
  }

  /** `_replace_text_in_paragraph` after the first n fields. */
  function ParagraphFilled(p: Paragraph, fields: Fields, n: nat): Paragraph
    requires n <= |fields|
  {
    if n == 0 then p else FieldInParagraph(ParagraphFilled(p, fields, n - 1), fields[n - 1])
  }

  /** A run's text lies inside its paragraph's text. */
  lemma {:induction false} RunInParagraphText(runs: seq<Run>, i: nat, t: string)
    requires i < |runs| && Contains(runs[i].text, t)
    ensures Contains(RunsText(runs), t)
  {
    var init := runs[..|runs| - 1];
    if i == |runs| - 1 {
      ContainsInConcat(RunsText(init), runs[i].text, t);
    } else {
      assert init[i] == runs[i];
      RunInParagraphText(init, i, t);
      ContainsInConcat(RunsText(init), runs[|runs| - 1].text, t);
    }
  }

  /** The paragraph-level test never matters: one field acts on each run's text alone. */
  lemma FieldInParagraphRunByRun(p: Paragraph, f: Field)
    ensures var q := FieldInParagraph(p, f);
      |q.runs| == |p.runs| && q.level == p.level && q.alignment == p.alignment
      && forall i :: 0 <= i < |p.runs| ==> q.runs[i] == p.runs[i].(text := FieldApplied(p.runs[i].text, f))
  {
    var placeholder := Token(f.name);
    if !Contains(ParagraphText(p), placeholder) {
      forall i | 0 <= i < |p.runs|
        ensures !Contains(p.runs[i].text, placeholder)
      {
        if Contains(p.runs[i].text, placeholder) {
          RunInParagraphText(p.runs, i, placeholder);
        }
      }
    }
  }

  /**
   * After the first n fields, every run's text is its own text with those
   * fields substituted; runs, formats, level and alignment are kept.
   */
  lemma {:induction false} ParagraphFilledRunByRun(p: Paragraph, fields: Fields, n: nat)
    requires n <= |fields|
    ensures var q := ParagraphFilled(p, fields, n);
      |q.runs| == |p.runs| && q.level == p.level && q.alignment == p.alignment
      && forall i :: 0 <= i < |p.runs| ==> q.runs[i] == p.runs[i].(text := Substituted(p.runs[i].text, fields, n))
  {
    if n > 0 {
      ParagraphFilledRunByRun(p, fields, n - 1);
      FieldInParagraphRunByRun(ParagraphFilled(p, fields, n - 1), fields[n - 1]);
    }
  }

  /** The Word generator fills a paragraph exactly as substituting inside each run does. */
  lemma ParagraphFilledIsRunsSubstituted(p: Paragraph, fields: Fields)
    ensures ParagraphFilled(p, fields, |fields|) == RunsSubstituted(p, fields)
  {
    ParagraphFilledRunByRun(p, fields, |fields|);
  }

  /** `_replace_text_in_paragraph`: the field loop with the paragraph test, then the run loop. */
  method FillParagraph(p: Paragraph, fields: Fields) returns (q: Paragraph)
    ensures q == ParagraphFilled(p, fields, |fields|)
  {
    q := p;
    for n := 0 to |fields|
      invariant q == ParagraphFilled(p, fields, n)
    {
      var placeholder := Token(fields[n].name);
      var value := Str(fields[n].value);
      if Contains(ParagraphText(q), placeholder) {
        var runs := q.runs;
        for i := 0 to |runs|
          invariant |runs| == |q.runs|
          invariant forall j :: 0 <= j < i ==> runs[j] == RunWithField(q.runs[j], placeholder, value)
          invariant forall j :: i <= j < |runs| ==> runs[j] == q.runs[j]
        {
          if Contains(runs[i].text, placeholder) {
            runs := runs[i := runs[i].(text := Replace(runs[i].text, placeholder, value))];
          }
        }
        q := q.(runs := runs);
      }
    }
  }

  /** Every paragraph of a list filled. */
  function ParagraphsFilled(ps: seq<Paragraph>, fields: Fields): (qs: seq<Paragraph>)
    ensures |qs| == |ps|
  {
    seq(|ps|, k requires 0 <= k < |ps| => ParagraphFilled(ps[k], fields, |fields|))
  }

  method FillParagraphs(ps: seq<Paragraph>, fields: Fields) returns (qs: seq<Paragraph>)
    ensures qs == ParagraphsFilled(ps, fields)
  {
    qs := [];
    for k := 0 to |ps|
      invariant |qs| == k && forall j :: 0 <= j < k ==> qs[j] == ParagraphFilled(ps[j], fields, |fields|)
    {
      var q := FillParagraph(ps[k], fields);
      qs := qs + [q];
    }
  }

  /** Every paragraph of every cell of a table filled. */
  function TableFilled(t: DocTable, fields: Fields): (u: DocTable)
    ensures |u.rows| == |t.rows| && forall r :: 0 <= r < |t.rows| ==> |u.rows[r]| == |t.rows[r]|
  {
    DocTable(seq(|t.rows|, r requires 0 <= r < |t.rows| =>
      seq(|t.rows[r]|, c requires 0 <= c < |t.rows[r]| => ParagraphsFilled(t.rows[r][c], fields))))
  }

  method FillTable(t: DocTable, fields: Fields) returns (u: DocTable)
    ensures u == TableFilled(t, fields)
  {
    var rows: seq<seq<seq<Paragraph>>> := [];
    for r := 0 to |t.rows|
      invariant |rows| == r
      invariant forall i :: 0 <= i < r ==> rows[i] == TableFilled(t, fields).rows[i]
    {
      var row: seq<seq<Paragraph>> := [];
      for c := 0 to |t.rows[r]|
        invariant |row| == c
        invariant forall j :: 0 <= j < c ==> row[j] == ParagraphsFilled(t.rows[r][j], fields)
      {
        var cell := FillParagraphs(t.rows[r][c], fields);
        row := row + [cell];
      }
      rows := rows + [row];
    }
    u := DocTable(rows);
  }

  function SectionFilled(s: Section, fields: Fields): Section
  {
    Section(ParagraphsFilled(s.header, fields), ParagraphsFilled(s.footer, fields))
  }

  /**
   * `generate`: body paragraphs, then every paragraph of every table cell,
   * then every section's header and footer, each filled; nothing else of
   * the document changes.
   */
  method Generate(doc: WordDocument, fields: Fields)
    modifies doc
    ensures doc.paragraphs == ParagraphsFilled(old(doc.paragraphs), fields)
    ensures |doc.tables| == |old(doc.tables)| && forall k :: 0 <= k < |doc.tables| ==> doc.tables[k] == TableFilled(old(doc.tables)[k], fields)
    ensures |doc.sections| == |old(doc.sections)| && forall k :: 0 <= k < |doc.sections| ==> doc.sections[k] == SectionFilled(old(doc.sections)[k], fields)
  {
    doc.paragraphs := FillParagraphs(doc.paragraphs, fields);
    var tables := doc.tables;
    for k := 0 to |tables|
      invariant |doc.tables| == |tables|
      invariant forall j :: 0 <= j < k ==> doc.tables[j] == TableFilled(tables[j], fields)
      invariant forall j :: k <= j < |tables| ==> doc.tables[j] == tables[j]
      invariant doc.paragraphs == ParagraphsFilled(old(doc.paragraphs), fields) && doc.sections == old(doc.sections)
    {
      var u := FillTable(tables[k], fields);
      doc.tables := doc.tables[k := u];
    }
    var sections := doc.sections;
    for k := 0 to |sections|
      invariant |doc.sections| == |sections|
      invariant forall j :: 0 <= j < k ==> doc.sections[j] == SectionFilled(sections[j], fields)
      invariant forall j :: k <= j < |sections| ==> doc.sections[j] == sections[j]
      invariant doc.paragraphs == ParagraphsFilled(old(doc.paragraphs), fields)
      invariant |doc.tables| == |old(doc.tables)| && forall j :: 0 <= j < |doc.tables| ==> doc.tables[j] == TableFilled(old(doc.tables)[j], fields)
    {
      var header := FillParagraphs(sections[k].header, fields);
      var footer := FillParagraphs(sections[k].footer, fields);
      doc.sections := doc.sections[k := Section(header, footer)];
    }
  }

  // ----- the template's field names -----

  /** The texts of every cell's paragraphs, row by row. */
  function RowsTexts(rows: seq<seq<seq<Paragraph>>>): seq<string>
  {
    if rows == [] then [] else RowsTexts(rows[..|rows| - 1]) + CellsTexts(rows[|rows| - 1])
  }

  function CellsTexts(cells: seq<seq<Paragraph>>): seq<string>
  {
    if cells == [] then [] else CellsTexts(cells[..|cells| - 1]) + ParagraphTexts(cells[|cells| - 1])
  }

  function TablesTexts(tables: seq<DocTable>): seq<string>
  {
    if tables == [] then [] else TablesTexts(tables[..|tables| - 1]) + RowsTexts(tables[|tables| - 1].rows)
  }

  function SectionsTexts(sections: seq<Section>): seq<string>
  {
    if sections == [] then []
    else
      var s := sections[|sections| - 1];
      SectionsTexts(sections[..|sections| - 1]) + ParagraphTexts(s.header) + ParagraphTexts(s.footer)
  }

  /** Every paragraph text `get_template_fields` searches, in its order. */
  function DocumentTexts(paragraphs: seq<Paragraph>, tables: seq<DocTable>, sections: seq<Section>): seq<string>
  {
    ParagraphTexts(paragraphs) + TablesTexts(tables) + SectionsTexts(sections)
  }

  /**
   * `get_template_fields`: the names found in every body, cell, header and
   * footer paragraph, sorted, each once, each well formed and present as a
   * token in one of those paragraphs.
   */
  method TemplateFields(doc: WordDocument) returns (r: seq<string>)
    ensures var texts := DocumentTexts(doc.paragraphs, doc.tables, doc.sections);
      StrictlySorted(r)
      && (forall n :: n in r <==> n in NamesIn(texts))
      && (forall n :: n in r ==> WellFormedName(n))
      && (forall n :: n in r ==> exists i :: 0 <= i < |texts| && Contains(texts[i], Token(n)))
  {
    var texts := DocumentTexts(doc.paragraphs, doc.tables, doc.sections);
    var names := TextNames(texts);
    r := SortedFields(texts, names);
  }
}
