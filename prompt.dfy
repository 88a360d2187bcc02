/**
 * The prompt builder `preparePrompt` (src/prompts/preparePrompt.ts): the text
 * before and after the cursor, windowed by line counts, framed by the
 * surrounding notebook cells when the document is a notebook cell, and with
 * the file header put in front of the prefix when a language was detected.
 *
 * The editor is reduced to values: the document's text, URI path, fragment
 * and file-system path, the cursor as an offset, and the open notebooks.
 * Language detection, the language table and the header writer are
 * parameters.
 */
module Prompts {
  import opened Options
  import opened JsText
  import opened Windowing
  import opened Notebook

  /** The `comment` entry of a language description: its line-comment token. */
  datatype CommentSyntax = CommentSyntax(start: string)

  /** An entry of the language table; `comment` is absent for languages without line comments. */
  datatype LanguageDescription = LanguageDescription(name: string, comment: Option<CommentSyntax>)

  /** The edited document: its text and the parts of its URI the builder reads. */
  datatype Document = Document(text: string, path: string, fragment: string, fsPath: string)

  /** An open notebook: the URI path of its file and its cells in order. */
  datatype NotebookDocument = NotebookDocument(path: string, cells: seq<Cell>)

  /** The result `{ prefix, suffix }`. */
  datatype PromptText = PromptText(prefix: string, suffix: string)

  /** `getNotebookDocument` (lines 9-12): the first open notebook whose URI path is the document's. */
  function GetNotebookDocument(notebooks: seq<NotebookDocument>, path: string): (r: Option<NotebookDocument>)
    ensures r.Some? ==> r.value.path == path
  {
    if notebooks == [] then None
    else if notebooks[0].path == path then Some(notebooks[0])
    else GetNotebookDocument(notebooks[1..], path)
  }

  /**
   * `find` returns the first match: no notebook has the path exactly when
   * nothing is found, and a found notebook sits at an index with no match
   * before it.
   */
  lemma {:induction false} GetNotebookDocumentFirst(notebooks: seq<NotebookDocument>, path: string)
    ensures GetNotebookDocument(notebooks, path).None?
            <==> forall j :: 0 <= j < |notebooks| ==> notebooks[j].path != path
    ensures GetNotebookDocument(notebooks, path).Some? ==>
              exists i :: 0 <= i < |notebooks| && notebooks[i] == GetNotebookDocument(notebooks, path).value
                          && forall j :: 0 <= j < i ==> notebooks[j].path != path
    decreases |notebooks|
  {
    if notebooks != [] && notebooks[0].path != path {
      var rest := notebooks[1..];
      GetNotebookDocumentFirst(rest, path);
      assert forall j :: 0 < j < |notebooks| ==> notebooks[j] == rest[j - 1];
      var r := GetNotebookDocument(rest, path);
      if r.Some? {
        var i :| 0 <= i < |rest| && rest[i] == r.value && forall j :: 0 <= j < i ==> rest[j].path != path;
        assert notebooks[i + 1] == r.value;
        assert forall j :: 0 <= j < i + 1 ==> notebooks[j].path != path by {
          forall j | 0 <= j < i + 1 ensures notebooks[j].path != path {
            if j > 0 {
              assert notebooks[j] == rest[j - 1];
            }
          }
        }
      }
    } else if notebooks != [] {
      assert notebooks[0] == GetNotebookDocument(notebooks, path).value;
    }
  }

  /** `if (language)`: a detected language is present and, being a string, not empty. */
  predicate LanguageDetected(language: Option<string>)
  {
    language.Some? && language.value != ""
  }

  /** `languages[language].comment?.start` when a language was detected (lines 39-42). */
  function CommentStart(language: Option<string>, languages: string -> LanguageDescription): (r: Option<string>)
    ensures r.Some? <==> LanguageDetected(language) && languages(language.value).comment.Some?
    ensures r.Some? ==> r.value == languages(language.value).comment.value.start
  {
    if LanguageDetected(language) then
      match languages(language.value).comment
      case Some(c) => Some(c.start)
      case None => None
    else None
  }

  /**
   * The prompt the builder returns: the windowed text on each side of the
   * cursor (lines 17-32), framed by the notebook's other cells when the
   * document is a notebook cell (lines 37-101), with the file header put in
   * front of the prefix when a language was detected (lines 114-116). The
   * header is applied to the framed prefix exactly when a language was
   * detected, and the suffix is never touched.
   */
  function PromptFor(doc: Document, offset: int, prefixMaxLines: int, suffixMaxLines: int,
                     notebooks: seq<NotebookDocument>, language: Option<string>,
                     languages: string -> LanguageDescription,
                     fileHeaders: (string, string, LanguageDescription) -> string,
                     config: NotebookConfig): (r: PromptText)
    ensures var f := Framed(doc, offset, prefixMaxLines, suffixMaxLines, notebooks, CommentStart(language, languages), config);
            r.suffix == f.suffix
            && (LanguageDetected(language) ==> r.prefix == fileHeaders(f.prefix, doc.fsPath, languages(language.value)))
            && (!LanguageDetected(language) ==> r.prefix == f.prefix)
  {
    var framed := Framed(doc, offset, prefixMaxLines, suffixMaxLines, notebooks, CommentStart(language, languages), config);
    if LanguageDetected(language) then
      framed.(prefix := fileHeaders(framed.prefix, doc.fsPath, languages(language.value)))
    else framed
  }

  /**
   * The prompt before the header: windowed text, framed by the notebook's
   * other cells. The windowed text always stays next to the cursor, at the
   * end of the prefix and at the start of the suffix; outside a notebook it
   * is the whole prompt.
   */
  function Framed(doc: Document, offset: int, prefixMaxLines: int, suffixMaxLines: int,
                  notebooks: seq<NotebookDocument>, commentStart: Option<string>, config: NotebookConfig): (r: PromptText)
    ensures IsSuffix(PrefixWindow(Slice(doc.text, 0, offset), prefixMaxLines), r.prefix)
    ensures SuffixWindow(Slice(doc.text, offset, |doc.text|), suffixMaxLines) <= r.suffix
    ensures GetNotebookDocument(notebooks, doc.path).None? ==>
              r == PromptText(PrefixWindow(Slice(doc.text, 0, offset), prefixMaxLines),
                              SuffixWindow(Slice(doc.text, offset, |doc.text|), suffixMaxLines))
  {
    var prefix := PrefixWindow(Slice(doc.text, 0, offset), prefixMaxLines);
    var suffix := SuffixWindow(Slice(doc.text, offset, |doc.text|), suffixMaxLines);
    match GetNotebookDocument(notebooks, doc.path)
    case None => PromptText(prefix, suffix)
    case Some(notebook) =>
      var cells := Partition(notebook.cells, doc.fragment, commentStart, config);
      PromptText(cells.prefixCells + prefix, suffix + cells.suffixCells)
  }

  /** `preparePrompt` (lines 14-122), statement by statement. */
  method PreparePrompt(doc: Document, offset: int, prefixMaxLines: int, suffixMaxLines: int,
                       notebooks: seq<NotebookDocument>, language: Option<string>,
                       languages: string -> LanguageDescription,
                       fileHeaders: (string, string, LanguageDescription) -> string,
                       config: NotebookConfig)
    returns (p: PromptText)
    ensures p == PromptFor(doc, offset, prefixMaxLines, suffixMaxLines, notebooks, language, languages, fileHeaders, config)
  {
    var text := doc.text;
    var prefix := PrefixWindow(Slice(text, 0, offset), prefixMaxLines);
    var suffix := SuffixWindow(Slice(text, offset, |text|), suffixMaxLines);
    var notebookDocument := GetNotebookDocument(notebooks, doc.path);
    var commentStart: Option<string> := None;
    if LanguageDetected(language) {
      commentStart := CommentStart(language, languages);
    }
    if notebookDocument.Some? {
      var prefixCells, suffixCells := AggregateCells(notebookDocument.value.cells, doc.fragment, commentStart, config);
      prefix := prefixCells + prefix;
      suffix := suffix + suffixCells;
    }
    if LanguageDetected(language) {
      prefix := fileHeaders(prefix, doc.fsPath, languages(language.value));
    }
    p := PromptText(prefix, suffix);
  }

  /** The header writer only ever sees the prefix: the suffix does not depend on it. */
  lemma {:induction false} SuffixIgnoresHeaders(doc: Document, offset: int, prefixMaxLines: int, suffixMaxLines: int,
                                                notebooks: seq<NotebookDocument>, language: Option<string>,
                                                languages: string -> LanguageDescription,
                                                headers1: (string, string, LanguageDescription) -> string,
                                                headers2: (string, string, LanguageDescription) -> string,
                                                config: NotebookConfig)
    ensures PromptFor(doc, offset, prefixMaxLines, suffixMaxLines, notebooks, language, languages, headers1, config).suffix
         == PromptFor(doc, offset, prefixMaxLines, suffixMaxLines, notebooks, language, languages, headers2, config).suffix
  {
  }

  /**
   * A plain document with no limits on either side: the prefix and the
   * suffix put back together are the whole text, cut at the cursor.
   */
  lemma {:induction false} UnlimitedPlainPromptIsText(doc: Document, offset: int, prefixMaxLines: int, suffixMaxLines: int,
                                                      notebooks: seq<NotebookDocument>, commentStart: Option<string>, config: NotebookConfig)
    requires prefixMaxLines < 0 && suffixMaxLines < 0
    requires GetNotebookDocument(notebooks, doc.path).None?
    ensures var p := Framed(doc, offset, prefixMaxLines, suffixMaxLines, notebooks, commentStart, config);
            p.prefix + p.suffix == doc.text
  {
    SliceAtCut(doc.text, offset);
  }

  /**
   * With the cursor inside the text and non-negative limits, a plain
   * document's prompt brackets the cursor: the prefix is a tail of the text
   * before it, the suffix a head of the text after it, and each is cut to
   * the line counts the windows allow.
   */
  lemma {:induction false} PlainPromptBracketsCursor(doc: Document, offset: int, prefixMaxLines: int, suffixMaxLines: int,
                                                     notebooks: seq<NotebookDocument>, commentStart: Option<string>, config: NotebookConfig)
    requires 0 <= offset <= |doc.text|
    requires prefixMaxLines >= 0 && suffixMaxLines >= 0
    requires GetNotebookDocument(notebooks, doc.path).None?
    ensures var p := Framed(doc, offset, prefixMaxLines, suffixMaxLines, notebooks, commentStart, config);
            IsSuffix(p.prefix, doc.text[..offset]) && p.suffix <= doc.text[offset..]
            && |Split(p.prefix)| <= prefixMaxLines + 2 && |Split(p.suffix)| <= suffixMaxLines + 1
  {
    var before := Slice(doc.text, 0, offset);
    var after := Slice(doc.text, offset, |doc.text|);
    assert before == doc.text[..offset];
    assert after == doc.text[offset..];
    PrefixWindowLines(before, prefixMaxLines);
    SuffixWindowLines(after, suffixMaxLines);
  }

  /**
   * In a notebook whose cells are `before`, the current cell and `after`
   * (none of `before` current), the prompt before the header is the
   * rendering of `before` followed by the windowed prefix, and the windowed
   * suffix followed by the rendering of `after`.
   */
  lemma {:induction false} NotebookPromptAroundCell(doc: Document, offset: int, prefixMaxLines: int, suffixMaxLines: int,
                                                    notebooks: seq<NotebookDocument>, commentStart: Option<string>, config: NotebookConfig,
                                                    before: seq<Cell>, cell: Cell, after: seq<Cell>)
    requires GetNotebookDocument(notebooks, doc.path).Some?
    requires GetNotebookDocument(notebooks, doc.path).value.cells == before + [cell] + after
    requires forall j :: 0 <= j < |before| ==> before[j].fragment != doc.fragment
    requires cell.fragment == doc.fragment
    ensures var p := Framed(doc, offset, prefixMaxLines, suffixMaxLines, notebooks, commentStart, config);
            p.prefix == Render(before, doc.fragment, commentStart, config, true)
                        + PrefixWindow(Slice(doc.text, 0, offset), prefixMaxLines)
            && p.suffix == SuffixWindow(Slice(doc.text, offset, |doc.text|), suffixMaxLines)
                           + Render(after, doc.fragment, commentStart, config, false)
  {
    PartitionAroundCurrent(before, cell, after, doc.fragment, commentStart, config);
  }

  /** The notebook part of the suffix never carries cell outputs, whatever the configuration says. */
  lemma {:induction false} SuffixWithoutOutputs(doc: Document, offset: int, prefixMaxLines: int, suffixMaxLines: int,
                                                notebooks: seq<NotebookDocument>, commentStart: Option<string>, config: NotebookConfig)
    ensures Framed(doc, offset, prefixMaxLines, suffixMaxLines, notebooks, commentStart, config).suffix
         == Framed(doc, offset, prefixMaxLines, suffixMaxLines, notebooks, commentStart, config.(includeCellOutputs := false)).suffix
  {
    var nb := GetNotebookDocument(notebooks, doc.path);
    if nb.Some? {
      SuffixCellsHaveNoOutputs(nb.value.cells, doc.fragment, commentStart, config);
    }
  }
}
