/** The pure part of `ui`: the text of each row of the file list, the emphasis
    of the two text fields, and the frame as a whole. Layout, borders, titles
    and colours are the widget library's business and are not modelled. */
module Ui {
  import opened Session

  /** Emphasis of a text field: the field being edited is drawn in yellow. */
  datatype Style = Plain | Emphasised

  /** One frame: the row labels (in list order) with the highlighted row, and
      each text field's contents with its style. */
  datatype View = View(
    items: seq<string>,
    highlightedRow: Option<nat>,
    commitText: string,
    commitStyle: Style,
    prText: string,
    prStyle: Style)

  /** The mark in front of a file name. */
  function Marker(selected: bool): (m: string)
    ensures |m| == 4 && m[0] == '[' && m[2] == ']' && m[3] == ' '
    ensures m[1] == 'x' <==> selected
    ensures !selected ==> m[1] == ' '
  {
    if selected then "[x] " else "[ ] "
  }

  /** The text of one row: the mark, then the name as it is. */
  function Label(file: FileItem): (row: string)
    ensures |row| == 4 + |file.name|
    ensures row[..4] == Marker(file.selected) && row[4..] == file.name
  {
    Marker(file.selected) + file.name
  }

  /** Reads a row back: a well-formed marker followed by the file name. */
  function ParseLabel(row: string): (file: Option<FileItem>)
    ensures file.Some? ==> Label(file.value) == row
  {
    if |row| >= 4 && row[..4] == "[x] " then Some(FileItem(row[4..], true))
    else if |row| >= 4 && row[..4] == "[ ] " then Some(FileItem(row[4..], false))
    else None
  }

  /** A row shows its file's name and selection mark and nothing else: reading
      it back gives the entry. */
  lemma LabelRoundTrip(file: FileItem)
    ensures ParseLabel(Label(file)) == Some(file)
  {
  }

  /** Two entries with the same row text are the same entry. */
  lemma LabelInjective(f: FileItem, g: FileItem)
    requires Label(f) == Label(g)
    ensures f == g
  {
    LabelRoundTrip(f);
    LabelRoundTrip(g);
  }

  /** The rows of the list, one per file, in list order. */
  function Labels(files: seq<FileItem>): (items: seq<string>)
    ensures |items| == |files|
    ensures forall i :: 0 <= i < |files| ==> items[i] == Label(files[i])
    ensures forall i :: 0 <= i < |files| ==> ParseLabel(items[i]) == Some(files[i])
  {
    if files == [] then []
    else
      LabelRoundTrip(files[0]);
      [Label(files[0])] + Labels(files[1..])
  }

  /** Style of the commit-message field. */
  function CommitStyle(mode: InputMode): (st: Style)
    ensures st == Emphasised <==> mode == CommitMessage
  {
    match mode
    case CommitMessage => Emphasised
    case _ => Plain
  }

  /** Style of the pull-request-title field. */
  function PrStyle(mode: InputMode): (st: Style)
    ensures st == Emphasised <==> mode == PRTitle
  {
    match mode
    case PRTitle => Emphasised
    case _ => Plain
  }

  /** Each field is emphasised only in its own edit mode, so never both at once. */
  lemma StyleFollowsMode(mode: InputMode)
    ensures !(CommitStyle(mode) == Emphasised && PrStyle(mode) == Emphasised)
  {
  }

  /** The frame drawn for a session; drawing reads the session and changes nothing. */
  function Render(s: AppState): (v: View)
    ensures |v.items| == |s.files|
    ensures forall i :: 0 <= i < |s.files| ==> ParseLabel(v.items[i]) == Some(s.files[i])
    ensures v.highlightedRow == s.cursor
    ensures v.commitText == s.commitMessage && v.prText == s.prTitle
    ensures v.commitStyle == Emphasised <==> s.inputMode == CommitMessage
    ensures v.prStyle == Emphasised <==> s.inputMode == PRTitle
  {
    View(Labels(s.files), s.cursor, s.commitMessage, CommitStyle(s.inputMode), s.prTitle, PrStyle(s.inputMode))
  }
}
