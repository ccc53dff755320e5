/** The session record of the push-files dashboard: the list of changed files,
    the list cursor, the two text buffers, the input mode and the quit flag,
    together with the structural invariant every key handler preserves and the
    request handed to the commit/pull-request action on confirmation. */
module Session {

  datatype Option<T> = None | Some(value: T)

  /** Which text field, if any, receives typed characters. */
  datatype InputMode = Normal | CommitMessage | PRTitle

  /** One changed file and whether the operator has marked it for the commit. */
  datatype FileItem = FileItem(name: string, selected: bool)

  /** The whole session; `cursor` is the selected row of the file list widget. */
  datatype AppState = AppState(
    files: seq<FileItem>,
    cursor: Option<nat>,
    commitMessage: string,
    prTitle: string,
    inputMode: InputMode,
    shouldQuit: bool)

  /** What the commit/pull-request action is handed when the operator confirms. */
  datatype CommitRequest = CommitRequest(
    selectedFiles: seq<string>,
    commitMessage: string,
    prTitle: string)

  predicate CursorInRange(cursor: Option<nat>, len: nat) {
    cursor.Some? ==> cursor.value < len
  }

  /** The session invariant: the list is never empty (navigation on an empty
      list divides by zero or underflows) and the cursor, when set, is a row. */
  predicate Valid(s: AppState) {
    |s.files| > 0 && CursorInRange(s.cursor, |s.files|)
  }

  /** The session as the program starts it: both buffers empty, `Normal` mode,
      not quitting, and the cursor put on the first row before the first frame. */
  function Initial(files: seq<FileItem>): (s: AppState)
    requires |files| > 0
    ensures Valid(s)
    ensures s.files == files && s.cursor == Some(0)
    ensures s.commitMessage == [] && s.prTitle == [] && s.inputMode == Normal && !s.shouldQuit
  {
    AppState(files, Some(0), "", "", Normal, false)
  }

  /** The names of the selected files, in list order. */
  function SelectedNames(files: seq<FileItem>): (names: seq<string>)
    ensures |names| <= |files|
    ensures forall n :: n in names <==> exists i :: 0 <= i < |files| && files[i].selected && files[i].name == n
  {
    if files == [] then []
    else
      var rest := SelectedNames(files[1..]);
      assert forall i :: 0 < i < |files| ==> files[i] == files[1..][i - 1];
      if files[0].selected then [files[0].name] + rest else rest
  }

  /** The request a confirmation fires with: the selection and both buffers
      exactly as they are, empty or not. */
  function Request(s: AppState): (r: CommitRequest)
    ensures r.commitMessage == s.commitMessage && r.prTitle == s.prTitle
    ensures forall n :: n in r.selectedFiles <==> exists i :: 0 <= i < |s.files| && s.files[i].selected && s.files[i].name == n
  {
    CommitRequest(SelectedNames(s.files), s.commitMessage, s.prTitle)
  }

  /** The names keep the list's order: the selection of a list made of two
      parts is the selection of the first part followed by that of the second. */
  lemma {:induction false} SelectedNamesConcat(a: seq<FileItem>, b: seq<FileItem>)
    ensures SelectedNames(a + b) == SelectedNames(a) + SelectedNames(b)
    decreases |a|
  {
    if a == [] {
      assert a + b == b;
    } else {
      assert (a + b)[0] == a[0];
      assert (a + b)[1..] == a[1..] + b;
      SelectedNamesConcat(a[1..], b);
    }
  }
}
