/** Concrete sessions worked through the model: what an operator sees after a
    few keys. */
module Scenarios {
  import opened Session
  import opened Dispatch

  const NoMods := Modifiers(false, false, false, false, false, false)

  function Press(c: char): (ev: Event)
    ensures ev.Key? && ev.code == Char(c) && !IsInterrupt(ev)
  {
    Key(Char(c), NoMods)
  }

  /** Three unselected files with the first row selected, as at start-up. */
  function ThreeFiles(): (s: AppState)
    ensures Valid(s)
  {
    Initial([FileItem("a.txt", false), FileItem("b.txt", false), FileItem("c.txt", false)])
  }

  /** Space, `j`, `j`, space marks the first and third files and leaves the
      cursor on the third row; the session is still running. */
  lemma ToggleAndNavigate()
    ensures var r := Run(ThreeFiles(), [Press(' '), Press('j'), Press('j'), Press(' ')]);
      && r.exit == InputExhausted
      && r.state.files == [FileItem("a.txt", true), FileItem("b.txt", false), FileItem("c.txt", true)]
      && r.state.cursor == Some(2)
      && r.confirmations == []
  {
    var s0 := ThreeFiles();
    var s1 := Step(s0, Press(' ')).state;
    var s2 := Step(s1, Press('j')).state;
    var s3 := Step(s2, Press('j')).state;
    var s4 := Step(s3, Press(' ')).state;
    assert s1.files == [FileItem("a.txt", true), FileItem("b.txt", false), FileItem("c.txt", false)];
    assert s2.cursor == Some(1) && s3.cursor == Some(2);
    assert s4.files == [FileItem("a.txt", true), FileItem("b.txt", false), FileItem("c.txt", true)];
    assert Run(s3, [Press(' ')]).state == s4;
    assert Run(s2, [Press('j'), Press(' ')]).state == s4;
    assert Run(s1, [Press('j'), Press('j'), Press(' ')]).state == s4;
  }

  /** `c`, `f`, `i`, `x`, Backspace, Esc leaves "fi" in the commit message and
      the session back in `Normal` mode. */
  lemma EditCommitMessage()
    ensures var r := Run(ThreeFiles(), [Press('c'), Press('f'), Press('i'), Press('x'), Key(Backspace, NoMods), Key(Esc, NoMods)]);
      && r.exit == InputExhausted
      && r.state.commitMessage == "fi"
      && r.state.prTitle == ""
      && r.state.inputMode == Normal
  {
    var s0 := ThreeFiles();
    var s1 := Step(s0, Press('c')).state;
    var s2 := Step(s1, Press('f')).state;
    var s3 := Step(s2, Press('i')).state;
    var s4 := Step(s3, Press('x')).state;
    var s5 := Step(s4, Key(Backspace, NoMods)).state;
    var s6 := Step(s5, Key(Esc, NoMods)).state;
    assert s4.commitMessage == "fix";
    assert s5.commitMessage == "fi";
    assert Run(s5, [Key(Esc, NoMods)]).state == s6;
    assert Run(s4, [Key(Backspace, NoMods), Key(Esc, NoMods)]).state == s6;
    assert Run(s3, [Press('x'), Key(Backspace, NoMods), Key(Esc, NoMods)]).state == s6;
    assert Run(s2, [Press('i'), Press('x'), Key(Backspace, NoMods), Key(Esc, NoMods)]).state == s6;
  }

  /** Ctrl+C while a title is half typed ends the session without a
      confirmation, even with Enter and more keys queued after it. */
  lemma InterruptWhileEditingTitle()
    ensures var r := Run(ThreeFiles(), [Press('p'), Press('f'), Key(Char('c'), ControlOnly), Key(Enter, NoMods), Press('q')]);
      && r.exit == Interrupted
      && r.state.prTitle == "f"
      && r.state.inputMode == PRTitle
      && r.confirmations == []
      && r.consumed == 3
  {
    var s0 := ThreeFiles();
    var s1 := Step(s0, Press('p')).state;
    var s2 := Step(s1, Press('f')).state;
    assert s2.prTitle == "f" && s2.inputMode == PRTitle;
    assert Run(s2, [Key(Char('c'), ControlOnly), Key(Enter, NoMods), Press('q')]).exit == Interrupted;
    assert Run(s1, [Press('f'), Key(Char('c'), ControlOnly), Key(Enter, NoMods), Press('q')]).state == s2;
  }

  /** Two Enters in `Normal` mode fire twice with the same request; a
      following `q` quits. */
  lemma ConfirmTwiceThenQuit()
    ensures var r := Run(ThreeFiles(), [Key(Enter, NoMods), Key(Enter, NoMods), Press('q')]);
      && r.exit == Quit
      && r.confirmations == [CommitRequest([], "", ""), CommitRequest([], "", "")]
  {
    var s0 := ThreeFiles();
    assert SelectedNames(s0.files) == [];
    assert Run(s0, [Key(Enter, NoMods), Press('q')]).confirmations == [CommitRequest([], "", "")];
  }
}
