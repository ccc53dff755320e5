/** The `App` object as the program keeps it, updated in place by its methods
    and by the event loop; each method is proved against the functions of
    `Navigation` and `Dispatch`. */
module Runtime {
  import opened Session
  import opened Navigation
  import opened Ui
  import opened Dispatch
  import opened DispatchProperties

  class App {
    var files: seq<FileItem>
    /** The selected row of the list widget's state. */
    var cursor: Option<nat>
    var commitMessage: string
    var prTitle: string
    var inputMode: InputMode
    var shouldQuit: bool

    /** The fields as one session value. */
    function State(): (s: AppState)
      reads this
      ensures s.files == files && s.cursor == cursor && s.inputMode == inputMode && s.shouldQuit == shouldQuit
      ensures s.commitMessage == commitMessage && s.prTitle == prTitle
    {
      AppState(files, cursor, commitMessage, prTitle, inputMode, shouldQuit)
    }

    predicate Valid()
      reads this
    {
      Session.Valid(State())
    }

    /** The app as started: the given changed files, empty buffers, `Normal`
        mode, and the first row selected before the first frame. */
    constructor (changed: seq<FileItem>)
      requires |changed| > 0
      ensures Valid() && State() == Initial(changed)
    {
      files := changed;
      cursor := None;
      commitMessage := "";
      prTitle := "";
      inputMode := Normal;
      shouldQuit := false;
      new;
      cursor := Some(0);
    }

    /** Moves the cursor one row down, wrapping to the first row. */
    method Next()
      requires Valid()
      modifies this
      ensures Valid()
      ensures State() == old(State()).(cursor := Some(NextIndex(old(cursor), |files|)))
    {
      var i: nat;
      match cursor {
        case Some(j) => i := (j + 1) % |files|;
        case None => i := 0;
      }
      cursor := Some(i);
    }

    /** Moves the cursor one row up, wrapping to the last row. */
    method Previous()
      requires Valid()
      modifies this
      ensures Valid()
      ensures State() == old(State()).(cursor := Some(PreviousIndex(old(cursor), |files|)))
    {
      var i: nat;
      match cursor {
        case Some(j) =>
          if j == 0 {
            i := |files| - 1;
          } else {
            i := j - 1;
          }
        case None => i := 0;
      }
      cursor := Some(i);
    }

    /** Flips the mark of the file under the cursor, if there is a cursor. */
    method ToggleSelected()
      requires Valid()
      modifies this
      ensures Valid()
      ensures State() == old(State()).(files := Toggled(old(files), old(cursor)))
    {
      if cursor.Some? {
        var i := cursor.value;
        files := files[i := files[i].(selected := !files[i].selected)];
      }
    }

    /** The commit/pull-request action: it reads the app and changes nothing. */
    method CreateCommitAndPr() returns (request: CommitRequest)
      ensures request == Request(State())
    {
      request := CommitRequest(SelectedNames(files), commitMessage, prTitle);
    }

    /** One pass of the loop body of `run_app` after an event was read. */
    method HandleEvent(ev: Event) returns (effect: Effect)
      requires Valid()
      modifies this
      ensures Valid()
      ensures StepResult(State(), effect) == Step(old(State()), ev)
    {
      effect := NoEffect;
      if ev.Key? && ev.modifiers == ControlOnly && ev.code == Char('c') {
        effect := Interrupt;
        return;
      }
      match ev {
        case NonKey =>
        case Key(code, _) =>
          match inputMode {
            case Normal =>
              match code {
                case Char(c) =>
                  if c == 'q' {
                    shouldQuit := true;
                  } else if c == 'j' {
                    Next();
                  } else if c == 'k' {
                    Previous();
                  } else if c == ' ' {
                    ToggleSelected();
                  } else if c == 'c' {
                    inputMode := CommitMessage;
                  } else if c == 'p' {
                    inputMode := PRTitle;
                  }
                case Enter =>
                  var request := CreateCommitAndPr();
                  effect := Confirm(request);
                case _ =>
              }
            case CommitMessage =>
              match code {
                case Esc => inputMode := Normal;
                case Char(c) => commitMessage := commitMessage + [c];
                case Backspace =>
                  if |commitMessage| > 0 {
                    commitMessage := commitMessage[..|commitMessage| - 1];
                  }
                case _ =>
              }
            case PRTitle =>
              match code {
                case Esc => inputMode := Normal;
                case Char(c) => prTitle := prTitle + [c];
                case Backspace =>
                  if |prTitle| > 0 {
                    prTitle := prTitle[..|prTitle| - 1];
                  }
                case _ =>
              }
          }
      }
    }
  }

  /** A run from the `k`-th event on, one event unfolded. */
  lemma RunFrom(t: AppState, events: seq<Event>, k: nat)
    requires Valid(t) && k < |events|
    ensures var st := Step(t, events[k]);
      var fired := if st.effect.Confirm? then [st.effect.request] else [];
      var r := Run(t, events[k..]);
      && (st.effect == Interrupt ==> r.state == t && r.frames == [Render(t)] && r.confirmations == [] && r.exit == Interrupted)
      && (st.effect != Interrupt && st.state.shouldQuit ==>
            r.state == st.state && r.frames == [Render(t)] && r.confirmations == fired && r.exit == Quit)
      && (st.effect != Interrupt && !st.state.shouldQuit ==>
            var rest := Run(st.state, events[k + 1..]);
            r.state == rest.state && r.frames == [Render(t)] + rest.frames
            && r.confirmations == fired + rest.confirmations && r.exit == rest.exit)
  {
    assert events[k..][0] == events[k];
    assert events[k..][1..] == events[k + 1..];
  }

  /** `run_app` over a finite sequence of events: draw a frame, stop if no
      event is left, otherwise read and dispatch one; return on Ctrl+C or
      once the quit flag is set. The frames are all the frames drawn,
      including the one drawn while waiting once the input has run out. */
  method RunApp(app: App, events: seq<Event>) returns (frames: seq<View>, confirmations: seq<CommitRequest>, exit: Exit)
    requires app.Valid()
    modifies app
    ensures app.Valid()
    ensures var r := Run(old(app.State()), events);
      && app.State() == r.state
      && frames == r.frames + (if r.exit == InputExhausted then [Render(r.state)] else [])
      && confirmations == r.confirmations
      && exit == r.exit
  {
    ghost var whole := Run(app.State(), events);
    frames, confirmations := [], [];
    var k := 0;
    assert events[0..] == events;
    while true
      invariant 0 <= k <= |events|
      invariant app.Valid()
      invariant whole.state == Run(app.State(), events[k..]).state
      invariant whole.frames == frames + Run(app.State(), events[k..]).frames
      invariant whole.confirmations == confirmations + Run(app.State(), events[k..]).confirmations
      invariant whole.exit == Run(app.State(), events[k..]).exit
      decreases |events| - k
    {
      ghost var t := app.State();
      var frame := Render(app.State());
      if k == |events| {
        assert events[k..] == [];
        frames := frames + [frame];
        exit := InputExhausted;
        return;
      }
      RunFrom(t, events, k);
      ghost var rest := Run(Step(t, events[k]).state, events[k + 1..]);
      Assoc(frames, [Render(t)], rest.frames);
      frames := frames + [frame];
      var effect := app.HandleEvent(events[k]);
      k := k + 1;
      if effect == Interrupt {
        exit := Interrupted;
        return;
      }
      if effect.Confirm? {
        Assoc(confirmations, [effect.request], rest.confirmations);
        confirmations := confirmations + [effect.request];
      } else {
        assert [] + rest.confirmations == rest.confirmations;
      }
      if app.shouldQuit {
        exit := Quit;
        return;
      }
    }
  }
}
