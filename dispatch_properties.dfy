/** What the key dispatch and the event loop promise: the mode table, buffer
    isolation, the interrupt, confirmation, and how runs compose. */
module DispatchProperties {
  import opened Session
  import opened Navigation
  import opened Ui
  import opened Dispatch

  /** Ctrl+C ends the session from every mode, before any mode-specific
      handling, and is the only event that does. */
  lemma InterruptFromAnyMode(s: AppState, ev: Event)
    requires Valid(s)
    ensures Step(s, ev).effect == Interrupt <==> IsInterrupt(ev)
    ensures IsInterrupt(ev) ==> Step(s, ev).state == s
  {
  }

  /** In an edit mode a character (other than Ctrl+C) is appended to that
      mode's buffer and to nothing else. */
  lemma CharEditsOnlyActiveBuffer(s: AppState, c: char, mods: Modifiers)
    requires Valid(s) && s.inputMode != Normal && !IsInterrupt(Key(Char(c), mods))
    ensures var r := Step(s, Key(Char(c), mods));
      && r.effect == NoEffect
      && r.state.files == s.files && r.state.cursor == s.cursor
      && r.state.inputMode == s.inputMode && r.state.shouldQuit == s.shouldQuit
      && (s.inputMode == CommitMessage ==> r.state.commitMessage == s.commitMessage + [c] && r.state.prTitle == s.prTitle)
      && (s.inputMode == PRTitle ==> r.state.prTitle == s.prTitle + [c] && r.state.commitMessage == s.commitMessage)
  {
  }

  /** Typing a character and then Backspace restores the session. */
  lemma AppendThenBackspace(s: AppState, c: char, mods: Modifiers, mods': Modifiers)
    requires Valid(s) && s.inputMode != Normal && !IsInterrupt(Key(Char(c), mods))
    ensures var typed := Step(s, Key(Char(c), mods)).state;
      Valid(typed) && Step(typed, Key(Backspace, mods')).state == s
  {
    var typed := Step(s, Key(Char(c), mods)).state;
    assert Pop(s.commitMessage + [c]) == s.commitMessage;
    assert Pop(s.prTitle + [c]) == s.prTitle;
    assert !IsInterrupt(Key(Backspace, mods'));
  }

  /** Backspace on an empty buffer leaves it empty and changes nothing. */
  lemma BackspaceOnEmpty(s: AppState, mods: Modifiers)
    requires Valid(s)
    requires s.inputMode == CommitMessage ==> s.commitMessage == []
    requires s.inputMode == PRTitle ==> s.prTitle == []
    ensures Step(s, Key(Backspace, mods)) == StepResult(s, NoEffect)
  {
  }

  /** Esc in an edit mode returns to `Normal` and leaves both buffers, the
      list and the cursor as they were. */
  lemma EscLeavesEditMode(s: AppState, mods: Modifiers)
    requires Valid(s) && s.inputMode != Normal
    ensures Step(s, Key(Esc, mods)) == StepResult(s.(inputMode := Normal), NoEffect)
  {
  }

  /** `q` quits only in `Normal`; in an edit mode it is typed like any other
      character and the quit flag is untouched. */
  lemma QuitKeyByMode(s: AppState, mods: Modifiers)
    requires Valid(s)
    ensures var r := Step(s, Key(Char('q'), mods));
      && r.effect == NoEffect
      && (s.inputMode == Normal ==> r.state == s.(shouldQuit := true))
      && (s.inputMode == CommitMessage ==> r.state == s.(commitMessage := s.commitMessage + ['q']))
      && (s.inputMode == PRTitle ==> r.state == s.(prTitle := s.prTitle + ['q']))
  {
  }

  /** The `Normal`-mode table for the keys that change the session. */
  lemma NormalModeKeys(s: AppState, mods: Modifiers)
    requires Valid(s) && s.inputMode == Normal
    ensures Step(s, Key(Char('j'), mods)).state == s.(cursor := Some(NextIndex(s.cursor, |s.files|)))
    ensures Step(s, Key(Char('k'), mods)).state == s.(cursor := Some(PreviousIndex(s.cursor, |s.files|)))
    ensures Step(s, Key(Char(' '), mods)).state == s.(files := Toggled(s.files, s.cursor))
    ensures mods != ControlOnly ==> Step(s, Key(Char('c'), mods)).state == s.(inputMode := CommitMessage)
    ensures mods == ControlOnly ==> Step(s, Key(Char('c'), mods)) == StepResult(s, Interrupt)
    ensures Step(s, Key(Char('p'), mods)).state == s.(inputMode := PRTitle)
  {
  }

  /** Confirmation fires exactly on Enter in `Normal` mode. */
  lemma ConfirmOnlyInNormal(s: AppState, ev: Event)
    requires Valid(s)
    ensures Step(s, ev).effect.Confirm? <==> s.inputMode == Normal && ev.Key? && ev.code == Enter
  {
  }

  /** Confirming changes nothing, so a second confirmation fires with the
      same selection and buffers. */
  lemma RepeatedConfirm(s: AppState, mods: Modifiers, mods': Modifiers)
    requires Valid(s) && s.inputMode == Normal
    ensures Step(s, Key(Enter, mods)) == StepResult(s, Confirm(Request(s)))
    ensures Step(Step(s, Key(Enter, mods)).state, Key(Enter, mods')) == Step(s, Key(Enter, mods))
  {
  }

  /** Keys outside a mode's table, and non-key events, change nothing. */
  lemma UnhandledEventsAreNoOps(s: AppState, ev: Event)
    requires Valid(s) && !IsInterrupt(ev)
    requires || ev == NonKey
             || ev.code == OtherKey
             || (s.inputMode != Normal && ev.code == Enter)
             || (s.inputMode == Normal && (ev.code == Esc || ev.code == Backspace))
             || (s.inputMode == Normal && ev.code.Char? && ev.code.c !in "qjk cp")
    ensures Step(s, ev) == StepResult(s, NoEffect)
  {
  }

  /** A typed character lands in a field exactly when that field is drawn
      emphasised: the highlight shows where input goes. */
  lemma HighlightShowsInputTarget(s: AppState, c: char, mods: Modifiers)
    requires Valid(s) && !IsInterrupt(Key(Char(c), mods))
    ensures Step(s, Key(Char(c), mods)).state.commitMessage != s.commitMessage <==> Render(s).commitStyle == Emphasised
    ensures Step(s, Key(Char(c), mods)).state.prTitle != s.prTitle <==> Render(s).prStyle == Emphasised
  {
    assert |s.commitMessage + [c]| != |s.commitMessage|;
    assert |s.prTitle + [c]| != |s.prTitle|;
  }

  /** Reading the first event of `a + b` leaves the rest of `a`, then `b`. */
  lemma ConcatTail(a: seq<Event>, b: seq<Event>)
    requires a != []
    ensures (a + b)[0] == a[0] && (a + b)[1..] == a[1..] + b
  {
  }

  /** Events after the one that ends a run are never read. */
  lemma {:induction false} RunIgnoresEventsAfterExit(s: AppState, a: seq<Event>, b: seq<Event>)
    requires Valid(s) && Run(s, a).exit != InputExhausted
    ensures Run(s, a + b) == Run(s, a)
    decreases |a|
  {
    ConcatTail(a, b);
    var st := Step(s, a[0]);
    if st.effect != Interrupt && !st.state.shouldQuit {
      RunIgnoresEventsAfterExit(st.state, a[1..], b);
    }
  }

  lemma Assoc<T>(x: seq<T>, p: seq<T>, q: seq<T>)
    ensures x + (p + q) == (x + p) + q
  {
  }

  /** A run that reads all of `a` goes on with `b` from where it stopped. */
  lemma {:induction false} RunContinues(s: AppState, a: seq<Event>, b: seq<Event>)
    requires Valid(s) && Run(s, a).exit == InputExhausted
    ensures var ra := Run(s, a);
      var rb := Run(ra.state, b);
      Run(s, a + b) == RunResult(rb.state, ra.frames + rb.frames,
                                 ra.confirmations + rb.confirmations, rb.exit, ra.consumed + rb.consumed)
    decreases |a|
  {
    if a == [] {
      assert a + b == b;
    } else {
      ConcatTail(a, b);
      var st := Step(s, a[0]);
      var fired := if st.effect.Confirm? then [st.effect.request] else [];
      var rest := Run(st.state, a[1..]);
      var rab := Run(st.state, a[1..] + b);
      var rb := Run(rest.state, b);
      RunContinues(st.state, a[1..], b);
      assert Run(s, a).frames == [Render(s)] + rest.frames;
      assert Run(s, a).confirmations == fired + rest.confirmations;
      assert Run(s, a + b).frames == [Render(s)] + rab.frames;
      assert Run(s, a + b).confirmations == fired + rab.confirmations;
      Assoc([Render(s)], rest.frames, rb.frames);
      Assoc(fired, rest.confirmations, rb.confirmations);
    }
  }

  /** Ctrl+C after any events that did not end the session ends it on the
      spot: no later event is read, nothing more is confirmed and the session
      is the one Ctrl+C found. */
  lemma InterruptEndsRun(s: AppState, a: seq<Event>, rest: seq<Event>)
    requires Valid(s) && Run(s, a).exit == InputExhausted
    requires rest != [] && IsInterrupt(rest[0])
    ensures var r := Run(s, a + rest);
      && r.exit == Interrupted
      && r.state == Run(s, a).state
      && r.confirmations == Run(s, a).confirmations
      && r.consumed == Run(s, a).consumed + 1
  {
    RunContinues(s, a, rest);
  }

  /** A run whose first event sets the quit flag stops right after it. */
  lemma QuitOnFirstEvent(t: AppState, e: Event, rest: seq<Event>)
    requires Valid(t) && !IsInterrupt(e) && Step(t, e).state.shouldQuit
    ensures var st := Step(t, e);
      var r := Run(t, [e] + rest);
      && r.exit == Quit && r.state == st.state && r.consumed == 1
      && r.confirmations == (if st.effect.Confirm? then [st.effect.request] else [])
  {
    assert ([e] + rest)[0] == e;
  }

  /** An event that sets the quit flag, after any events that did not end the
      session, ends it on the spot: no later event is read and the session is
      the one that event left, confirmations included. */
  lemma QuitEndsRun(s: AppState, a: seq<Event>, rest: seq<Event>)
    requires Valid(s) && Run(s, a).exit == InputExhausted
    requires rest != [] && !IsInterrupt(rest[0]) && Step(Run(s, a).state, rest[0]).state.shouldQuit
    ensures var st := Step(Run(s, a).state, rest[0]);
      var r := Run(s, a + rest);
      && r.exit == Quit
      && r.state == st.state
      && r.confirmations == Run(s, a).confirmations + (if st.effect.Confirm? then [st.effect.request] else [])
      && r.consumed == Run(s, a).consumed + 1
  {
    RunContinues(s, a, rest);
    assert [rest[0]] + rest[1..] == rest;
    QuitOnFirstEvent(Run(s, a).state, rest[0], rest[1..]);
  }

  /** One more event at the end of a run that was still waiting: a frame is
      drawn for the state reached, and the event is dispatched by `Step`, its
      confirmation appended; the run ends only on Ctrl+C or the quit flag. */
  lemma RunSnoc(s: AppState, a: seq<Event>, e: Event)
    requires Valid(s) && Run(s, a).exit == InputExhausted
    ensures var ra := Run(s, a);
      var st := Step(ra.state, e);
      var r := Run(s, a + [e]);
      && r.consumed == ra.consumed + 1
      && r.frames == ra.frames + [Render(ra.state)]
      && (st.effect == Interrupt ==>
            r.exit == Interrupted && r.state == ra.state && r.confirmations == ra.confirmations)
      && (st.effect != Interrupt ==>
            && r.state == st.state
            && r.confirmations == ra.confirmations + (if st.effect.Confirm? then [st.effect.request] else [])
            && r.exit == (if st.state.shouldQuit then Quit else InputExhausted))
  {
    RunContinues(s, a, [e]);
  }
}
