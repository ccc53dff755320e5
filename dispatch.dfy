/** The body of `run_app`'s loop as a function of the session and one terminal
    event, and the loop itself as a function of a finite event sequence. */
module Dispatch {
  import opened Session
  import opened Navigation
  import opened Ui

  /** The modifier flags held with a key (a bit set in the terminal library). */
  datatype Modifiers = Modifiers(shift: bool, control: bool, alt: bool, super: bool, hyper: bool, meta: bool)

  /** Exactly Control, nothing else. */
  const ControlOnly := Modifiers(false, true, false, false, false, false)

  /** The key codes the session tells apart; every other code is `OtherKey`. */
  datatype KeyCode = Char(c: char) | Enter | Esc | Backspace | OtherKey

  /** A terminal event: a key with the exact set of modifiers held, or any
      non-key event (mouse, resize, focus, paste). */
  datatype Event = Key(code: KeyCode, modifiers: Modifiers) | NonKey

  /** What a handled event does beyond updating the session. */
  datatype Effect = NoEffect | Confirm(request: CommitRequest) | Interrupt

  datatype StepResult = StepResult(state: AppState, effect: Effect)

  /** Ctrl+C: the character `c` with exactly the Control modifier. */
  predicate IsInterrupt(ev: Event) {
    ev.Key? && ev.modifiers == ControlOnly && ev.code == Char('c')
  }

  /** Drops the last character, as `String::pop` does; an empty buffer stays empty. */
  function Pop(buffer: string): (r: string)
    ensures buffer == [] ==> r == []
    ensures buffer != [] ==> r + [buffer[|buffer| - 1]] == buffer
  {
    if |buffer| == 0 then buffer else buffer[..|buffer| - 1]
  }

  /** A key in `Normal` mode: quit, move, toggle, open an editor or confirm. */
  function NormalKey(s: AppState, code: KeyCode): (r: StepResult)
    requires Valid(s) && s.inputMode == Normal
    ensures Valid(r.state) && |r.state.files| == |s.files|
    ensures forall i :: 0 <= i < |s.files| ==> r.state.files[i].name == s.files[i].name
    ensures s.cursor.Some? ==> r.state.cursor.Some?
    ensures r.state.commitMessage == s.commitMessage && r.state.prTitle == s.prTitle
    ensures r.state.inputMode == CommitMessage <==> code == Char('c')
    ensures r.state.inputMode == PRTitle <==> code == Char('p')
    ensures r.effect != Interrupt
    ensures r.effect.Confirm? <==> code == Enter
    ensures r.effect.Confirm? ==> r.state == s && r.effect.request == Request(s)
  {
    match code
    case Char(c) =>
      if c == 'q' then StepResult(s.(shouldQuit := true), NoEffect)
      else if c == 'j' then StepResult(s.(cursor := Some(NextIndex(s.cursor, |s.files|))), NoEffect)
      else if c == 'k' then StepResult(s.(cursor := Some(PreviousIndex(s.cursor, |s.files|))), NoEffect)
      else if c == ' ' then StepResult(s.(files := Toggled(s.files, s.cursor)), NoEffect)
      else if c == 'c' then StepResult(s.(inputMode := CommitMessage), NoEffect)
      else if c == 'p' then StepResult(s.(inputMode := PRTitle), NoEffect)
      else StepResult(s, NoEffect)
    case Enter => StepResult(s, Confirm(Request(s)))
    case _ => StepResult(s, NoEffect)
  }

  /** The text a key leaves in the buffer being edited. */
  function EditBuffer(buffer: string, code: KeyCode): (r: string)
    ensures code.Char? ==> |r| == |buffer| + 1 && r[..|buffer|] == buffer && r[|buffer|] == code.c
    ensures code == Backspace ==> r == Pop(buffer)
    ensures !code.Char? && code != Backspace ==> r == buffer
  {
    match code
    case Char(c) => buffer + [c]
    case Backspace => Pop(buffer)
    case _ => buffer
  }

  /** A key in an edit mode: Esc leaves it, characters and Backspace edit that
      mode's buffer, everything else is ignored. */
  function EditKey(s: AppState, code: KeyCode): (r: StepResult)
    requires s.inputMode != Normal
    ensures r.effect == NoEffect
    ensures r.state.files == s.files && r.state.cursor == s.cursor && r.state.shouldQuit == s.shouldQuit
    ensures r.state.inputMode == Normal <==> code == Esc
    ensures code != Esc ==> r.state.inputMode == s.inputMode
    ensures s.inputMode == CommitMessage || code == Esc ==> r.state.prTitle == s.prTitle
    ensures s.inputMode == PRTitle || code == Esc ==> r.state.commitMessage == s.commitMessage
    ensures code.Char? && s.inputMode == CommitMessage ==> r.state.commitMessage == s.commitMessage + [code.c]
    ensures code.Char? && s.inputMode == PRTitle ==> r.state.prTitle == s.prTitle + [code.c]
    ensures code == Backspace && s.inputMode == CommitMessage ==> r.state.commitMessage == Pop(s.commitMessage)
    ensures code == Backspace && s.inputMode == PRTitle ==> r.state.prTitle == Pop(s.prTitle)
  {
    if code == Esc then StepResult(s.(inputMode := Normal), NoEffect)
    else if s.inputMode == CommitMessage then
      StepResult(s.(commitMessage := EditBuffer(s.commitMessage, code)), NoEffect)
    else
      StepResult(s.(prTitle := EditBuffer(s.prTitle, code)), NoEffect)
  }

  /** One event: Ctrl+C interrupts before any mode is consulted; otherwise
      the key is routed by the current mode; non-key events are ignored. */
  function Step(s: AppState, ev: Event): (r: StepResult)
    requires Valid(s)
    ensures Valid(r.state)
    ensures |r.state.files| == |s.files|
    ensures forall i :: 0 <= i < |s.files| ==> r.state.files[i].name == s.files[i].name
    ensures s.cursor.Some? ==> r.state.cursor.Some?
    ensures r.effect.Confirm? ==> r.state == s && r.effect.request == Request(s)
    ensures r.effect == Interrupt ==> r.state == s
  {
    if IsInterrupt(ev) then StepResult(s, Interrupt)
    else
      match ev
      case NonKey => StepResult(s, NoEffect)
      case Key(code, _) =>
        if s.inputMode == Normal then NormalKey(s, code) else EditKey(s, code)
  }

  /** How a run over a finite event sequence ends: Ctrl+C, the quit flag seen
      after an event, or no further event. */
  datatype Exit = Interrupted | Quit | InputExhausted

  /** The outcome of a run: the last session, the frame drawn before each
      event that was read, every confirmation fired in order, the exit and how
      many events were read. When the input runs out the loop draws one more
      frame, `Render(state)`, and waits. */
  datatype RunResult = RunResult(
    state: AppState,
    frames: seq<View>,
    confirmations: seq<CommitRequest>,
    exit: Exit,
    consumed: nat)

  /** `run_app` over a finite sequence of events: draw, read, dispatch, and
      stop on Ctrl+C or once the quit flag is set. */
  function Run(s: AppState, events: seq<Event>): (r: RunResult)
    requires Valid(s)
    ensures Valid(r.state) && |r.state.files| == |s.files|
    ensures r.consumed <= |events|
    ensures r.exit == InputExhausted ==> r.consumed == |events|
    ensures r.exit != InputExhausted ==> r.consumed > 0
    ensures r.exit == Quit ==> r.state.shouldQuit
    ensures s.cursor.Some? ==> r.state.cursor.Some?
    ensures |r.frames| == r.consumed
    ensures r.consumed > 0 ==> r.frames[0] == Render(s)
    ensures |r.confirmations| <= r.consumed
    decreases |events|
  {
    var frame := Render(s);
    if events == [] then RunResult(s, [], [], InputExhausted, 0)
    else
      var st := Step(s, events[0]);
      if st.effect == Interrupt then RunResult(s, [frame], [], Interrupted, 1)
      else
        var fired := if st.effect.Confirm? then [st.effect.request] else [];
        if st.state.shouldQuit then RunResult(st.state, [frame], fired, Quit, 1)
        else
          var rest := Run(st.state, events[1..]);
          RunResult(rest.state, [frame] + rest.frames, fired + rest.confirmations, rest.exit, 1 + rest.consumed)
  }
}
