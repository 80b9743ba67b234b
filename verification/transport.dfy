/** The renderer's transport and seek logic (script.js): the play and stop buttons, the audio
    element's events and the progress slider, gathered into one state and one transition
    function. The audio element is the engine; the transition returns the commands issued
    to it, and the engine reports back only through later events. */
module Transport {
  import opened Wrappers
  import TimeFormat

  /** What the renderer knows and shows.
      - `hasSrc`: the audio element has a source (`audioPlayer.src` is truthy).
      - `isPlaying`: the renderer's `isPlaying` flag.
      - `isDragging`: the renderer's `isDraggingProgress` flag.
      - `enginePos`: the engine's playback position, as last set or reported.
      - `displayedPos`: the position shown in the current-time label.
      - `sliderPos`: the progress slider's value (the position of its thumb).
      - `duration`: the duration shown in the total-time label, which is also the slider's
        maximum; `None` until known.
      - `pauseIconShown`: the pause icon is visible (otherwise the play icon is). */
  datatype PlayerState = PlayerState(
    hasSrc: bool,
    isPlaying: bool,
    isDragging: bool,
    enginePos: real,
    displayedPos: real,
    sliderPos: real,
    duration: Option<real>,
    pauseIconShown: bool)

  /** User clicks and drags, and the engine's events. `SourceSet` is the assignment of a new
      source at the start of loading a file. Slider values are in seconds. */
  datatype Event =
    | PlayClick
    | StopClick
    | EnginePlay
    | EnginePause
    | EngineEnded
    | LoadedMetadata(duration: real)
    | TimeUpdate(position: real)
    | MouseDown
    | MouseUp
    | SliderInput(value: real)
    | SliderChange(value: real)
    | SourceSet(path: string)

  /** Calls the renderer makes on the engine. */
  datatype Command = SetSource(path: string) | Load | Play | Pause | Seek(to: real)

  datatype Transition = Transition(state: PlayerState, commands: seq<Command>)

  /** Before any file is opened: no source, stopped, the play icon visible. */
  const Initial := PlayerState(false, false, false, 0.0, 0.0, 0.0, None, false)

  /** The icon on the play button always agrees with the `isPlaying` flag. */
  predicate IconAgrees(s: PlayerState) {
    s.pauseIconShown == s.isPlaying
  }

  /** Positions and the known duration are never negative. */
  predicate NonNegative(s: PlayerState) {
    && s.enginePos >= 0.0 && s.displayedPos >= 0.0 && s.sliderPos >= 0.0
    && (s.duration.Some? ==> s.duration.value >= 0.0)
  }

  /** The engine never reports, and the slider never yields, a negative time. */
  predicate WellFormed(e: Event) {
    match e
    case LoadedMetadata(d) => d >= 0.0
    case TimeUpdate(p) => p >= 0.0
    case SliderInput(v) => v >= 0.0
    case SliderChange(v) => v >= 0.0
    case _ => true
  }

  /** Commands that start playback or move to a position other than the start. */
  predicate Moves(c: Command) {
    c.Play? || (c.Seek? && c.to != 0.0)
  }

  /** One event handler: what each event does to the state and which engine calls it makes.
      `StepFrame` states what each event leaves alone. */
  function Step(s: PlayerState, e: Event): (t: Transition)
    // Stop and the end of the track clear the playing flag and rewind; stop also pauses the
    // engine, while at the end of the track the engine is only rewound.
    ensures e.StopClick? || e.EngineEnded? ==> !t.state.isPlaying && t.state.enginePos == 0.0
    ensures e.StopClick? ==> t.commands == [Pause, Seek(0.0)]
    ensures e.EngineEnded? ==> t.commands == [Seek(0.0)]
    // The engine's play event turns the flag and the pause icon on; its pause event turns them off.
    ensures e.EnginePlay? ==> t.state.isPlaying && t.state.pauseIconShown
    ensures e.EnginePause? ==> !t.state.isPlaying && !t.state.pauseIconShown
    ensures e.MouseDown? ==> t.state.isDragging
    ensures e.MouseUp? ==> !t.state.isDragging
    // The engine's reported duration is what the total-time label and the slider's maximum keep.
    ensures e.LoadedMetadata? ==> t.state.duration == Some(e.duration)
    ensures e.SourceSet? ==> t.state.hasSrc && t.commands == [SetSource(e.path)]
    // An engine tick outside a drag moves the label and the thumb; the user's hand moves the thumb.
    ensures e.TimeUpdate? && !s.isDragging ==>
              t.state.displayedPos == e.position && t.state.sliderPos == e.position
    ensures e.TimeUpdate? ==> t.state.enginePos == e.position
    ensures e.SliderInput? || e.SliderChange? ==> t.state.sliderPos == e.value
    ensures (|| e.SliderInput? || e.MouseDown? || e.MouseUp? || e.TimeUpdate?
             || e.LoadedMetadata? || e.EnginePlay? || e.EnginePause?) ==> t.commands == []
    ensures IconAgrees(s) ==> IconAgrees(t.state)
    ensures NonNegative(s) && WellFormed(e) ==> NonNegative(t.state)
  {
    match e
    case PlayClick =>
      if !s.hasSrc then Transition(s, [])
      else if s.isPlaying then Transition(s, [Pause])
      else Transition(s, [Play])
    case StopClick =>
      Transition(s.(enginePos := 0.0, isPlaying := false, pauseIconShown := false), [Pause, Seek(0.0)])
    case EnginePlay =>
      Transition(s.(isPlaying := true, pauseIconShown := true), [])
    case EnginePause =>
      Transition(s.(isPlaying := false, pauseIconShown := false), [])
    case LoadedMetadata(d) =>
      Transition(s.(duration := Some(d)), [])
    case TimeUpdate(p) =>
      if s.isDragging then Transition(s.(enginePos := p), [])
      else Transition(s.(enginePos := p, displayedPos := p, sliderPos := p), [])
    case EngineEnded =>
      Transition(s.(isPlaying := false, pauseIconShown := false, enginePos := 0.0), [Seek(0.0)])
    case MouseDown =>
      Transition(s.(isDragging := true), [])
    case MouseUp =>
      Transition(s.(isDragging := false), [])
    case SliderInput(v) =>
      if s.hasSrc then Transition(s.(sliderPos := v, displayedPos := v), [])
      else Transition(s.(sliderPos := v), [])
    case SliderChange(v) =>
      if s.hasSrc then Transition(s.(sliderPos := v, enginePos := v), [Seek(v)])
      else Transition(s.(sliderPos := v), [])
    case SourceSet(path) =>
      Transition(s.(hasSrc := true), [SetSource(path)])
  }

  /** What each event leaves alone. Only the engine's play and pause events, stop and the end
      of the track touch the playing flag; only the mouse moves the dragging flag; only the
      engine's metadata changes the duration; the engine's position moves only on its own
      ticks, on stop, at the end of the track and on releasing the slider with a source; a
      source, once set, stays. The label moves only
      on a tick outside a drag or on slider input with a source, under the same guard the thumb
      follows. Playback starts only on a play click with a source while not playing, and a seek
      away from the start comes only from releasing the slider with a source. */
  lemma StepFrame(s: PlayerState, e: Event)
    ensures var t := Step(s, e);
            && (t.state.isPlaying != s.isPlaying ==>
                  e.EnginePlay? || e.EnginePause? || e.StopClick? || e.EngineEnded?)
            && (t.state.isDragging != s.isDragging ==> e.MouseDown? || e.MouseUp?)
            && (t.state.duration != s.duration ==> e.LoadedMetadata?)
            && (t.state.enginePos != s.enginePos ==>
                  e.TimeUpdate? || e.StopClick? || e.EngineEnded? || (e.SliderChange? && s.hasSrc))
            && (s.hasSrc ==> t.state.hasSrc)
            && (t.state.hasSrc != s.hasSrc ==> e.SourceSet?)
    ensures var t := Step(s, e);
            && (t.state.displayedPos != s.displayedPos ==>
                  (e.TimeUpdate? && !s.isDragging) || (e.SliderInput? && s.hasSrc))
            && (t.state.sliderPos != s.sliderPos ==>
                  (e.TimeUpdate? && !s.isDragging) || e.SliderInput? || e.SliderChange?)
    ensures var t := Step(s, e);
            && (Play in t.commands ==> e.PlayClick? && s.hasSrc && !s.isPlaying)
            && (forall c :: c in t.commands && c.Seek? && c.to != 0.0 ==> e.SliderChange? && s.hasSrc)
  {
  }

  /** The state after each event of `events` in turn, and every command issued, in order. */
  function Run(s: PlayerState, events: seq<Event>): (t: Transition)
    decreases |events|
  {
    if |events| == 0 then Transition(s, [])
    else
      var first := Step(s, events[0]);
      var rest := Run(first.state, events[1..]);
      Transition(rest.state, first.commands + rest.commands)
  }

  /** A click on play never changes the state: with no source it does nothing, otherwise it
      asks the engine to pause when playing and to play when not. */
  lemma PlayClickOnlyAsks(s: PlayerState)
    ensures Step(s, PlayClick).state == s
    ensures !s.hasSrc ==> Step(s, PlayClick).commands == []
    ensures s.hasSrc && s.isPlaying ==> Step(s, PlayClick).commands == [Pause]
    ensures s.hasSrc && !s.isPlaying ==> Step(s, PlayClick).commands == [Play]
  {
  }

  /** Stopping twice leaves the player exactly as stopping once, and issues the same calls. */
  lemma StopIdempotent(s: PlayerState)
    ensures Step(Step(s, StopClick).state, StopClick) == Step(s, StopClick)
  {
  }

  /** Once the slider is released, the next engine tick shows on the label again. */
  lemma ReleaseResumesTicks(s: PlayerState, p: real)
    ensures Step(Step(s, MouseUp).state, TimeUpdate(p)).state.displayedPos == p
  {
  }

  /** Loading a file, the engine starting and the engine reaching the end leave the player
      stopped at position 0 with the play icon showing. */
  lemma PlayToEnd(s: PlayerState, path: string)
    ensures var t := Run(s, [SourceSet(path), EnginePlay, EngineEnded]).state;
            t.hasSrc && !t.isPlaying && !t.pauseIconShown && t.enginePos == 0.0
  {
    var t1 := Step(s, SourceSet(path)).state;
    var t2 := Step(t1, EnginePlay).state;
    assert Run(s, [SourceSet(path), EnginePlay, EngineEnded]).state
        == Run(t2, [EngineEnded]).state;
  }

  /** While the slider is held, no sequence of engine ticks, clicks or engine events moves the
      current-time label; only slider input or releasing the slider can. */
  lemma {:induction false} DragFreezesLabel(s: PlayerState, events: seq<Event>)
    requires s.isDragging
    requires forall i :: 0 <= i < |events| ==> !events[i].MouseUp? && !events[i].SliderInput?
    ensures Run(s, events).state.isDragging
    ensures Run(s, events).state.displayedPos == s.displayedPos
    decreases |events|
  {
    if |events| > 0 {
      DragFreezesLabel(Step(s, events[0]).state, events[1..]);
    }
  }

  /** With no source loaded, no sequence of events that does not load a file ever makes the
      engine start playing or seek anywhere but the start. */
  lemma {:induction false} NoSourceNeverMoves(s: PlayerState, events: seq<Event>)
    requires !s.hasSrc
    requires forall i :: 0 <= i < |events| ==> !events[i].SourceSet?
    ensures !Run(s, events).state.hasSrc
    ensures forall c :: c in Run(s, events).commands ==> !Moves(c)
    decreases |events|
  {
    if |events| > 0 {
      var first := Step(s, events[0]);
      NoSourceNeverMoves(first.state, events[1..]);
      assert forall c :: c in first.commands ==> !Moves(c);
    }
  }

  /** The renderer's playing flag never turns on by itself: if it is off and the engine never
      reports playback starting, it stays off, whatever the user clicks. */
  lemma {:induction false} PlayingNeedsEngine(s: PlayerState, events: seq<Event>)
    requires !s.isPlaying
    requires forall i :: 0 <= i < |events| ==> !events[i].EnginePlay?
    ensures !Run(s, events).state.isPlaying
    decreases |events|
  {
    if |events| > 0 {
      PlayingNeedsEngine(Step(s, events[0]).state, events[1..]);
    }
  }

  /** Along any run of well-formed events the icon keeps agreeing with the playing flag and
      no position becomes negative. */
  lemma {:induction false} RunKeepsInvariants(s: PlayerState, events: seq<Event>)
    requires IconAgrees(s) && NonNegative(s)
    requires forall i :: 0 <= i < |events| ==> WellFormed(events[i])
    ensures IconAgrees(Run(s, events).state) && NonNegative(Run(s, events).state)
    decreases |events|
  {
    if |events| > 0 {
      RunKeepsInvariants(Step(s, events[0]).state, events[1..]);
    }
  }

  /** The initial state satisfies the invariants. */
  lemma InitialInvariants()
    ensures IconAgrees(Initial) && NonNegative(Initial)
  {
  }

  /** Slider input never reaches the engine: besides the thumb the user moved, it changes only
      the current-time label, and only with a source. */
  lemma SliderInputOnlyLabel(s: PlayerState, v: real)
    ensures Step(s, SliderInput(v)).commands == []
    ensures Step(s, SliderInput(v)).state
         == if s.hasSrc then s.(sliderPos := v, displayedPos := v) else s.(sliderPos := v)
  {
  }

  /** Releasing the slider at `v` seeks the engine to `v` when there is a source and does
      nothing otherwise; the label is left to the engine's next tick. */
  lemma SliderChangeSeeksWithSource(s: PlayerState, v: real)
    ensures Step(s, SliderChange(v)).commands == if s.hasSrc then [Seek(v)] else []
    ensures Step(s, SliderChange(v)).state.displayedPos == s.displayedPos
    ensures s.hasSrc ==> Step(s, SliderChange(v)).state.enginePos == v
  {
  }

  /** The current-time label's text. */
  function CurrentTimeLabel(s: PlayerState): (r: string)
    ensures s.displayedPos >= 0.0 ==> TimeFormat.ParseClock(r) == Some(s.displayedPos.Floor)
  {
    var x := s.displayedPos;
    assert x >= 0.0 ==> TimeFormat.ParseClock(TimeFormat.FormatTime(Some(x))) == Some(x.Floor) by {
      if x >= 0.0 { TimeFormat.FormatThenParse(x); }
    }
    TimeFormat.FormatTime(Some(x))
  }

  /** The total-time label's text: `0:00` until the engine reports a duration. */
  function TotalTimeLabel(s: PlayerState): (r: string)
    ensures s.duration.None? ==> r == "0:00"
    ensures s.duration.Some? && s.duration.value >= 0.0 ==>
              TimeFormat.ParseClock(r) == Some(s.duration.value.Floor)
  {
    match s.duration
    case None => TimeFormat.FormatTime(None)
    case Some(d) =>
      assert d >= 0.0 ==> TimeFormat.ParseClock(TimeFormat.FormatTime(Some(d))) == Some(d.Floor) by {
        if d >= 0.0 { TimeFormat.FormatThenParse(d); }
      }
      TimeFormat.FormatTime(Some(d))
  }

  /** While the slider is held, engine ticks leave the current-time text as it was. */
  lemma DragKeepsLabelText(s: PlayerState, p: real)
    requires s.isDragging
    ensures CurrentTimeLabel(Step(s, TimeUpdate(p)).state) == CurrentTimeLabel(s)
  {
  }
}
