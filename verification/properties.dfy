/** Properties of the controller that span several transitions: how opening,
    first frames and finished seeks combine into swaps, that every one-shot
    callback fires at most once, what the watchdog and the stage watch do
    across ticks, and that the controller invariant holds in every state
    reachable from initialisation. */
module ControllerProperties {
  import opened Base
  import opened FrameClock
  import opened Engine
  import opened FrameListeners
  import opened Controller

  // ---------------------------------------------------------------------
  // Swapping

  /** Two swaps restore the controller, having closed the current player and
      then the other one. */
  lemma SwapTwiceRestores(s: State)
    requires Valid(s)
    ensures Swap(Swap(s).state).state == s
    ensures Swap(s).trace + Swap(Swap(s).state).trace == [Drive(s.Cur(), Call.Close), Drive(s.Load(), Call.Close)]
  {
  }

  // ---------------------------------------------------------------------
  // Opening

  /** Preloading with an immediate swap: opening leaves the current player
      alone (every call goes to the load player), the first frame swaps the
      players exactly once, closing the old current player before the host is
      called back, and a further first-frame event swaps nothing. */
  lemma PreloadSwapsOnFirstFrame(s: State, engines: Engines, path: string, callback: Option<CallbackId>,
                                 primaryOpened: bool, slot: int, laterSlot: int)
    requires Valid(s) && IsSlot(slot) && IsSlot(laterSlot)
    requires engines.At(s.Cur()).canPlay
    ensures var opening := OpenVideo(s, engines, path, callback, false, primaryOpened);
            var ready := FrameReady(opening.state, slot);
            && opening.state.Cur() == s.Cur()
            && (forall e | e in opening.trace :: e.Drive? && e.slot == s.Load())
            && ready.state.Cur() == s.Load()
            && ready.trace == [Drive(s.Cur(), Call.Close)] + ReadyCallback(callback, slot)
            && FrameReady(ready.state, laterSlot) == Step(ready.state, [])
  {

  }

  /** Preloading with a deferred swap: the first frame calls the host back
      but does not swap; the next finished seek, whichever player reports it,
      performs the swap. */
  lemma DeferredSwapWaitsForSeek(s: State, engines: Engines, path: string, callback: Option<CallbackId>,
                                 primaryOpened: bool, slot: int, seekSlot: int)
    requires Valid(s) && IsSlot(slot) && IsSlot(seekSlot)
    requires engines.At(s.Cur()).canPlay
    ensures var opening := OpenVideo(s, engines, path, callback, true, primaryOpened);
            var ready := FrameReady(opening.state, slot);
            var sought := SeekFinished(ready.state, seekSlot);
            && ready.state.Cur() == s.Cur()
            && ready.trace == ReadyCallback(callback, slot)
            && sought.state.Cur() == s.Load()
            && sought.trace[0] == Drive(s.Cur(), Call.Close)
  {

  }

  /** The deferred swap is armed when the video is opened, not when its first
      frame arrives: a finished seek before the load player's first frame
      already swaps, and the first frame then swaps nothing more. */
  lemma DeferredSwapArmedAtOpen(s: State, engines: Engines, path: string, callback: Option<CallbackId>,
                                primaryOpened: bool, seekSlot: int, slot: int)
    requires Valid(s) && IsSlot(seekSlot) && IsSlot(slot)
    requires engines.At(s.Cur()).canPlay
    ensures var opening := OpenVideo(s, engines, path, callback, true, primaryOpened);
            var early := SeekFinished(opening.state, seekSlot);
            var ready := FrameReady(early.state, slot);
            && early.state.Cur() == s.Load()
            && ready.state.Cur() == s.Load()
            && ready.trace == ReadyCallback(callback, slot)
  {

  }

  /** With nothing playable loaded, two opens in a row both go to the current
      player, never to the load player, and only the second request's
      callback is left to run on the first frame, without a swap. */
  lemma DirectOpenTwice(s: State, engines: Engines, path1: string, callback1: Option<CallbackId>,
                        wait1: bool, ok1: bool, path2: string, callback2: Option<CallbackId>,
                        wait2: bool, ok2: bool, slot: int)
    requires Valid(s) && IsSlot(slot)
    requires !engines.At(s.Cur()).canPlay
    ensures var first := OpenVideo(s, engines, path1, callback1, wait1, ok1);
            var second := OpenVideo(first.state, engines, path2, callback2, wait2, ok2);
            var ready := FrameReady(second.state, slot);
            && (forall e | e in first.trace + second.trace :: e.Drive? && e.slot == s.Cur())
            && ready.state.Cur() == s.Cur()
            && ready.trace == ReadyCallback(callback2, slot)
  {

  }

  // ---------------------------------------------------------------------
  // One-shot callbacks

  /** A second FinishedSeeking for the same seek swaps nothing and invokes
      nothing: the deferred swap was disarmed and the handler dropped. */
  lemma SeekFinishedTwiceIsQuiet(s: State, slot: int, again: int)
    requires Valid(s) && IsSlot(slot) && IsSlot(again)
    ensures var first := SeekFinished(s, slot);
            var second := SeekFinished(first.state, again);
            second.trace == [] && second.state.Cur() == first.state.Cur()
  {
  }

  /** The frame-ready handler runs at most once. */
  lemma FrameReadyTwiceIsQuiet(s: State, slot: int, again: int)
    requires Valid(s) && IsSlot(slot) && IsSlot(again)
    ensures var first := FrameReady(s, slot);
            FrameReady(first.state, again) == Step(first.state, [])
  {
  }

  /** The play-finished callback runs at most once. */
  lemma PlayFinishedTwiceIsQuiet(s: State)
    requires Valid(s)
    ensures var first := PlayFinished(s);
            PlayFinished(first.state) == Step(first.state, [])
  {
  }

  // ---------------------------------------------------------------------
  // Seek watchdog

  /** The watchdog finishes a given seek at most once: after it fired for a
      role, it does not fire for that role again until a new seek is issued,
      whatever the players report next. */
  lemma WatchdogFiresOncePerSeek(s: State, now: Engines, later: Engines)
    requires Valid(s)
    ensures var first := Watchdog(s, now);
            var second := Watchdog(first.state, later);
            && (first.firedCur ==> !second.firedCur)
            && (first.firedLoad ==> !second.firedLoad)
  {
  }

  /** A seek on the current player whose position then lands within the
      tolerance of the target is finished by exactly one synthetic
      FinishedSeeking: the first watchdog run fires, the next does not. */
  lemma SeekThenConvergeFiresOnce(s: State, engines: Engines, frame: int)
    requires Valid(s)
    requires 1 <= frame && TimeOf(frame) <= engines.At(s.Cur()).durationMs
    requires Near(engines.At(s.Cur()).timeMs, TimeOf(frame))
    ensures var sought := Controller.Seek(s, engines, frame, None);
            var first := Watchdog(sought.state, engines);
            first.firedCur && !Watchdog(first.state, engines).firedCur
  {
  }

  /** What the watchdog exists for: while the current player is stopped, a
      pending seek of the current role whose position has converged is
      completed by the next tick as if the engine had reported
      FinishedSeeking. The seek handler runs and is dropped, a deferred
      swap happens (closing the old current player before anything else),
      and no swap happens otherwise. */
  lemma ConvergedSeekFinishesInTick(s: State, engines: Engines)
    requires Valid(s) && !engines.At(s.Cur()).playing
    requires s.seekingCur && Near(engines.At(s.Cur()).timeMs, s.seekTargetCur)
    ensures var r := Tick(s, engines);
            && !r.state.seekingCur && !r.state.waitSeekBeforeSwap
            && r.state.onSeekFinished.None?
            && (r.state.Cur() == s.Load() <==> s.waitSeekBeforeSwap)
            && (s.waitSeekBeforeSwap ==> 1 <= |r.trace| && r.trace[0] == Drive(s.Cur(), Call.Close))
            && (s.onSeekFinished.Some? ==> r.state.onFrameChanged == s.onSeekFinished)
  {
  }

  /** The 40 ms tolerance is shorter than one frame (1000/24 ms): a position
      the watchdog accepts for the seek target of `frame` shows that frame
      when it is at or past the target, and at worst the frame before it. */
  lemma NearTargetShowsAdjacentFrame(timeMs: real, frame: int)
    requires 1 <= frame && 0.0 <= timeMs
    requires Near(timeMs, TimeOf(frame))
    ensures FrameOf(timeMs) == frame || FrameOf(timeMs) == frame - 1
    ensures timeMs >= TimeOf(frame) ==> FrameOf(timeMs) == frame
  {
    FrameReached(timeMs, frame);
    FrameReached(timeMs, frame - 1);
    FrameReached(timeMs, frame + 1);
  }

  /** The load role is checked after a swap the current role's completion
      may have done: when that swap happens, the load role's target is
      compared with the position of the player that was current when the
      tick began. */
  lemma LoadCheckFollowsSwap(s: State, engines: Engines)
    requires Valid(s)
    ensures var w := Watchdog(s, engines);
            w.firedCur ==>
              (w.firedLoad <==>
                 s.seekingLoad
                 && Near(engines.At(if s.waitSeekBeforeSwap then s.Cur() else s.Load()).timeMs, s.seekTargetLoad))
  {

  }

  // ---------------------------------------------------------------------
  // Stages

  /** A single-frame stage away from frame 1 seeks to its frame and plays;
      when the seek finishes on the target player, that player is paused and
      the stage watch installed. */
  lemma LockedStagePausesOnSeek(s: State, engines: Engines, frame: int, callback: Option<CallbackId>)
    requires Valid(s) && !s.waitSeekBeforeSwap
    requires 1 < frame && TimeOf(frame) <= engines.At(s.Cur()).durationMs
    ensures var staged := PlayOneStage(s, engines, frame, frame, false, None, callback);
            var sought := SeekFinished(staged.state, s.Cur());
            && staged.trace == [Drive(s.Cur(), Call.Seek(TimeOf(frame))), Drive(s.Cur(), Call.Play)]
            && sought.trace == [Drive(s.Cur(), Call.Pause)]
            && sought.state.onFrameChanged == Some(Stage(frame, frame, false, s.Cur(), callback))
  {
  }

  /** Starting a stage discards whatever stage handlers were installed: the
      handlers afterwards depend only on the request and the current slot. */
  lemma PlayOneStageReplacesHandlers(s1: State, s2: State, engines: Engines, startFrame: int,
                                     endFrame: int, loop: bool, player: Option<int>,
                                     callback: Option<CallbackId>)
    requires Valid(s1) && Valid(s2) && s1.Cur() == s2.Cur()
    requires player.Some? ==> IsSlot(player.value)
    ensures var r1 := PlayOneStage(s1, engines, startFrame, endFrame, loop, player, callback);
            var r2 := PlayOneStage(s2, engines, startFrame, endFrame, loop, player, callback);
            r1.state.onFrameChanged == r2.state.onFrameChanged
            && r1.state.onSeekFinished == r2.state.onSeekFinished
  {
  }

  /** The frame number every listener is told on a playing tick is the one
      the stage watch saw, the current player's frame, and the listeners are
      told in subscription order after the stage watch has run. Both frame
      numbers come from the tick's single observation of the engines. */
  lemma ListenersSeeCurrentFrame(s: State, engines: Engines)
    requires Valid(s) && engines.At(s.Cur()).playing
    ensures var r := PublishFrame(s, engines);
            var frame := FrameOf(engines.At(s.Cur()).timeMs);
            && |s.frameListeners| <= |r.trace|
            && r.trace[|r.trace| - |s.frameListeners|..] == Notify(s.frameListeners, frame)
            && forall e | e in r.trace && e.FrameNotified? :: e.frame == frame
  {
    var frame := FrameOf(engines.At(s.Cur()).timeMs);
    var watched := if s.onFrameChanged.Some? then RunStageWatch(s, engines, s.onFrameChanged.value, frame)
                   else Step(s, []);
    WatchTraceHasNoNotification(s, engines, frame);
    var r := PublishFrame(s, engines);
    assert r.trace == watched.trace + Notify(s.frameListeners, frame);
    forall e | e in r.trace && e.FrameNotified?
      ensures e.frame == frame
    {
      assert e in Notify(s.frameListeners, frame);
    }
  }

  /** The stage watch only reports stage ends and drives players. */
  lemma WatchTraceHasNoNotification(s: State, engines: Engines, frame: int)
    requires Valid(s)
    ensures s.onFrameChanged.Some? ==>
              forall e | e in RunStageWatch(s, engines, s.onFrameChanged.value, frame).trace :: !e.FrameNotified?
  {
    if s.onFrameChanged.Some? {
      var stage := s.onFrameChanged.value;
      if frame >= stage.endFrame && stage.loop {
        var again := PlayOneStage(s, engines, stage.startFrame, stage.endFrame, true,
                                  Some(stage.target), stage.callback);
        assert forall e | e in again.trace :: e.Drive?;
      }
    }
  }

  /** On a playing tick, a stage with an end callback reports its end exactly
      when the current player's position has reached the end frame's start. */
  lemma StageEndIffReached(s: State, engines: Engines)
    requires Valid(s) && engines.At(s.Cur()).playing && 0.0 <= engines.At(s.Cur()).timeMs
    requires s.onFrameChanged.Some? && s.onFrameChanged.value.callback.Some?
    ensures var stage := s.onFrameChanged.value;
            StageEndCallback(stage.callback.value) in PublishFrame(s, engines).trace
            <==> engines.At(s.Cur()).timeMs >= TimeOf(stage.endFrame)
  {

  }

  /** The stage watch is not removed when it fires: a non-looping stage past
      its end frame reports its end again on every later playing tick whose
      frame is still at or past the end. */
  lemma StageEndRepeatsEveryTick(s: State, engines: Engines, later: Engines)
    requires Valid(s) && engines.At(s.Cur()).playing && later.At(s.Cur()).playing
    requires s.onFrameChanged.Some? && !s.onFrameChanged.value.loop
    requires FrameOf(engines.At(s.Cur()).timeMs) >= s.onFrameChanged.value.endFrame
    requires FrameOf(later.At(s.Cur()).timeMs) >= s.onFrameChanged.value.endFrame
    ensures var ended := StageEnded(s.onFrameChanged.value.callback);
            var first := PublishFrame(s, engines);
            var second := PublishFrame(first.state, later);
            && first.state == s && second.state == s
            && first.trace[..|ended|] == ended
            && second.trace[..|ended|] == ended
  {
  }

  /** A looping stage from frame 1 restarts on reaching its end: it reports
      the end, rewinds and plays its player again, and keeps watching. */
  lemma LoopingStageRestarts(s: State, engines: Engines)
    requires Valid(s) && engines.At(s.Cur()).playing
    requires s.onFrameChanged.Some? && s.onFrameChanged.value.loop && s.onFrameChanged.value.startFrame == 1
    requires FrameOf(engines.At(s.Cur()).timeMs) >= s.onFrameChanged.value.endFrame
    ensures var stage := s.onFrameChanged.value;
            var r := PublishFrame(s, engines);
            && r.state.onFrameChanged == Some(stage)
            && r.trace == StageEnded(stage.callback)
                          + [Drive(stage.target, Call.Rewind), Drive(stage.target, Call.Play)]
                          + Notify(s.frameListeners, FrameOf(engines.At(s.Cur()).timeMs))
  {
  }

  /** A looping stage from a later frame restarts through a seek: on
      reaching its end it reports the end, drops its own watch, and re-arms
      itself as the seek handler, so it watches again only once the
      restart's seek finishes. */
  lemma LoopingSeekStageRearms(s: State, engines: Engines, frame: int)
    requires Valid(s) && s.onFrameChanged.Some?
    requires s.onFrameChanged.value.loop && s.onFrameChanged.value.startFrame != 1
    requires frame >= s.onFrameChanged.value.endFrame
    ensures var stage := s.onFrameChanged.value;
            var r := RunStageWatch(s, engines, stage, frame);
            && r.state.onFrameChanged.None?
            && r.state.onSeekFinished == Some(stage)
            && r.trace[..|StageEnded(stage.callback)|] == StageEnded(stage.callback)
            && r.trace[|r.trace| - 1] == Drive(stage.target, Call.Play)
  {
  }

  // ---------------------------------------------------------------------
  // Closing

  /** After `Release`, engine events no longer reach the controller, and a
      tick while the current player is stopped does nothing. */
  lemma ReleasedControllerIsQuiet(s: State, engines: Engines, slot: int, event: Event)
    requires Valid(s) && IsSlot(slot)
    requires !engines.At(0).playing
    ensures var released := Release(s).state;
            && EngineEvent(released, slot, event) == Step(released, [])
            && Tick(released, engines) == Step(released, [])
  {
  }

  // ---------------------------------------------------------------------
  // Every reachable state

  /** Everything the host and the engines can do to the controller. */
  datatype Op =
    | OpenVideoOp(engines: Engines, path: string, callback: Option<CallbackId>, waitSeek: bool, primaryOpened: bool)
    | SeekOp(engines: Engines, frame: int, player: Option<int>)
    | PauseOp
    | RewindOp
    | PlayOp(loop: bool)
    | PlayOneStageOp(engines: Engines, startFrame: int, endFrame: int, loop: bool,
                     player: Option<int>, callback: Option<CallbackId>)
    | CloseVideoOp(removeListeners: bool)
    | ReleaseOp
    | AddListenerOp(listener: ListenerId)
    | RemoveListenerOp(listener: ListenerId, removeAll: bool)
    | SetPlayFinishedOp(finished: CallbackId)
    | EngineEventOp(slot: int, event: Event)
    | TickOp(engines: Engines)

  /** A player argument names one of the two players. */
  predicate WellFormed(op: Op) {
    match op
    case SeekOp(_, _, player) => player.Some? ==> IsSlot(player.value)
    case PlayOneStageOp(_, _, _, _, player, _) => player.Some? ==> IsSlot(player.value)
    case EngineEventOp(slot, _) => IsSlot(slot)
    case _ => true
  }

  function Apply(s: State, op: Op): (r: Step)
    requires Valid(s) && WellFormed(op)
    ensures Valid(r.state)
  {
    match op
    case OpenVideoOp(engines, path, callback, waitSeek, primaryOpened) =>
      OpenVideo(s, engines, path, callback, waitSeek, primaryOpened)
    case SeekOp(engines, frame, player) => Controller.Seek(s, engines, frame, player)
    case PauseOp => Controller.Pause(s)
    case RewindOp => Controller.Rewind(s)
    case PlayOp(loop) => Controller.Play(s, loop)
    case PlayOneStageOp(engines, startFrame, endFrame, loop, player, callback) =>
      PlayOneStage(s, engines, startFrame, endFrame, loop, player, callback)
    case CloseVideoOp(removeListeners) => CloseVideo(s, removeListeners)
    case ReleaseOp => Release(s)
    case AddListenerOp(listener) => AddFrameEventListener(s, listener)
    case RemoveListenerOp(listener, removeAll) => RemoveFrameEventListener(s, listener, removeAll)
    case SetPlayFinishedOp(callback) => SetPlayFinished(s, callback)
    case EngineEventOp(slot, event) => EngineEvent(s, slot, event)
    case TickOp(engines) => Tick(s, engines)
  }

  /** Runs a sequence of operations, concatenating their traces. Every state
      on the way keeps the invariant: one of the two slots is current and it
      is the one displayed. Once unsubscribed from engine events, the
      controller never subscribes again. */
  function Run(s: State, ops: seq<Op>): (r: Step)
    requires Valid(s)
    requires forall i | 0 <= i < |ops| :: WellFormed(ops[i])
    ensures Valid(r.state)
    ensures IsSlot(r.state.Cur()) && r.state.display == r.state.Cur()
    ensures !s.eventsAttached ==> !r.state.eventsAttached
    decreases |ops|
  {
    if ops == [] then Step(s, [])
    else
      var first := Apply(s, ops[0]);
      assert !s.eventsAttached ==> !first.state.eventsAttached by {
        AppliedStaysDetached(s, ops[0]);
      }
      var rest := Run(first.state, ops[1..]);
      Step(rest.state, first.trace + rest.trace)
  }

  lemma AppliedStaysDetached(s: State, op: Op)
    requires Valid(s) && WellFormed(op)
    ensures !s.eventsAttached ==> !Apply(s, op).state.eventsAttached
  {
  }

  /** From initialisation, whatever happens, the active index is 0 or 1 and
      the display shows the current player. */
  lemma ReachableStatesAreValid(ops: seq<Op>)
    requires forall i | 0 <= i < |ops| :: WellFormed(ops[i])
    ensures var r := Run(Init(), ops);
            (r.state.Cur() == 0 || r.state.Cur() == 1) && r.state.display == r.state.Cur()
  {
  }
}
