/** The double-buffered playback controller of `UIMediaPlayer`: two decoder
    slots, the index of the current one, per-role seek bookkeeping, the
    one-shot callback slots and the frame notifications, driven by public
    calls, engine events and the per-frame `Update` tick.

    Every operation is a pure transition from a `State` to a `Step`: the next
    state and the trace of externally visible effects (engine calls and host
    callback invocations), in the order the source performs them. What the
    engines report (can play, playing, position, duration, whether an open
    succeeded) is an input to the transition. */
module Controller {
  import opened Base
  import opened FrameClock
  import opened Engine
  import opened FrameListeners

  /** Opaque identity of a host callback. */
  type CallbackId = nat

  /** A polled position closer than this (in ms, about one frame) to the
      seek target counts as a finished seek. */
  const SeekToleranceMs: real := 40.0

  predicate IsSlot(i: int) {
    i == 0 || i == 1
  }

  /** One `PlayOneStage` request: play `startFrame`..`endFrame` on the player
      in physical slot `target`, optionally looping, telling `callback` when
      the end is reached. The closures of the source capture exactly this. */
  datatype Stage = Stage(startFrame: int, endFrame: int, loop: bool, target: int, callback: Option<CallbackId>)

  /** The handler `OpenVideo` leaves in `onVideoFrameReady`. */
  datatype ReadyHandler =
      /** Installed when the new video went to the load player: swap unless
          the swap waits for a seek, then call the host back. */
    | PreloadReady(waitSeek: bool, callback: Option<CallbackId>)
      /** Installed when the new video went straight to the current player. */
    | DirectReady(callback: Option<CallbackId>)

  /** The controller's fields. `idx` is `curMediaPlayerIdx`; the seek flags
      and targets belong to the roles "current" and "load", not to a physical
      player; `display` is the slot the display surface is bound to;
      `eventsAttached` records whether engine events still reach the
      controller. */
  datatype State = State(
    idx: int,
    waitSeekBeforeSwap: bool,
    seekingCur: bool,
    seekingLoad: bool,
    seekTargetCur: real,
    seekTargetLoad: real,
    onFrameReady: Option<ReadyHandler>,
    onSeekFinished: Option<Stage>,
    onPlayFinished: Option<CallbackId>,
    onFrameChanged: Option<Stage>,
    frameListeners: seq<ListenerId>,
    eventsAttached: bool,
    display: int)
  {
    /** Physical slot of `CurMediaPlayer`. */
    function Cur(): int {
      idx
    }

    /** Physical slot of `LoadMediaPlayer`. */
    function Load(): int {
      1 - idx
    }
  }

  /** An externally visible effect of a transition. */
  datatype Effect =
    | Drive(slot: int, call: Call)
    | FrameReadyCallback(callback: CallbackId, slot: int)
    | StageEndCallback(callback: CallbackId)
    | PlayFinishedCallback(callback: CallbackId)
    | FrameNotified(listener: ListenerId, frame: int)

  datatype Step = Step(state: State, trace: seq<Effect>)

  /** The controller invariant: exactly one slot is current, the display shows
      it, and every stage handler targets a real slot. */
  predicate Valid(s: State) {
    && IsSlot(s.idx)
    && s.display == s.idx
    && (s.onSeekFinished.Some? ==> IsSlot(s.onSeekFinished.value.target))
    && (s.onFrameChanged.Some? ==> IsSlot(s.onFrameChanged.value.target))
  }

  /** Both states agree on the per-role seek flags and targets. */
  predicate SameSeeking(s: State, t: State) {
    && s.seekingCur == t.seekingCur
    && s.seekingLoad == t.seekingLoad
    && s.seekTargetCur == t.seekTargetCur
    && s.seekTargetLoad == t.seekTargetLoad
  }

  /** Both states agree on the stage handlers (seek-finished and frame watch). */
  predicate SameStage(s: State, t: State) {
    s.onSeekFinished == t.onSeekFinished && s.onFrameChanged == t.onFrameChanged
  }

  /** Both states agree on what the host installed: the play-finished slot,
      the frame listeners and the engine event subscription. */
  predicate SameHost(s: State, t: State) {
    && s.onPlayFinished == t.onPlayFinished
    && s.frameListeners == t.frameListeners
    && s.eventsAttached == t.eventsAttached
  }

  /** The effect of invoking a nullable host callback `callback(player)`. */
  function ReadyCallback(callback: Option<CallbackId>, slot: int): (t: seq<Effect>)
    ensures callback.None? <==> t == []
    ensures callback.Some? ==> t == [FrameReadyCallback(callback.value, slot)]
  {
    match callback
    case None => []
    case Some(cb) => [FrameReadyCallback(cb, slot)]
  }

  /** The controller after `InitMediaPlayers` and `InitDisplayPnl`: player 0
      is current and displayed, both players' events are subscribed, and no
      seek, swap or callback is pending. */
  function Init(): (s: State)
    ensures Valid(s) && s.Cur() == 0 && s.eventsAttached
    ensures !s.seekingCur && !s.seekingLoad && !s.waitSeekBeforeSwap
    ensures s.onFrameReady.None? && s.onSeekFinished.None? && s.onPlayFinished.None?
    ensures s.onFrameChanged.None? && s.frameListeners == []
  {
    State(0, false, false, false, 0.0, 0.0, None, None, None, None, [], true, 0)
  }

  /** `SwapPlayer`: close the outgoing current player, make the load player
      current and show it. The seek bookkeeping stays with the roles. */
  function Swap(s: State): (r: Step)
    requires Valid(s)
    ensures Valid(r.state)
    ensures r.state.Cur() == s.Load() && r.state.Load() == s.Cur()
    ensures r.trace == [Drive(s.Cur(), Call.Close)]
    ensures SameSeeking(s, r.state) && SameStage(s, r.state) && SameHost(s, r.state)
    ensures r.state.onFrameReady == s.onFrameReady
    ensures r.state.waitSeekBeforeSwap == s.waitSeekBeforeSwap
  {
    var playIdx := 1 - s.idx;
    Step(s.(idx := playIdx, display := playIdx), [Drive(s.idx, Call.Close)])
  }

  /** The open attempts of `OpenVideo` on one player: "Download/" + path in
      the persistent data folder, and only if the engine refuses that, the
      raw path in the streaming assets folder. */
  function OpenWithFallback(slot: int, path: string, primaryOpened: bool): (t: seq<Effect>)
    ensures 1 <= |t| <= 2
    ensures t[0] == Drive(slot, Call.Open(PersistentDataFolder, DownloadPrefix + path))
    ensures |t| == 2 <==> !primaryOpened
    ensures |t| == 2 ==> t[1] == Drive(slot, Call.Open(StreamingAssetsFolder, path))
  {
    var primary := Drive(slot, Call.Open(PersistentDataFolder, DownloadPrefix + path));
    if primaryOpened then [primary]
    else [primary, Drive(slot, Call.Open(StreamingAssetsFolder, path))]
  }

  /** `OpenVideo(path, callback, isLoadWaitSeek)`. When the current player
      can play, the video is preloaded into the load player and the swap is
      armed (immediately on first frame, or deferred to the next finished
      seek); otherwise it opens on the current player and nothing is swapped.
      `primaryOpened` is the engine's answer to the first open attempt. */
  function OpenVideo(s: State, engines: Engines, path: string, callback: Option<CallbackId>,
                     waitSeek: bool, primaryOpened: bool): (r: Step)
    requires Valid(s)
    ensures Valid(r.state) && r.state.Cur() == s.Cur()
    ensures r.trace == OpenWithFallback(if engines.At(s.Cur()).canPlay then s.Load() else s.Cur(),
                                        path, primaryOpened)
    ensures engines.At(s.Cur()).canPlay ==>
              && r.state.waitSeekBeforeSwap == waitSeek
              && r.state.onFrameReady == Some(PreloadReady(waitSeek, callback))
    ensures !engines.At(s.Cur()).canPlay ==>
              && !r.state.waitSeekBeforeSwap
              && r.state.onFrameReady == Some(DirectReady(callback))
    ensures SameSeeking(s, r.state) && SameStage(s, r.state) && SameHost(s, r.state)
  {
    if engines.At(s.idx).canPlay then
      var attempts := OpenWithFallback(1 - s.idx, path, primaryOpened);
      Step(s.(waitSeekBeforeSwap := waitSeek, onFrameReady := Some(PreloadReady(waitSeek, callback))), attempts)
    else
      var attempts := OpenWithFallback(s.idx, path, primaryOpened);
      Step(s.(waitSeekBeforeSwap := false, onFrameReady := Some(DirectReady(callback))), attempts)
  }

  /** `Seek(frame, player)`, `None` standing for the current player. A frame
      before the first or past the player's duration is ignored; otherwise
      the player seeks to the frame's start and the seek is recorded for the
      role that player plays, the other role's record untouched. */
  function Seek(s: State, engines: Engines, frame: int, player: Option<int>): (r: Step)
    requires Valid(s)
    requires player.Some? ==> IsSlot(player.value)
    ensures Valid(r.state)
    ensures var p := player.GetOr(s.Cur());
            if 1 <= frame && TimeOf(frame) <= engines.At(p).durationMs then
              && r.trace == [Drive(p, Call.Seek(TimeOf(frame)))]
              && r.state == (if p == s.Cur() then s.(seekingCur := true, seekTargetCur := TimeOf(frame))
                             else s.(seekingLoad := true, seekTargetLoad := TimeOf(frame)))
            else r == Step(s, [])
    ensures r.state.Cur() == s.Cur() && r.state.waitSeekBeforeSwap == s.waitSeekBeforeSwap
    ensures SameHost(s, r.state) && r.state.onFrameReady == s.onFrameReady
    ensures forall e | e in r.trace :: e.Drive?
  {
    var p := player.GetOr(s.idx);
    var targetTimeMs := TimeOf(frame);
    var videoLengthMs := engines.At(p).durationMs;
    if targetTimeMs < 0.0 || targetTimeMs > videoLengthMs then Step(s, [])
    else
      var cur := if p == s.idx then s.(seekingCur := true, seekTargetCur := targetTimeMs) else s;
      var load := if p == 1 - s.idx then cur.(seekingLoad := true, seekTargetLoad := targetTimeMs) else cur;
      Step(load, [Drive(p, Call.Seek(targetTimeMs))])
  }

  /** `Pause()`: pauses the current player and changes nothing else. */
  function Pause(s: State): (r: Step)
    requires Valid(s)
    ensures r.state == s
    ensures r.trace == [Drive(s.Cur(), Call.Pause)]
  {
    Step(s, [Drive(s.idx, Call.Pause)])
  }

  /** `Rewind()`: rewinds the current player and restarts it. */
  function Rewind(s: State): (r: Step)
    requires Valid(s)
    ensures r.state == s
    ensures r.trace == [Drive(s.Cur(), Call.Rewind), Drive(s.Cur(), Call.Play)]
  {
    Step(s, [Drive(s.idx, Call.Rewind), Drive(s.idx, Call.Play)])
  }

  /** `Play(isLoop)`: sets the current player's looping, then plays it. */
  function Play(s: State, loop: bool): (r: Step)
    requires Valid(s)
    ensures r.state == s
    ensures r.trace == [Drive(s.Cur(), Call.SetLooping(loop)), Drive(s.Cur(), Call.Play)]
  {
    Step(s, [Drive(s.idx, Call.SetLooping(loop)), Drive(s.idx, Call.Play)])
  }

  /** `PlayOneStage(startFrame, endFrame, isLoop, player, callback)`. The
      stage replaces whatever frame watch was installed. From frame 1 it
      rewinds, plays and watches at once (dropping any pending seek handler);
      otherwise it arms the seek handler, seeks to `startFrame` and plays,
      and the watch is installed only when the seek finishes. */
  function PlayOneStage(s: State, engines: Engines, startFrame: int, endFrame: int, loop: bool,
                        player: Option<int>, callback: Option<CallbackId>): (r: Step)
    requires Valid(s)
    requires player.Some? ==> IsSlot(player.value)
    ensures Valid(r.state) && r.state.Cur() == s.Cur()
    ensures var p := player.GetOr(s.Cur());
            var stage := Stage(startFrame, endFrame, loop, p, callback);
            if startFrame == 1 then
              && r.state.onFrameChanged == Some(stage)
              && r.state.onSeekFinished.None?
              && r.trace == [Drive(p, Call.Rewind), Drive(p, Call.Play)]
              && SameSeeking(s, r.state)
            else
              && r.state.onFrameChanged.None?
              && r.state.onSeekFinished == Some(stage)
              && r.trace == Seek(s, engines, startFrame, Some(p)).trace + [Drive(p, Call.Play)]
              && SameSeeking(Seek(s, engines, startFrame, Some(p)).state, r.state)
    ensures SameHost(s, r.state) && r.state.onFrameReady == s.onFrameReady
    ensures r.state.waitSeekBeforeSwap == s.waitSeekBeforeSwap
    ensures forall e | e in r.trace :: e.Drive?
  {
    var p := player.GetOr(s.idx);
    var stage := Stage(startFrame, endFrame, loop, p, callback);
    if startFrame == 1 then
      Step(s.(onFrameChanged := Some(stage), onSeekFinished := None), [Drive(p, Call.Rewind), Drive(p, Call.Play)])
    else
      // `Seek` touches only the seek bookkeeping, so arming the handler
      // before or after it is the same.
      var sought := Seek(s, engines, startFrame, Some(p));
      Step(sought.state.(onFrameChanged := None, onSeekFinished := Some(stage)), sought.trace + [Drive(p, Call.Play)])
  }

  /** The effect of invoking a stage's nullable end callback. */
  function StageEnded(callback: Option<CallbackId>): (t: seq<Effect>)
    ensures callback.None? <==> t == []
    ensures callback.Some? ==> t == [StageEndCallback(callback.value)]
  {
    match callback
    case None => []
    case Some(cb) => [StageEndCallback(cb)]
  }

  /** The stage watch installed in `onVideoFrameChanged`, run on one frame:
      once `frame` reaches `endFrame` it reports the end and, for a looping
      stage, starts the stage again. It does not remove itself, but a looping
      restart from a later frame goes through `PlayOneStage`, which clears the
      watch until the restart's seek finishes. */
  function RunStageWatch(s: State, engines: Engines, stage: Stage, frame: int): (r: Step)
    requires Valid(s) && IsSlot(stage.target)
    ensures Valid(r.state) && r.state.Cur() == s.Cur()
    ensures frame < stage.endFrame ==> r == Step(s, [])
    ensures frame >= stage.endFrame && !stage.loop ==> r == Step(s, StageEnded(stage.callback))
    ensures frame >= stage.endFrame && stage.loop ==>
              var again := PlayOneStage(s, engines, stage.startFrame, stage.endFrame, true,
                                        Some(stage.target), stage.callback);
              r == Step(again.state, StageEnded(stage.callback) + again.trace)
    ensures SameHost(s, r.state)
  {
    var frameSub := frame - stage.endFrame;
    if frameSub >= 0 then
      var ended := StageEnded(stage.callback);
      if stage.loop then
        var again := PlayOneStage(s, engines, stage.startFrame, stage.endFrame, true,
                                  Some(stage.target), stage.callback);
        Step(again.state, ended + again.trace)
      else Step(s, ended)
    else Step(s, [])
  }

  /** The seek-finished handler `PlayOneStage` installs, run for the player
      that reported the seek: a single-frame stage pauses that player; then
      the stage's frame watch is installed. */
  function RunStageSeek(s: State, stage: Stage, slot: int): (r: Step)
    requires Valid(s) && IsSlot(stage.target)
    ensures Valid(r.state)
    ensures r.state.onFrameChanged == Some(stage)
    ensures r.trace == if stage.startFrame == stage.endFrame then [Drive(slot, Call.Pause)] else []
    ensures r.state == s.(onFrameChanged := r.state.onFrameChanged)
  {
    var isLockFrame := stage.startFrame == stage.endFrame;
    var paused := if isLockFrame then [Drive(slot, Call.Pause)] else [];
    Step(s.(onFrameChanged := Some(stage)), paused)
  }

  /** The frame-ready handler installed by `OpenVideo`, run for the player
      that reported its first frame. */
  function RunReady(s: State, handler: ReadyHandler, slot: int): (r: Step)
    requires Valid(s)
    ensures Valid(r.state)
    ensures r.state.Cur() != s.Cur() <==> handler.PreloadReady? && !handler.waitSeek
    ensures r.trace == (if r.state.Cur() != s.Cur() then [Drive(s.Cur(), Call.Close)] else [])
                       + ReadyCallback(handler.callback, slot)
    ensures SameSeeking(s, r.state) && SameStage(s, r.state) && SameHost(s, r.state)
    ensures r.state.waitSeekBeforeSwap == s.waitSeekBeforeSwap
    ensures r.state.onFrameReady == s.onFrameReady
  {
    match handler
    case PreloadReady(waitSeek, callback) =>
      var swapped := if !waitSeek then Swap(s) else Step(s, []);
      Step(swapped.state, swapped.trace + ReadyCallback(callback, slot))
    case DirectReady(callback) =>
      Step(s, ReadyCallback(callback, slot))
  }

  /** FirstFrameReady from the player in `slot`: the frame-ready handler,
      if any, runs once and is dropped. */
  function FrameReady(s: State, slot: int): (r: Step)
    requires Valid(s) && IsSlot(slot)
    ensures Valid(r.state)
    ensures r.state.onFrameReady.None?
    ensures s.onFrameReady.None? ==> r == Step(s, [])
    ensures s.onFrameReady.Some? ==>
              var handler := s.onFrameReady.value;
              && (r.state.Cur() != s.Cur() <==> handler.PreloadReady? && !handler.waitSeek)
              && r.trace == (if r.state.Cur() != s.Cur() then [Drive(s.Cur(), Call.Close)] else [])
                            + ReadyCallback(handler.callback, slot)
    ensures SameSeeking(s, r.state) && SameStage(s, r.state) && SameHost(s, r.state)
    ensures r.state.waitSeekBeforeSwap == s.waitSeekBeforeSwap
  {
    if s.onFrameReady.Some? then
      var ran := RunReady(s, s.onFrameReady.value, slot);
      Step(ran.state.(onFrameReady := None), ran.trace)
    else Step(s, [])
  }

  /** The first step of FinishedSeeking: `isSeekingCur` is cleared if the
      reporting player is the current one, `isSeekingLoad` if it is the load
      one. */
  function ClearSeekFlag(s: State, slot: int): (t: State)
    requires Valid(s) && IsSlot(slot)
    ensures Valid(t)
    ensures t.seekingCur == (s.seekingCur && slot != s.Cur())
    ensures t.seekingLoad == (s.seekingLoad && slot != s.Load())
    ensures t == s.(seekingCur := t.seekingCur, seekingLoad := t.seekingLoad)
  {
    s.(seekingCur := if slot == s.idx then false else s.seekingCur,
       seekingLoad := if slot == 1 - s.idx then false else s.seekingLoad)
  }

  /** The second step of FinishedSeeking: an armed deferred swap is disarmed
      and performed. */
  function DeferredSwap(s: State): (r: Step)
    requires Valid(s)
    ensures Valid(r.state) && !r.state.waitSeekBeforeSwap
    ensures r.state.Cur() != s.Cur() <==> s.waitSeekBeforeSwap
    ensures r.trace == if s.waitSeekBeforeSwap then [Drive(s.Cur(), Call.Close)] else []
    ensures SameSeeking(s, r.state) && SameStage(s, r.state) && SameHost(s, r.state)
    ensures r.state.onFrameReady == s.onFrameReady
  {
    if s.waitSeekBeforeSwap then Swap(s.(waitSeekBeforeSwap := false)) else Step(s, [])
  }

  /** The last step of FinishedSeeking: the seek-finished handler, if any,
      runs for the reporting player and is dropped. */
  function RunSeekHandler(s: State, slot: int): (r: Step)
    requires Valid(s)
    ensures Valid(r.state) && r.state.onSeekFinished.None?
    ensures r.state.onFrameChanged == if s.onSeekFinished.Some? then s.onSeekFinished else s.onFrameChanged
    ensures r.trace == if s.onSeekFinished.Some? && s.onSeekFinished.value.startFrame == s.onSeekFinished.value.endFrame
                       then [Drive(slot, Call.Pause)] else []
    ensures r.state == s.(onSeekFinished := None, onFrameChanged := r.state.onFrameChanged)
  {
    if s.onSeekFinished.Some? then
      var ran := RunStageSeek(s, s.onSeekFinished.value, slot);
      Step(ran.state.(onSeekFinished := None), ran.trace)
    else Step(s, [])
  }

  /** FinishedSeeking from the player in `slot` (native or synthetic): the
      seek flag of the role that player plays is cleared, an armed deferred
      swap is disarmed and performed, and the seek-finished handler, if any,
      runs once (for the reporting player) and is dropped. */
  function SeekFinished(s: State, slot: int): (r: Step)
    requires Valid(s) && IsSlot(slot)
    ensures Valid(r.state)
    ensures r.state.seekingCur == (s.seekingCur && slot != s.Cur())
    ensures r.state.seekingLoad == (s.seekingLoad && slot != s.Load())
    ensures r.state.seekTargetCur == s.seekTargetCur && r.state.seekTargetLoad == s.seekTargetLoad
    ensures !r.state.waitSeekBeforeSwap
    ensures r.state.Cur() != s.Cur() <==> s.waitSeekBeforeSwap
    ensures r.state.onSeekFinished.None?
    ensures r.state.onFrameChanged == if s.onSeekFinished.Some? then s.onSeekFinished else s.onFrameChanged
    ensures r.trace == (if s.waitSeekBeforeSwap then [Drive(s.Cur(), Call.Close)] else [])
                       + (if s.onSeekFinished.Some? && s.onSeekFinished.value.startFrame == s.onSeekFinished.value.endFrame
                          then [Drive(slot, Call.Pause)] else [])
    ensures r.state.onFrameReady == s.onFrameReady && SameHost(s, r.state)
  {
    var cleared := ClearSeekFlag(s, slot);
    var swapped := DeferredSwap(cleared);
    var handled := RunSeekHandler(swapped.state, slot);
    Step(handled.state, swapped.trace + handled.trace)
  }

  /** FinishedPlaying: the play-finished callback, if any, is called once
      and dropped; nothing else changes. */
  function PlayFinished(s: State): (r: Step)
    requires Valid(s)
    ensures Valid(r.state)
    ensures r.state == s.(onPlayFinished := None)
    ensures s.onPlayFinished.None? <==> r.trace == []
    ensures s.onPlayFinished.Some? ==> r.trace == [PlayFinishedCallback(s.onPlayFinished.value)]
  {
    if s.onPlayFinished.Some? then
      Step(s.(onPlayFinished := None), [PlayFinishedCallback(s.onPlayFinished.value)])
    else Step(s, [])
  }

  /** `OnPlayerEvents(player, eventType)` for the player in `slot`; event
      types other than the three it handles change nothing. */
  function OnPlayerEvent(s: State, slot: int, event: Event): (r: Step)
    requires Valid(s) && IsSlot(slot)
    ensures Valid(r.state)
    ensures event.OtherEvent? ==> r == Step(s, [])
  {
    match event
    case FirstFrameReady => FrameReady(s, slot)
    case FinishedSeeking => SeekFinished(s, slot)
    case FinishedPlaying => PlayFinished(s)
    case OtherEvent => Step(s, [])
  }

  /** An event raised by the engine of `slot`: it reaches `OnPlayerEvents`
      only while the controller is subscribed to the players' events. */
  function EngineEvent(s: State, slot: int, event: Event): (r: Step)
    requires Valid(s) && IsSlot(slot)
    ensures Valid(r.state)
    ensures !s.eventsAttached ==> r == Step(s, [])
    ensures s.eventsAttached ==> r == OnPlayerEvent(s, slot, event)
  {
    if s.eventsAttached then OnPlayerEvent(s, slot, event) else Step(s, [])
  }

  /** One notification per subscribed listener, in subscription order. */
  function Notify(listeners: seq<ListenerId>, frame: int): (t: seq<Effect>)
    ensures |t| == |listeners|
    ensures forall i :: 0 <= i < |t| ==> t[i] == FrameNotified(listeners[i], frame)
  {
    seq(|listeners|, i requires 0 <= i < |listeners| => FrameNotified(listeners[i], frame))
  }

  /** The first half of `Update`: while the current player is playing, its
      frame number goes to the stage watch and then to every frame listener.
      The source polls the position once for each; the model has one
      observation per tick, so both see the same position. */
  function PublishFrame(s: State, engines: Engines): (r: Step)
    requires Valid(s)
    ensures Valid(r.state) && r.state.Cur() == s.Cur()
    ensures !engines.At(s.Cur()).playing ==> r == Step(s, [])
    ensures engines.At(s.Cur()).playing ==>
              var frame := FrameOf(engines.At(s.Cur()).timeMs);
              var watched := if s.onFrameChanged.Some? then RunStageWatch(s, engines, s.onFrameChanged.value, frame)
                             else Step(s, []);
              r == Step(watched.state, watched.trace + Notify(s.frameListeners, frame))
    ensures SameHost(s, r.state)
  {
    if engines.At(s.idx).playing then
      var watched :=
        if s.onFrameChanged.Some? then
          var frame := FrameOf(engines.At(s.idx).timeMs);
          RunStageWatch(s, engines, s.onFrameChanged.value, frame)
        else Step(s, []);
      var after := watched.state;
      var notified :=
        if after.frameListeners != [] then
          var frame := FrameOf(engines.At(after.idx).timeMs);
          Notify(after.frameListeners, frame)
        else [];
      Step(after, watched.trace + notified)
    else Step(s, [])
  }

  /** Whether a polled position lies strictly within the tolerance of a
      seek target. */
  predicate Near(timeMs: real, targetMs: real): (near: bool)
    ensures near <==> targetMs - SeekToleranceMs < timeMs < targetMs + SeekToleranceMs
  {
    Abs(timeMs - targetMs) < SeekToleranceMs
  }

  /** The watchdog step, with whether it raised the synthetic FinishedSeeking
      for the current role and for the load role. */
  datatype WatchStep = WatchStep(state: State, trace: seq<Effect>, firedCur: bool, firedLoad: bool)

  /** The second half of `Update`: the seek watchdog. For the current role
      and then the load role (read after a swap the first may have done), a
      pending seek whose player's position is near the target is finished by
      a synthetic FinishedSeeking for that role's player. */
  function Watchdog(s: State, engines: Engines): (r: WatchStep)
    requires Valid(s)
    ensures Valid(r.state)
    ensures r.firedCur <==> s.seekingCur && Near(engines.At(s.Cur()).timeMs, s.seekTargetCur)
    ensures !r.firedCur ==>
              (r.firedLoad <==> s.seekingLoad && Near(engines.At(s.Load()).timeMs, s.seekTargetLoad))
    ensures r.firedCur ==> !r.state.seekingCur
    ensures r.firedLoad ==> s.seekingLoad && !r.state.seekingLoad
    ensures var a := if r.firedCur then SeekFinished(s, s.Cur()) else Step(s, []);
            && (r.firedLoad <==> a.state.seekingLoad && Near(engines.At(a.state.Load()).timeMs, a.state.seekTargetLoad))
            && var b := if r.firedLoad then SeekFinished(a.state, a.state.Load()) else Step(a.state, []);
               r.state == b.state && r.trace == a.trace + b.trace
    ensures !r.firedCur && !r.firedLoad ==> r.state == s && r.trace == []
    ensures r.state.seekTargetCur == s.seekTargetCur && r.state.seekTargetLoad == s.seekTargetLoad
    ensures SameHost(s, r.state)
  {
    var firedCur := s.seekingCur && Near(engines.At(s.idx).timeMs, s.seekTargetCur);
    var a := if firedCur then SeekFinished(s, s.idx) else Step(s, []);
    var t := a.state;
    var firedLoad := t.seekingLoad && Near(engines.At(1 - t.idx).timeMs, t.seekTargetLoad);
    var b := if firedLoad then SeekFinished(t, 1 - t.idx) else Step(t, []);
    WatchStep(b.state, a.trace + b.trace, firedCur, firedLoad)
  }

  /** `Update`: publish the frame, then run the seek watchdog. */
  function Tick(s: State, engines: Engines): (r: Step)
    requires Valid(s)
    ensures Valid(r.state)
    ensures !engines.At(s.Cur()).playing && !s.seekingCur && !s.seekingLoad ==> r == Step(s, [])
    ensures SameHost(s, r.state)
  {
    var published := PublishFrame(s, engines);
    var watched := Watchdog(published.state, engines);
    Step(watched.state, published.trace + watched.trace)
  }

  /** The detach call of `CloseVideo(true)` for one player, if asked for. */
  function Detach(slot: int, removeListeners: bool): (t: seq<Effect>)
    ensures removeListeners <==> t == [Drive(slot, Call.RemoveAllListeners)]
    ensures !removeListeners <==> t == []
  {
    if removeListeners then [Drive(slot, Call.RemoveAllListeners)] else []
  }

  /** `CloseVideo(isRemoveListener)`: forget both seeks and the deferred
      swap, make player 0 current and displayed, close both players (player
      0 first) and optionally unsubscribe from their events. The one-shot
      handlers, the stage watch and the frame listeners are kept. */
  function CloseVideo(s: State, removeListeners: bool): (r: Step)
    requires Valid(s)
    ensures Valid(r.state) && r.state.Cur() == 0
    ensures !r.state.seekingCur && !r.state.seekingLoad && !r.state.waitSeekBeforeSwap
    ensures r.state.eventsAttached == (s.eventsAttached && !removeListeners)
    ensures r.trace == [Drive(0, Call.ClosePlayer)] + Detach(0, removeListeners) + [Drive(1, Call.ClosePlayer)] + Detach(1, removeListeners)
    ensures r.state.seekTargetCur == s.seekTargetCur && r.state.seekTargetLoad == s.seekTargetLoad
    ensures SameStage(s, r.state) && r.state.onFrameReady == s.onFrameReady
    ensures r.state.onPlayFinished == s.onPlayFinished && r.state.frameListeners == s.frameListeners
  {
    var reset := s.(seekingCur := false, seekingLoad := false, idx := 0, waitSeekBeforeSwap := false);
    var closed := [Drive(0, Call.ClosePlayer)] + Detach(0, removeListeners) + [Drive(1, Call.ClosePlayer)] + Detach(1, removeListeners);
    Step(reset.(display := reset.idx, eventsAttached := s.eventsAttached && !removeListeners), closed)
  }

  /** `Release()`: `CloseVideo(true)`; destroying the canvas is not modelled. */
  function Release(s: State): (r: Step)
    requires Valid(s)
    ensures Valid(r.state) && r.state.Cur() == 0 && !r.state.eventsAttached
    ensures forall slot | IsSlot(slot) :: Drive(slot, Call.ClosePlayer) in r.trace && Drive(slot, Call.RemoveAllListeners) in r.trace
    ensures r.trace == [Drive(0, Call.ClosePlayer), Drive(0, Call.RemoveAllListeners),
                        Drive(1, Call.ClosePlayer), Drive(1, Call.RemoveAllListeners)]
    ensures !r.state.seekingCur && !r.state.seekingLoad && !r.state.waitSeekBeforeSwap
    ensures r.state.seekTargetCur == s.seekTargetCur && r.state.seekTargetLoad == s.seekTargetLoad
    ensures SameStage(s, r.state) && r.state.onFrameReady == s.onFrameReady
    ensures r.state.onPlayFinished == s.onPlayFinished && r.state.frameListeners == s.frameListeners
  {
    var closed := CloseVideo(s, true);
    assert closed.trace == [Drive(0, Call.ClosePlayer), Drive(0, Call.RemoveAllListeners), Drive(1, Call.ClosePlayer), Drive(1, Call.RemoveAllListeners)];
    closed
  }

  /** `AddFrameEventListener(cb)`. */
  function AddFrameEventListener(s: State, listener: ListenerId): (r: Step)
    requires Valid(s)
    ensures Valid(r.state) && r.trace == []
    ensures r.state.frameListeners == Subscribe(s.frameListeners, listener)
    ensures r.state == s.(frameListeners := r.state.frameListeners)
  {
    Step(s.(frameListeners := Subscribe(s.frameListeners, listener)), [])
  }

  /** `RemoveFrameEventListener(cb, isRemoveAll)`: drop every listener, or
      the last subscription of `cb`. */
  function RemoveFrameEventListener(s: State, listener: ListenerId, removeAll: bool): (r: Step)
    requires Valid(s)
    ensures Valid(r.state) && r.trace == []
    ensures removeAll ==> r.state.frameListeners == []
    ensures !removeAll ==> r.state.frameListeners == Unsubscribe(s.frameListeners, listener)
    ensures r.state == s.(frameListeners := r.state.frameListeners)
  {
    if removeAll then Step(s.(frameListeners := []), [])
    else Step(s.(frameListeners := Unsubscribe(s.frameListeners, listener)), [])
  }

  /** The host's assignment of the public `onVideoPlayFinished` field, which
      nothing inside the controller writes. */
  function SetPlayFinished(s: State, callback: CallbackId): (r: Step)
    requires Valid(s)
    ensures Valid(r.state) && r.trace == []
    ensures r.state == s.(onPlayFinished := Some(callback))
  {
    Step(s.(onPlayFinished := Some(callback)), [])
  }
}
