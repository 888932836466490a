# UIMediaPlayer double-buffered playback controller, in Dafny

This project models the playback controller of `UIMediaPlayer` (AVProVideoDemo,
namespace `Soccer`). The controller owns two AVProVideo `MediaPlayer`s. One is
the *current* player, the one shown. The other is the *load* player, where the
next video is preloaded and positioned before the two are swapped, so that a
new video appears without a stall.

The model is a functional state machine:

- `Controller.State` holds the controller's fields:
  - the active index `curMediaPlayerIdx`;
  - the deferred-swap flag `isLoadWaitSeekFinish`;
  - a seek flag and a seek target per role (current / load);
  - the three one-shot callback slots (frame ready, seek finished, play finished);
  - the frame-change watch;
  - the frame-listener list;
  - whether engine events are subscribed;
  - which player the display surface is bound to.
- The closures the source stores in the callback slots are defunctionalised:
  - `ReadyHandler` is `PreloadReady(waitSeek, callback)` or `DirectReady(callback)`;
  - a `Stage` record stands for the seek-finished handler and the frame watch that `PlayOneStage` installs.
- Every public method, engine event and `Update` tick is a pure function. It
  returns a `Step`: the next state plus a trace of effects.
- There are two kinds of effect:
  - engine calls on a physical slot (`Open`, `Close` for `Control.CloseVideo()`, `ClosePlayer` for `MediaPlayer.CloseVideo()`, `Seek`, `Play`, `Pause`, `Rewind`, `SetLooping`, `RemoveAllListeners`);
  - invocations of host callbacks and frame listeners, identified by opaque ids.
- What the engines report is an *input* to each transition (`Engine.Engines`).
  For each player that is `CanPlay()`, `IsPlaying()`, the current time and the
  duration. `OpenVideo` also takes whether the first open attempt succeeded.
- `FrameClock` holds the 24 fps frame/time conversion, with C#'s truncating
  `(int)` cast written out. `FrameListeners` holds the multicast-delegate list
  behind `AddFrameEventListener` / `RemoveFrameEventListener`.
- `ControllerProperties` proves properties that span several transitions. It
  also proves that every state reachable from `Init` keeps the invariant
  `Controller.Valid`: the active index is 0 or 1 and the display shows the
  current player.

The model follows the code, including where its behaviour is less obvious
than the method names suggest:

- A stage's end callback fires on every playing tick while the frame is at or
  past the end frame, not once. The frame watch is not cleared when it fires
  (`StageEndRepeatsEveryTick`). The exception is a looping stage that starts
  after frame 1: its restart goes through `PlayOneStage`, which drops the watch
  until the restart's seek finishes.
- A player counts as loaded when it reports `CanPlay()`, not after a first frame.
- `CloseVideo` also resets the active index; swapping is not the only writer.
- The frame-ready callback receives the player that reported the first frame.
- The deferred-swap flag is armed when `OpenVideo` is called. So any finished
  seek before the load player's first frame already swaps (`DeferredSwapArmedAtOpen`).
- The seek flags belong to the roles, and a swap does not exchange them. The
  watchdog checks the load role after a swap the current role's completion may
  already have made (`LoadCheckFollowsSwap`).
- After `Release`, a tick is a no-op only while the engines report that the
  current player is not playing (`ReleasedControllerIsQuiet`).

## Model

| member | source | states |
|---|---|---|
| FrameClock.Truncate | UIMediaPlayer.cs:114 | the `(int)` cast truncates toward zero: floor for non-negative values, ceiling for negative ones |
| FrameClock.FrameOf | UIMediaPlayer.cs:113-114 | the frame number of a non-negative time is at least 1, and it is the frame whose interval [TimeOf(f), TimeOf(f+1)) contains the time |
| FrameClock.TimeOf | UIMediaPlayer.cs:301-303 | the seek target of a frame is non-negative exactly for frames 1, 2, 3, ... |
| FrameClock.FrameOfTimeOf | UIMediaPlayer.cs:301-303 | over exact arithmetic, the frame at a frame's seek target is that frame |
| FrameClock.FrameReached | UIMediaPlayer.cs:357-358 | the frame number has reached `end` exactly when the time is at or past TimeOf(end) |
| FrameClock.FrameOfMonotone | UIMediaPlayer.cs:113-114 | frame numbers never decrease as time advances |
| FrameClock.TimeOfMonotone | UIMediaPlayer.cs:301-303 | seek targets grow with the frame number, by at least one frame length per frame |
| FrameListeners.Subscribe | UIMediaPlayer.cs:467-470 | `+=` appends the handler after the existing subscriptions, which are kept in order |
| FrameListeners.LastIndex | UIMediaPlayer.cs:484 | the position found holds the handler, and no later position does |
| FrameListeners.Unsubscribe | UIMediaPlayer.cs:476-486 | `-=` leaves the list unchanged when the handler is absent, and otherwise deletes exactly its last occurrence, keeping the order of the rest |
| FrameListeners.UnsubscribeRemovesOne | UIMediaPlayer.cs:484 | unsubscribing removes one copy of the handler (if any) and keeps every other subscription |
| FrameListeners.SubscribeUnsubscribe | UIMediaPlayer.cs:467-486 | subscribing and then unsubscribing the same handler restores the list |
| Base.Abs | UIMediaPlayer.cs:130 | `Mathf.Abs` is non-negative and equals the value or its negation |
| Controller.Valid | UIMediaPlayer.cs:27-43 | the controller invariant: the active index selects one of the two players, the display shows it, and every stage handler targets one of the two; under it the accessors `CurMediaPlayer` and `LoadMediaPlayer` (`State.Cur`, `State.Load`) name distinct slots and are never null |
| Controller.ReadyCallback | UIMediaPlayer.cs:276-277 | a null callback is skipped; otherwise it is invoked once with the reporting player |
| Controller.Init | UIMediaPlayer.cs:152-164 | initially player 0 is current and displayed, events are subscribed, and no seek, swap or callback is pending |
| Controller.Swap | UIMediaPlayer.cs:243-250 | the roles exchange, only the outgoing current player is closed, the display follows the new current player, and the seek flags stay with the roles |
| Controller.OpenWithFallback | UIMediaPlayer.cs:264-267 | the first open tries "Download/"+path in the persistent data folder; the raw path in streaming assets is tried exactly when the first is refused |
| Controller.OpenVideo | UIMediaPlayer.cs:260-296 | a player that can play keeps playing: the video opens on the load player, the deferred flag is set to `isLoadWaitSeek`, and a preload handler is armed; otherwise it opens on the current player with the deferred flag cleared; the index is not changed; a later call overwrites the handler |
| Controller.Seek | UIMediaPlayer.cs:298-322 | a frame below 1, or one whose target is past the duration, changes nothing; otherwise the engine seeks and only the matching role's flag and target are set |
| Controller.Pause | UIMediaPlayer.cs:324-327 | pauses the current player and changes no state |
| Controller.Rewind | UIMediaPlayer.cs:329-333 | rewinds and replays the current player and changes no state |
| Controller.Play | UIMediaPlayer.cs:335-339 | sets looping on the current player, then plays it, and changes no state |
| Controller.PlayOneStage | UIMediaPlayer.cs:349-398 | from frame 1: rewind, play, watch, and drop the seek handler; otherwise arm the stage's seek handler, clear the watch, seek and play, with the seek flag and target of the target player's role set exactly as `Seek` sets them; the frame-ready handler, the deferred flag and the current index are kept |
| Controller.StageEnded | UIMediaPlayer.cs:360-363 | a null stage callback is skipped; otherwise it is invoked once |
| Controller.RunStageWatch | UIMediaPlayer.cs:355-370 | before the end frame nothing happens; at or past it the end is reported, and a looping stage starts again from the target player; a non-looping stage, or a looping one from frame 1, keeps its watch, while a looping one from a later frame drops it until its restart's seek finishes |
| Controller.RunStageSeek | UIMediaPlayer.cs:382-391 | on seek completion a single-frame stage pauses the reporting player; in every case the stage watch is then installed |
| Controller.RunReady | UIMediaPlayer.cs:271-294 | the frame-ready handler swaps exactly when it is a preload handler not waiting for a seek, then calls the host back with the reporting player |
| Controller.FrameReady | UIMediaPlayer.cs:204-213 | FirstFrameReady runs the frame-ready handler at most once and drops it; with no handler nothing happens |
| Controller.ClearSeekFlag | UIMediaPlayer.cs:217-218 | only the flag of the role the reporting player plays is cleared |
| Controller.DeferredSwap | UIMediaPlayer.cs:220-224 | a swap happens exactly when the deferred flag was set, and the flag ends cleared |
| Controller.RunSeekHandler | UIMediaPlayer.cs:226-230 | the seek-finished handler runs for the reporting player and is dropped |
| Controller.SeekFinished | UIMediaPlayer.cs:215-231 | FinishedSeeking clears the reporting role's flag, swaps exactly when the deferred flag was set, and consumes the seek handler; targets are kept |
| Controller.PlayFinished | UIMediaPlayer.cs:233-240 | FinishedPlaying calls the play-finished callback at most once and changes nothing else |
| Controller.OnPlayerEvent | UIMediaPlayer.cs:202-241 | event types other than FirstFrameReady, FinishedSeeking and FinishedPlaying change nothing |
| Controller.EngineEvent | UIMediaPlayer.cs:161 | engine events reach the controller only while it is subscribed |
| Controller.Notify | UIMediaPlayer.cs:119-125 | every subscribed listener is notified once, in subscription order, with the same frame number |
| Controller.PublishFrame | UIMediaPlayer.cs:109-126 | nothing happens unless the current player is playing; the stage watch and the listeners all get the current player's frame |
| Controller.Watchdog | UIMediaPlayer.cs:128-142 | a role fires only while its flag is set and the position is strictly within 40 ms of the target; a firing is a full FinishedSeeking for that role's player (flag cleared, deferred swap, seek handler run), the current role first and the load role read after it; no firing means no change |
| Controller.Near | UIMediaPlayer.cs:130 | the seek test is strict: the position lies in the open interval of 40 ms either side of the target |
| Controller.Tick | UIMediaPlayer.cs:107-144 | a tick with the current player stopped and no seek pending changes nothing |
| Controller.Detach | UIMediaPlayer.cs:455-457 | the player's event listeners are removed exactly when asked for |
| Controller.CloseVideo | UIMediaPlayer.cs:445-461 | both seek flags and the deferred flag are cleared, player 0 becomes current and displayed, both players are closed (and unsubscribed on request); callbacks and listeners are kept |
| Controller.Release | UIMediaPlayer.cs:434-440 | releasing closes and unsubscribes both players (player 0 first) and does nothing else, clears both seek flags and the deferred flag, leaves player 0 current, and keeps callbacks, listeners and stage handlers |
| Controller.AddFrameEventListener | UIMediaPlayer.cs:467-470 | adding appends the listener and changes nothing else |
| Controller.RemoveFrameEventListener | UIMediaPlayer.cs:476-486 | remove-all empties the list; otherwise the last subscription of the handler goes; nothing else changes |
| Controller.SetPlayFinished | UIMediaPlayer.cs:95 | the host's assignment fills the play-finished slot and nothing else |
| ControllerProperties.SwapTwiceRestores | UIMediaPlayer.cs:243-250 | two swaps restore the controller, closing the current player and then the other one |
| ControllerProperties.PreloadSwapsOnFirstFrame | UIMediaPlayer.cs:262-278 | a preload without a wait only touches the load player; its first frame swaps once and closes the old current player before the callback; a second first frame changes nothing |
| ControllerProperties.DeferredSwapWaitsForSeek | UIMediaPlayer.cs:269-274 | with a wait, the first frame calls back without swapping, and the next finished seek swaps |
| ControllerProperties.DeferredSwapArmedAtOpen | UIMediaPlayer.cs:269 | a finished seek before the load player's first frame already swaps, and that first frame does not swap again |
| ControllerProperties.DirectOpenTwice | UIMediaPlayer.cs:281-295 | with nothing playable, two opens both use the current player, and only the second callback remains, with no swap |
| ControllerProperties.SeekFinishedTwiceIsQuiet | UIMediaPlayer.cs:215-231 | a duplicate FinishedSeeking neither swaps nor invokes anything |
| ControllerProperties.FrameReadyTwiceIsQuiet | UIMediaPlayer.cs:204-210 | the frame-ready handler fires at most once |
| ControllerProperties.PlayFinishedTwiceIsQuiet | UIMediaPlayer.cs:233-239 | the play-finished callback fires at most once |
| ControllerProperties.ConvergedSeekFinishesInTick | UIMediaPlayer.cs:128-134 | with the current player stopped, a converged seek of the current role is completed by the next tick: its handler runs and is dropped, and the deferred swap happens, closing the old current player first, exactly when it was armed |
| ControllerProperties.NearTargetShowsAdjacentFrame | UIMediaPlayer.cs:128-133 | the 40 ms tolerance (about one frame) is tight enough: a position accepted as near the seek target of a frame shows that frame, or at worst the one before it when the position falls short of the target |
| ControllerProperties.WatchdogFiresOncePerSeek | UIMediaPlayer.cs:128-142 | after the watchdog has fired for a role, it does not fire for that role again before a new seek |
| ControllerProperties.SeekThenConvergeFiresOnce | UIMediaPlayer.cs:128-134 | a valid seek on the current player whose position lands within tolerance is finished by exactly one synthetic FinishedSeeking |
| ControllerProperties.LoadCheckFollowsSwap | UIMediaPlayer.cs:136-142 | when the current-role completion swapped, the load target is compared with the position of the player that was current before the swap |
| ControllerProperties.LockedStagePausesOnSeek | UIMediaPlayer.cs:380-396 | a single-frame stage seeks and plays, then on seek completion pauses its player and installs the watch |
| ControllerProperties.PlayOneStageReplacesHandlers | UIMediaPlayer.cs:351-353 | the stage handlers after `PlayOneStage` do not depend on earlier ones, so none accumulate |
| ControllerProperties.ListenersSeeCurrentFrame | UIMediaPlayer.cs:109-126 | on a playing tick every listener is told the current player's frame, in subscription order, after the stage watch |
| ControllerProperties.WatchTraceHasNoNotification | UIMediaPlayer.cs:355-370 | running the stage watch never notifies frame listeners |
| ControllerProperties.StageEndIffReached | UIMediaPlayer.cs:355-369 | on a playing tick the stage end is reported exactly when the current player's time is at or past the end frame's start |
| ControllerProperties.StageEndRepeatsEveryTick | UIMediaPlayer.cs:111-117 | a non-looping stage past its end keeps its watch and reports the end again on any later playing tick still at or past the end frame |
| ControllerProperties.LoopingStageRestarts | UIMediaPlayer.cs:365-377 | a looping stage from frame 1 reports its end, then rewinds and replays its player, and keeps watching |
| ControllerProperties.LoopingSeekStageRearms | UIMediaPlayer.cs:353-396 | a looping stage from a later frame reports its end, drops its watch and re-arms itself as the seek handler, ending with a play of its player |
| ControllerProperties.ReleasedControllerIsQuiet | UIMediaPlayer.cs:434-461 | after release, engine events are ignored, and a tick with the players stopped does nothing |
| ControllerProperties.Run | UIMediaPlayer.cs:28-43 | over any sequence of operations the active index stays 0 or 1, the display shows the current player, and an unsubscribed controller never resubscribes |
| ControllerProperties.AppliedStaysDetached | UIMediaPlayer.cs:455-457 | no operation subscribes engine events again once they were removed |
| ControllerProperties.ReachableStatesAreValid | UIMediaPlayer.cs:163 | starting from initialisation, the active index is always 0 or 1 and the display shows the current player |

## Left out

- Display and canvas plumbing is reduced to one `display` field, the slot the surface shows. This covers `InitDisplayPnl`, `ResetDisplayPnl`, `SetDisplayPnl`, `SetDisplayPnlActive`, `SetCamera`, `SetDisplayCanvasRenderMode`, `DefaultTexture`, the canvas layer and alpha packing.
- Engine object management is not modelled: `AddComponent`, the players' autostart settings, `Destroy` in `Release`, and the MonoBehaviour hooks `Start` and `OnDestroy`. The model starts after `InitMediaPlayers`. Only the event subscription is kept, as a boolean.
- The `Control != null` guards in `Update` and `OpenVideo` are taken as true, and so is `mediaPlayers != null`. A controller used before initialisation would throw `NullReferenceException`; that case is not modelled.
- AVProVideo itself is left out: decoding, path resolution, event timing, and what an engine call does to the engine. The engine's answers are inputs. They are assumed constant during one tick.
- Host callbacks and frame listeners are opaque ids; calling one is a trace effect. Anything a callback does to the controller in turn (re-entrant calls) is not modelled.
- Only the in-file writers of the public fields are modelled: `onVideoFrameReady`, `onVideoSeekFinished` and `onVideoFrameChanged`. Host code assigning those fields directly is not. `onVideoPlayFinished` has no in-file writer, so the host's assignment is modelled by `SetPlayFinished`.
- A `null` handler passed to `AddFrameEventListener` / `RemoveFrameEventListener` is not modelled. Neither is a multicast delegate passed as one handler.
- Host callbacks and frame listeners are assumed to return normally. The source invokes each one-shot handler before clearing its slot (lines 208-209, 228-229, 237-238), so a throwing callback would leave the slot armed, and a throw inside the watchdog's synthetic event (line 132) would skip the rest of that `Update`, including the load-role check. The at-most-once lemmas (`FrameReadyTwiceIsQuiet`, `SeekFinishedTwiceIsQuiet`, `PlayFinishedTwiceIsQuiet`, `WatchdogFiresOncePerSeek`) hold only for callbacks that return. Exceptions are outside the functional model, whose transitions always complete.
- C# `int` arithmetic is modelled as unbounded. The 32-bit wrap-around of `frame - endFrame` (line 357) and of `frame - 1` (line 303) is not modelled; it matters only for frame numbers near the `int` limits, for example an end frame of -2147483648, where the source's subtraction wraps and no end is reported while the model reports one.
- The event's `ErrorCode` is ignored, as it is in the source.
- IEEE single-precision arithmetic is not modelled. Times are exact reals, so `FrameOfTimeOf` and the 40 ms tolerance hold over exact arithmetic only. An `(int)` cast of a value outside the 32-bit range is not modelled.
- ControllerProperties.ListenersSeeCurrentFrame: the source polls the current player's position twice per tick, once for the stage watch and once for the listeners, and the stage watch may rewind, play or seek that player in between. The model has one observation per tick, so the agreement of the two frame numbers is a property of the model, not a promise of the source.
- ControllerProperties.LoadCheckFollowsSwap: the load role's position is taken from the same per-tick observation, i.e. from before the deferred swap closes the old current player; the source polls it after that close.
- Controller.Seek: the player argument is limited to the two owned players. The source accepts any `MediaPlayer`, and for a foreign one it seeks that player without setting either role's flag; that case is not modelled. The same holds for the player argument of Controller.PlayOneStage.
- Controller.Tick: its contract states only the invariant and the quiet case. What a tick does is stated by `PublishFrame` and `Watchdog`, which it runs in that order.
- Controller.OnPlayerEvent: its contract states only the invariant and the no-op for other event types. It dispatches to `FrameReady`, `SeekFinished` and `PlayFinished`, whose contracts carry the behaviour.
