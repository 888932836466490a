/** The AVProVideo playback engine as the controller sees it: what it can be
    asked to do (calls recorded in a trace), what it reports when polled, and
    the events it raises. Decoding, file resolution and event timing are not
    modelled; their outcomes are inputs. */
module Engine {

  /** Where `OpenVideoFromFile` resolves a path. */
  datatype Location = PersistentDataFolder | StreamingAssetsFolder

  /** One call the controller makes on a player. `Close` is the engine
      control's `Control.CloseVideo()`; `ClosePlayer` is the component's own
      `MediaPlayer.CloseVideo()`, a different entry point of the library. */
  datatype Call =
    | Open(location: Location, path: string)
    | Close
    | ClosePlayer
    | Seek(timeMs: real)
    | Play
    | Pause
    | Rewind
    | SetLooping(loop: bool)
    | RemoveAllListeners

  /** What one player reports when polled: `CanPlay()`, `IsPlaying()`,
      `GetCurrentTimeMs()` and `Info.GetDurationMs()`. */
  datatype Player = Player(canPlay: bool, playing: bool, timeMs: real, durationMs: real)

  /** The two players, indexed by physical slot 0 or 1 (`mediaPlayers[i]`). */
  datatype Engines = Engines(first: Player, second: Player) {
    function At(slot: int): Player {
      if slot == 0 then first else second
    }
  }

  /** The `MediaPlayerEvent.EventType` values the controller distinguishes;
      every other event type is `OtherEvent`. */
  datatype Event = FirstFrameReady | FinishedSeeking | FinishedPlaying | OtherEvent

  /** The folder prefix of the primary (downloaded content) location. */
  const DownloadPrefix: string := "Download/"
}
