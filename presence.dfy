/**
 * What the two presence scripts share: the payload handed to the presence
 * client, the calls a tick makes, the two-character padding the remote side
 * needs, and the computation of the playback start time.
 */
module Presence {

  /** The fields of `rpc.update(...)`. `start` is in whole seconds since the epoch. */
  datatype Payload = Payload(
    details: string, state: string, start: int,
    largeImage: string, smallImage: string, largeText: string, smallText: string)

  /**
   * What one tick of the polling loop does to the presence client: nothing,
   * `rpc.clear()`, `rpc.update(...)`, or the IndexError that parsing a title
   * without " - " raises, which ends the loop and the process.
   */
  datatype Action = NoCall | Clear | Update(payload: Payload) | Crash

  const TrackPrefix := "Track: "
  const AlbumPrefix := "Album: "

  /** A string shorter than 2 characters gets `prefix` in front, as the remote side rejects such strings. */
  function Padded(prefix: string, s: string): (r: string)
    requires |prefix| >= 2
    ensures |r| >= 2 && |r| >= |s|
    ensures r[|r| - |s|..] == s
    ensures r == s <==> |s| >= 2
    ensures |s| < 2 ==> r == prefix + s
  {
    if |s| < 2 then prefix + s else s
  }

  /** Positions at or above 100000 seconds are a known player glitch at track start. */
  const ImplausiblePositionMs := 100000000

  /** The position used for the start time: implausible positions count as 0. */
  function PlausiblePosition(positionMs: int): (r: int)
    ensures r == 0 || r == positionMs
    ensures r == positionMs <==> positionMs < ImplausiblePositionMs || positionMs == 0
  {
    if positionMs >= ImplausiblePositionMs then 0 else positionMs
  }

  /** `int(x)` for x = n / 1000: Python truncates toward zero. */
  function TruncatedSeconds(ms: int): int
  {
    if ms >= 0 then ms / 1000 else -((-ms) / 1000)
  }

  /**
   * `int(now - pos)`, with `now` and `pos` given in milliseconds: the start of
   * playback in whole seconds, truncated toward zero.
   */
  function StartSeconds(nowMs: int, positionMs: int): (start: int)
    ensures var elapsed := nowMs - PlausiblePosition(positionMs);
      (elapsed >= 0 ==> start * 1000 <= elapsed < start * 1000 + 1000) &&
      (elapsed < 0 ==> start * 1000 - 1000 < elapsed <= start * 1000)
  {
    TruncatedSeconds(nowMs - PlausiblePosition(positionMs))
  }
}
