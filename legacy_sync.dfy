/**
 * The older presence script rp.py: the same polling loop as main.py
 * (`PresenceLoop`, run with `Present()`), with a simpler `update_rpc` that
 * takes the second piece of the title as the track name, always shows the
 * logo with the player version, and reads the version on every update
 * instead of once at start-up.
 */
module LegacyPresenceSync {
  import opened Wrappers
  import opened Strings
  import opened Presence
  import opened PresenceLoop
  import PresenceSync

  /**
   * The title split on " - ": the artist is the first piece stripped of the
   * number's characters, the track name is the second piece. None is the
   * IndexError a title without " - " raises, and it is raised exactly for
   * titles without " - ".
   */
  function ParseTitle(title: string, trackPos: int): (r: Option<PresenceSync.TrackFields>)
    ensures r.None? <==> Free(title, Sep)
  {
    PresenceSync.SplitsIffDelimited(title);
    var pieces := Split(title, Sep);
    if |pieces| < 2 then None
    else Some(PresenceSync.TrackFields(Strip(pieces[0], PresenceSync.NumberChars(trackPos)), pieces[1]))
  }

  /** Both scripts raise on exactly the same titles: those without " - ". */
  lemma ParsersFailAlike(title: string, trackPos: int)
    ensures ParseTitle(title, trackPos).None? <==> PresenceSync.ParseTitle(title, trackPos).None?
  {
  }

  /**
   * Where both parse, they agree on the artist. On the track name they agree
   * for "{n}. {artist} - {track} - Winamp"; with more pieces the newer script
   * keeps the track's own " - " parts, which this one drops, and with two
   * pieces the newer script drops the last piece, which this one keeps.
   */
  lemma ParsersCompared(title: string, trackPos: int)
    requires !Free(title, Sep)
    ensures var pieces := Split(title, Sep);
      var older := ParseTitle(title, trackPos);
      var newer := PresenceSync.ParseTitle(title, trackPos);
      older.Some? && newer.Some? &&
      older.value.artist == newer.value.artist &&
      older.value.trackName == pieces[1] &&
      (|pieces| == 2 ==> newer.value.trackName == "") &&
      (|pieces| == 3 ==> newer.value.trackName == older.value.trackName) &&
      (|pieces| > 3 ==> newer.value.trackName == older.value.trackName + Sep + Join(pieces[2..|pieces| - 1], Sep))
  {
    PresenceSync.SplitsIffDelimited(title);
    var pieces := Split(title, Sep);
    var info := pieces[..|pieces| - 1];
    if |pieces| > 3 {
      assert info[1..][1..] == pieces[2..|pieces| - 1];
    }
  }

  /** A title that the two scripts read alike: no delimiter, or exactly two. */
  predicate ReadAlike(title: string)
  {
    |Split(title, Sep)| == 1 || |Split(title, Sep)| == 3
  }

  /** The payload `update_rpc` sends for a new title, or None when parsing the title raises. */
  function UpdatePayload(p: Poll): (r: Option<Payload>)
    ensures r.None? <==> Free(p.title, Sep)
    ensures r.Some? ==> var fields := ParseTitle(p.title, p.trackPos).value;
      r.value.details == Padded(TrackPrefix, fields.trackName) && r.value.state == "by " + fields.artist
    ensures r.Some? ==> |r.value.details| >= 2 && r.value.largeText == "Winamp v" + p.version
    ensures r.Some? ==> |r.value.state| >= 3 && r.value.state[..3] == "by "
    ensures r.Some? ==> r.value.largeImage == "logo" && r.value.smallImage == "playbutton" && r.value.smallText == "Playing"
    ensures r.Some? ==> r.value.start == StartSeconds(p.nowMs, p.positionMs)
  {
    match ParseTitle(p.title, p.trackPos)
    case None => None
    case Some(fields) =>
      Some(Payload(
        Padded(TrackPrefix, fields.trackName), "by " + fields.artist, StartSeconds(p.nowMs, p.positionMs),
        "logo", "playbutton", "Winamp v" + p.version, "Playing"))
  }

  /** rp.py's `update_rpc` as the loop uses it. */
  function Present(): Presenter
  {
    p => UpdatePayload(p)
  }

  /** The settings under which main.py shows what this script shows. */
  function MatchingSettings(version: string): PresenceSync.Settings
  {
    PresenceSync.Settings(false, "logo", "winamp version", "playbutton", "Playing", version, [], map[])
  }

  /** On a title both read alike, the two scripts send the same, given main.py's matching settings. */
  lemma UpdatePayloadMatchesNewer(p: Poll)
    requires ReadAlike(p.title)
    ensures UpdatePayload(p) == PresenceSync.UpdatePayload(p, MatchingSettings(p.version))
  {
    if !Free(p.title, Sep) {
      ParsersCompared(p.title, p.trackPos);
    }
  }

  /**
   * Over any run whose titles both scripts read alike and whose version
   * stays the same, the older script behaves exactly like main.py with the
   * default settings and custom assets off.
   */
  lemma ReplayMatchesNewer(s: SyncState, polls: seq<Poll>, version: string)
    requires forall k :: 0 <= k < |polls| ==> ReadAlike(polls[k].title) && polls[k].version == version
    ensures Replay(s, polls, Present()) == Replay(s, polls, PresenceSync.Present(MatchingSettings(version)))
  {
    forall k | 0 <= k < |polls|
      ensures Present()(polls[k]) == PresenceSync.Present(MatchingSettings(version))(polls[k])
    {
      UpdatePayloadMatchesNewer(polls[k]);
    }
    ReplayAgrees(s, polls, Present(), PresenceSync.Present(MatchingSettings(version)));
  }
}
