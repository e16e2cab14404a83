/**
 * The presence script main.py: what its `update_rpc` sends for a tick,
 * including the selection part of `get_album_art`. Its loop is
 * `PresenceLoop`, run with `Present(cfg)`. The album directory name that
 * `get_album_art` reads from the dumped playlist is a field of the tick's
 * readings.
 */
module PresenceSync {
  import opened Wrappers
  import opened Strings
  import opened Presence
  import opened PresenceLoop

  /** The values main.py reads from settings.json and the asset files at start-up. */
  datatype Settings = Settings(
    customAssets: bool,
    defaultLargeKey: string,
    defaultLargeText: string,
    smallAssetKey: string,
    smallAssetText: string,
    winampVersion: string,
    albumExceptions: seq<string>,
    albumAssetKeys: map<string, string>)

  datatype TrackFields = TrackFields(artist: string, trackName: string)

  /** The characters `strip` removes from the artist: those of "{trackPos + 1}. ". */
  function NumberChars(trackPos: int): set<char>
  {
    CharSet(DecimalString(trackPos + 1) + ". ")
  }

  /**
   * The title "{n}. {artist} - {track} - Winamp" split on " - " with the last
   * piece dropped: the artist is the first piece stripped of the number's
   * characters, the track name is the other pieces joined again. None is the
   * IndexError a title without " - " raises, and it is raised exactly for
   * titles without " - ".
   */
  function ParseTitle(title: string, trackPos: int): (r: Option<TrackFields>)
    ensures r.None? <==> Free(title, Sep)
  {
    SplitsIffDelimited(title);
    var pieces := Split(title, Sep);
    var trackinfo := pieces[..|pieces| - 1];
    if |trackinfo| == 0 then None
    else Some(TrackFields(Strip(trackinfo[0], NumberChars(trackPos)), Join(trackinfo[1..], Sep)))
  }

  /** A title splits into more than one piece exactly when it holds the delimiter. */
  lemma SplitsIffDelimited(title: string)
    ensures |Split(title, Sep)| >= 2 <==> !Free(title, Sep)
  {
    if Free(title, Sep) {
      SplitFree(title, Sep);
    } else {
      var j :| 0 <= j < |title| && OccursAt(title, Sep, j);
      IndexOfFirst(title, Sep, 0, j);
    }
  }

  /**
   * For a title "{trackPos + 1}. {lead}{artist} - {track} - {app}" the parse
   * gives back the artist and the track, internal delimiters of the track
   * included, provided the artist holds no delimiter, does not begin with
   * "- " and does not end in '-', does not begin or end with a character of
   * the number prefix, the track does not end in '-', and the player name
   * holds no delimiter. Hyphenated artists such as "Jay-Z" are read whole.
   * `lead` is normally empty; when the artist's own name starts with
   * characters of the number prefix, they are `lead` and are lost, as
   * stripping is by character set and not by prefix: at playlist index 4,
   * "5. 5ive - Song - Winamp" reads as the artist "ive".
   */
  lemma ParseWellFormedTitle(trackPos: int, lead: string, artist: string, track: string, app: string)
    requires trackPos >= 0
    requires forall k :: 0 <= k < |lead| ==> lead[k] in NumberChars(trackPos)
    requires Free(lead + artist, Sep)
    requires |artist| < 2 || artist[0] != '-' || artist[1] != ' '
    requires artist == [] || (artist[0] !in NumberChars(trackPos) && artist[|artist| - 1] !in NumberChars(trackPos))
    requires artist == [] || artist[|artist| - 1] != '-'
    requires track == [] || track[|track| - 1] != '-'
    requires Free(app, Sep)
    ensures ParseTitle(DecimalString(trackPos + 1) + ". " + lead + artist + Sep + track + Sep + app, trackPos)
      == Some(TrackFields(artist, track))
  {
    var prefix := DecimalString(trackPos + 1) + ". " + lead;
    var x := prefix + artist;
    var title := DecimalString(trackPos + 1) + ". " + lead + artist + Sep + track + Sep + app;
    assert title == x + Sep + track + Sep + app;
    NumberedFree(trackPos, lead, artist);
    PiecesOfWellFormed(x, track, app);
    JoinSplit(track, Sep);
    assert forall k :: 0 <= k < |prefix| ==> prefix[k] in NumberChars(trackPos);
    StripPrefixed(prefix, artist, NumberChars(trackPos));
    ParseTitleOf(title, trackPos, x, Split(track, Sep));
  }

  /** The parse of a title whose pieces, the last one dropped, are `first` and then `rest`. */
  lemma ParseTitleOf(title: string, trackPos: int, first: string, rest: seq<string>)
    requires var pieces := Split(title, Sep); pieces[..|pieces| - 1] == [first] + rest
    ensures ParseTitle(title, trackPos) == Some(TrackFields(Strip(first, NumberChars(trackPos)), Join(rest, Sep)))
  {
    var pieces := Split(title, Sep);
    assert pieces[..|pieces| - 1][1..] == rest;
  }

  /**
   * "{n}. {lead}{artist}" holds no delimiter and does not end in '-': the
   * number and the prefix characters hold no '-', and a delimiter across the
   * ". " would need the artist to begin with "- ".
   */
  lemma NumberedFree(trackPos: int, lead: string, artist: string)
    requires trackPos >= 0
    requires forall k :: 0 <= k < |lead| ==> lead[k] in NumberChars(trackPos)
    requires Free(lead + artist, Sep)
    requires |artist| < 2 || artist[0] != '-' || artist[1] != ' '
    requires artist == [] || artist[|artist| - 1] != '-'
    ensures var x := DecimalString(trackPos + 1) + ". " + lead + artist;
      Free(x, Sep) && x[|x| - 1] != '-'
  {
    var d := DecimalString(trackPos + 1);
    var a := lead + artist;
    assert d + ". " + lead + artist == d + ". " + a;
    NaturalNoDash(trackPos + 1);
    assert '-' !in NumberChars(trackPos);
    if lead != [] {
      assert a[0] == lead[0];
      assert a[|a| - 1] != '-' by {
        if artist == [] {
          assert a[|a| - 1] == lead[|lead| - 1];
        }
      }
    } else {
      assert a == artist;
    }
    FreeAfterDot(d, a);
  }

  /** A delimiter-free `a` after "{d}. " stays delimiter-free when `d` has no '-' and `a` does not begin with "- ". */
  lemma FreeAfterDot(d: string, a: string)
    requires '-' !in d
    requires Free(a, Sep)
    requires |a| < 2 || a[0] != '-' || a[1] != ' '
    ensures Free(d + ". " + a, Sep)
  {
    var x := d + ". " + a;
    forall j | 0 <= j < |x| ensures !OccursAt(x, Sep, j) {
      if j + 3 <= |x| {
        assert x[j..j + 3][1] == x[j + 1];
        if j + 1 < |d| {
          assert x[j + 1] == d[j + 1];
        } else if j + 1 == |d| {
          assert x[j + 1] == '.';
        } else if j == |d| {
          assert x[j + 1] == ' ';
        } else if j == |d| + 1 {
          assert x[j + 1] == a[0] && x[j + 2] == a[1];
          assert x[j..j + 3][2] == x[j + 2];
        } else {
          var i := j - |d| - 2;
          assert x[j..j + 3] == a[i..i + 3] && !OccursAt(a, Sep, i);
        }
      }
    }
  }

  /** A title made of a first part without delimiter, a track and a last part without delimiter splits into those. */
  lemma PiecesOfWellFormed(x: string, track: string, app: string)
    requires x != [] && Free(x, Sep) && x[|x| - 1] != '-'
    requires track == [] || track[|track| - 1] != '-'
    requires Free(app, Sep)
    ensures var pieces := Split(x + Sep + track + Sep + app, Sep);
      pieces[..|pieces| - 1] == [x] + Split(track, Sep)
  {
    var rest := track + Sep + app;
    assert x + Sep + track + Sep + app == x + Sep + rest;
    SplitFree(x, Sep);
    SplitFree(app, Sep);
    SplitAppend(x, rest);
    SplitAppend(track, app);
    var pieces := Split(x + Sep + rest, Sep);
    assert pieces == [x] + Split(track, Sep) + [app];
  }

  // ---------------------------------------------------------------------------
  // Album art

  /** The asset lookup key: "{artist} - {album}" for albums listed as exceptions, the album name otherwise. */
  function AlbumKey(albumName: string, artist: string, exceptions: seq<string>): string
  {
    if albumName in exceptions then artist + Sep + albumName else albumName
  }

  /** The caption used when no asset is found, by the "default_large_asset_text" setting. */
  function DefaultLargeText(mode: string, albumName: string, version: string): string
  {
    if mode == "winamp version" then "Winamp v" + version
    else if mode == "album name" then albumName
    else mode
  }

  /** The selection part of `get_album_art`: (large asset key, large asset text). */
  function AlbumArt(albumName: string, artist: string, cfg: Settings): (r: (string, string))
    ensures |r.1| >= 2
    ensures r.0 in cfg.albumAssetKeys.Values || r.0 == cfg.defaultLargeKey
  {
    var key := AlbumKey(albumName, artist, cfg.albumExceptions);
    if key in cfg.albumAssetKeys then
      (cfg.albumAssetKeys[key], Padded(AlbumPrefix, albumName))
    else
      (cfg.defaultLargeKey, Padded(AlbumPrefix, DefaultLargeText(cfg.defaultLargeText, albumName, cfg.winampVersion)))
  }

  /** A key found in the asset file gives its asset and the album name as caption. */
  lemma AlbumArtFound(albumName: string, artist: string, cfg: Settings)
    requires AlbumKey(albumName, artist, cfg.albumExceptions) in cfg.albumAssetKeys
    ensures AlbumArt(albumName, artist, cfg) ==
      (cfg.albumAssetKeys[AlbumKey(albumName, artist, cfg.albumExceptions)], Padded(AlbumPrefix, albumName))
  {
  }

  /** A missing key gives the default asset, captioned by the version, the album name or the literal setting. */
  lemma AlbumArtMissing(albumName: string, artist: string, cfg: Settings)
    requires AlbumKey(albumName, artist, cfg.albumExceptions) !in cfg.albumAssetKeys
    ensures AlbumArt(albumName, artist, cfg).0 == cfg.defaultLargeKey
    ensures cfg.defaultLargeText == "winamp version" ==>
      AlbumArt(albumName, artist, cfg).1 == "Winamp v" + cfg.winampVersion
    ensures cfg.defaultLargeText == "album name" ==>
      AlbumArt(albumName, artist, cfg).1 == Padded(AlbumPrefix, albumName)
    ensures cfg.defaultLargeText !in {"winamp version", "album name"} ==>
      AlbumArt(albumName, artist, cfg).1 == Padded(AlbumPrefix, cfg.defaultLargeText)
  {
    assert |"Winamp v" + cfg.winampVersion| >= 2;
  }

  /**
   * The key is the bare album name exactly for albums not listed as
   * exceptions; a listed album is looked up with its artist, as in
   * "Queen - Greatest Hits".
   */
  lemma AlbumKeyWithArtist(albumName: string, artist: string, exceptions: seq<string>)
    ensures AlbumKey(albumName, artist, exceptions) == albumName <==> albumName !in exceptions
    ensures albumName in exceptions ==> AlbumKey(albumName, artist, exceptions) == artist + Sep + albumName
  {
    assert |artist + Sep + albumName| > |albumName|;
  }

  // ---------------------------------------------------------------------------
  // One tick

  /**
   * The payload `update_rpc` sends for a new title, or None when parsing the
   * title raises. The large asset is the album art when custom assets are on,
   * and the logo with the version otherwise.
   */
  function UpdatePayload(p: Poll, cfg: Settings): (r: Option<Payload>)
    ensures r.None? <==> Free(p.title, Sep)
    ensures r.Some? ==> var fields := ParseTitle(p.title, p.trackPos).value;
      r.value.details == Padded(TrackPrefix, fields.trackName) && r.value.state == "by " + fields.artist
    ensures r.Some? && cfg.customAssets ==>
      (r.value.largeImage, r.value.largeText) == AlbumArt(p.albumName, ParseTitle(p.title, p.trackPos).value.artist, cfg)
    ensures r.Some? ==> |r.value.details| >= 2 && |r.value.largeText| >= 2
    ensures r.Some? ==> |r.value.state| >= 3 && r.value.state[..3] == "by "
    ensures r.Some? && !cfg.customAssets ==>
      r.value.largeImage == "logo" && r.value.largeText == "Winamp v" + cfg.winampVersion
    ensures r.Some? ==> r.value.smallImage == cfg.smallAssetKey && r.value.smallText == cfg.smallAssetText
    ensures r.Some? ==> r.value.start == StartSeconds(p.nowMs, p.positionMs)
  {
    match ParseTitle(p.title, p.trackPos)
    case None => None
    case Some(fields) =>
      var large := if cfg.customAssets then AlbumArt(p.albumName, fields.artist, cfg)
                   else ("logo", "Winamp v" + cfg.winampVersion);
      Some(Payload(
        Padded(TrackPrefix, fields.trackName), "by " + fields.artist, StartSeconds(p.nowMs, p.positionMs),
        large.0, cfg.smallAssetKey, large.1, cfg.smallAssetText))
  }

  /** main.py's `update_rpc` as the loop uses it. */
  function Present(cfg: Settings): Presenter
  {
    p => UpdatePayload(p, cfg)
  }

  /**
   * In main.py's loop a playing tick raises exactly for a new title without
   * " - ", and a new title with one is sent.
   */
  lemma CrashesIffNoDelimiter(s: SyncState, p: Poll, cfg: Settings)
    requires p.status == "playing"
    ensures Step(s, p, Present(cfg)).1.Crash? <==> p.title != s.previousTrack && Free(p.title, Sep)
    ensures Step(s, p, Present(cfg)).1.Update? <==> p.title != s.previousTrack && !Free(p.title, Sep)
  {
    PlayingDebounces(s, p, Present(cfg));
  }
}
