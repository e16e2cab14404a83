# WinampRPC in Dafny

A model of the core of WinampRPC, which mirrors what Winamp is playing into a
Discord rich presence.

- **The Winamp controller** (`winamp.py`) is module `WinampApi` in `winamp.dfy`. It covers:
  - the `MenuCommand`, `UserCommand` and `PlayingStatus` code tables;
  - the `Winamp` class with its `window_id` and `_version` fields;
  - the connection guard;
  - every accessor that decodes the player's numeric replies;
  - the `get_playlist` line filter.

  `win32api.SendMessage` is a parameter of every accessor: a `Transport` that maps a window message to the player's reply. `win32gui.GetWindowText` is also a parameter. The result of `win32gui.FindWindow` is the window id passed to `Connect`.
- **The polling loop** is module `PresenceLoop` in `loop.dfy`. main.py and rp.py share it:
  - paused clears the presence;
  - stopped clears it once;
  - playing a new title sends an update.

  The two module globals `previous_track` and `cleared` are the fields of class `Engine`. Its methods `UpdateRpc`, `Tick` and `Run` are proved equal to the functions `UpdateStep`, `Step` and `Replay`. What a script's `update_rpc` sends for a tick is the parameter `present`. The tick's readings (`Poll`) are inputs: status, title, playlist index, position, clock, album directory name and player version.
- **main.py** is module `PresenceSync` in `main_sync.dfy`. It covers:
  - title parsing, with `split(" - ")[:-1]`, a character-set `strip` and a re-join;
  - the selection part of `get_album_art`;
  - the payload of `update_rpc`.
- **rp.py** is module `LegacyPresenceSync` in `legacy_sync.dfy`. It covers the second-piece parser and the fixed payload, compared with main.py's.
- **Shared parts**: the payload, the two-character padding and the start time are in module `Presence` (`presence.dfy`). Python's `str.split`, `str.join`, `str.strip(chars)`, `str(int)` and `hex(int)` are in module `Strings` (`strings.dfy`).

Two points of the code that are easy to misread:
- **Version string.** `fetch_version` builds `hex(v)[2] + "." + hex(v)[4:]`, so the digit at index 3 of `hex(v)` is dropped: `0x5072` reads "5.72" (`WinampApi.DecodeVersionExample`), not "5.072".
- **Album art result.** The album-art selection returns `album_asset_keys[key]`, the asset stored under the lookup key, not the key itself.

## Model

| member | source | states |
|---|---|---|
| WinampApi.MenuCommandOf | winamp.py:51-107 | a code gives the menu command with that value, and every command's value is found |
| WinampApi.UserCommandOf | winamp.py:111-160 | a code gives the user command with that value, and every command's value is found |
| WinampApi.PlayingStatusOf | winamp.py:163-179 | 0, 1 and 3 are Stopped, Playing and Paused; no other code is a status |
| WinampApi.StatusFromReply | winamp.py:372-377 | Playing iff the reply is 1, Paused iff it is 3, Stopped for every other reply (the ValueError fallback) |
| WinampApi.DecodeVersion | winamp.py:359-363 | the version string has a dot at index 1; for a non-negative reply it is one leading digit, the dot, and then digits only |
| Strings.HexString | winamp.py:361 | `hex(n)` is canonical: for a natural number, "0x" followed by hexadecimal digits with no leading zero that read back as n; a negative number is "-0x" followed by the digits of -n |
| WinampApi.DecodeFourDigitVersion | winamp.py:359-363 | for 0xMNPQ the version string is "M.PQ": the digit after the first is dropped |
| WinampApi.DecodeVersionExample | winamp.py:359-363 | 0x5072 reads "5.72" |
| WinampApi.DecodeVersionCollides | winamp.py:359-363 | two four-digit versions decode alike iff they agree on the first digit and on the low byte |
| WinampApi.GetPlaylist | winamp.py:483-501 | every kept line is non-empty and not a comment, and every such input line is kept |
| WinampApi.GetPlaylistAppend | winamp.py:501 | the filter keeps file order: filtering a concatenation concatenates the filtered parts |
| WinampApi.GetPlaylistCount | winamp.py:501 | each track line is kept exactly as often as it occurs; other lines never |
| WinampApi.GetPlaylistIdempotent | winamp.py:501 | filtering a filtered playlist changes nothing |
| WinampApi.Winamp.Unconnected | winamp.py:248-255 | before `connect` there is no window and no version |
| WinampApi.Winamp.Open | winamp.py:248-263 | constructing a controller fails with ConnectionError iff no window was found, and otherwise stores the window and the decoded version |
| WinampApi.Winamp.Connect | winamp.py:258-263 | the window id is always stored; fetching the version then raises ConnectionError iff the id is 0, leaving the old version |
| WinampApi.Winamp.EnsureConnection | winamp.py:265-272 | raises ConnectionError exactly when the window id is 0 |
| WinampApi.Winamp.SendCommand | winamp.py:274-289 | ConnectionError iff not connected; otherwise the reply to WM_COMMAND with the command's value as wParam and 0 as lParam |
| WinampApi.Winamp.SendUserCommand | winamp.py:291-307 | ConnectionError iff not connected; otherwise the reply to WM_USER with `data` as wParam and the command's value as lParam |
| WinampApi.Winamp.Version | winamp.py:309-318 | the stored version; ConnectionError exactly when not connected |
| WinampApi.Winamp.GetTrackTitle | winamp.py:339-350 | the window text of the connected window; ConnectionError exactly when not connected |
| WinampApi.Winamp.FetchVersion | winamp.py:352-363 | the decoded reply to the version query, behind the guard |
| WinampApi.Winamp.GetPlayingStatus | winamp.py:365-377 | Playing iff the 104 reply is 1, Paused iff 3, Stopped otherwise; ConnectionError exactly when not connected, and no other error |
| WinampApi.Winamp.GetTrackStatus | winamp.py:379-393 | ConnectionError when not connected; when connected, NoTrackSelected iff the data-1 reply is 4294967295, and success otherwise with (length reply * 1000, position reply) |
| WinampApi.Winamp.ChangeTrackTo | winamp.py:395-403 | the reply to user command 121 with the track number as data; ConnectionError exactly when not connected |
| WinampApi.Winamp.GetPlaylistPosition | winamp.py:405-417 | None exactly for the reply 4294967295, otherwise the raw reply; ConnectionError exactly when not connected |
| WinampApi.Winamp.SeekTrackTo | winamp.py:419-431 | ConnectionError when not connected; when connected, NoTrackSelected iff the reply is 4294967295, and success otherwise with the reply unchanged |
| WinampApi.Winamp.SetVolumeTo | winamp.py:433-445 | ValueError iff the level is outside [0, 255], before the guard and before sending; for a level inside, ConnectionError when not connected and success otherwise, with the reply to 122 with the level as data |
| WinampApi.Winamp.GetPlaylistLength | winamp.py:447-454 | the reply to user command 124; ConnectionError exactly when not connected |
| WinampApi.Winamp.GetTrackInfo | winamp.py:456-471 | ConnectionError when not connected; when connected, NoTrackSelected iff all three replies (data 0, 1, 2) are 0, and success otherwise with the three replies in that order |
| WinampApi.Winamp.DumpPlaylistNow | winamp.py:473-481 | the reply to user command 120; ConnectionError exactly when not connected |
| WinampApi.Winamp.GetCurrentTrack | winamp.py:320-337 | as written: None iff the playlist position is "no track" or 0; past that, a track iff a length is reported and the info is not all zero, with every field what the accessors read; ConnectionError exactly when not connected, and on a connected player the only error is NoTrackSelected |
| WinampApi.Winamp.GetCurrentTrackCorrected | winamp.py:320-337 | None iff no track is selected; past that, a track iff a length is reported and the info is not all zero, with every field what the accessors read; ConnectionError exactly when not connected, and on a connected player the only error is NoTrackSelected |
| WinampApi.FirstEntryReportedAsNone | winamp.py:329-331 | with the first playlist entry selected, `current_track` reports no track while the corrected one reports entry 0 |
| WinampApi.TrackLengthInMilliseconds | winamp.py:387-393 | a length reply of 125 s is reported as 125000 ms |
| Strings.Split | main.py:39 | `str.split(sep)`: at least one piece; SplitCutsLeftmost fixes every cut at the leftmost occurrence, and JoinSplit, SplitPiecesFree and SplitAppend follow |
| Strings.Join | main.py:42 | `sep.join(pieces)`; JoinSplit states that it undoes Split |
| Strings.Strip | main.py:41 | `str.strip(chars)` with the characters taken as a set; StripCharacterized states its meaning |
| Strings.DecimalString | main.py:41 | `str(n)` is canonical: for a natural number, decimal digits with no leading zero that read back as n; a negative number is '-' followed by the digits of -n |
| Strings.SplitCutsLeftmost | main.py:39 | a split with more than one piece has the separator right after its first piece and nowhere before, and the other pieces are the split of the rest; a single piece is the whole string and holds no separator |
| Strings.JoinSplit | main.py:39-42 | joining the pieces of a split with the delimiter gives the string back |
| Strings.SplitPiecesFree | main.py:39 | no piece of a split holds the delimiter |
| Strings.SplitAppend | main.py:39 | splitting `x + " - " + y` gives the pieces of x and then those of y, when x does not end in '-' |
| Strings.StripCharacterized | main.py:41 | `strip(chars)` is the unique slice whose cut-off ends are all in the set and which neither starts nor ends with a character of the set |
| Strings.StripPrefixed | main.py:41 | stripping the characters of a prefix from that prefix followed by `a` gives `a` back when `a`'s ends are outside the set |
| Strings.NumeralRoundTrip | winamp.py:361 | the digits printed for a number read back as that number (`Numeral` itself promises a positive number no leading zero) |
| Presence.Padded | main.py:45-46 | a string shorter than 2 becomes prefix + string; a longer one is kept; the result has at least 2 characters |
| Presence.PlausiblePosition | main.py:47-48 | positions of 100000 s and more become 0; all others are kept |
| Presence.StartSeconds | main.py:43-49 | the start time is now minus the kept position, truncated toward zero to whole seconds |
| PresenceLoop.UpdateStep | main.py:32-60 | no call iff the title is unchanged; otherwise the title is remembered, and a crash happens iff `update_rpc` raises; it never clears |
| PresenceLoop.Step | main.py:170-179 | a clear iff paused, or stopped and not yet cleared; updates and crashes only while playing |
| PresenceLoop.Replay | main.py:170-179 | a run makes at most one call per tick, and only a crash ends it early, as its last call |
| PresenceLoop.PausedClearsEveryTick | main.py:172-175 | "paused" clears on every tick, resetting the title and setting cleared |
| PresenceLoop.StoppedClearsOnce | main.py:172-175 | "stopped" clears only when not yet cleared, and otherwise changes nothing |
| PresenceLoop.PlayingDebounces | main.py:37-38 | while playing, there is no call iff the title is unchanged; a new title is remembered; an update un-clears; a crash happens iff the new title does not parse |
| PresenceLoop.OtherStatusIgnored | main.py:177-179 | any other status makes no call and changes nothing |
| PresenceLoop.ClearedFlagFollowsCalls | main.py:170-179 | after a tick, cleared holds iff that tick cleared, or it held before and the tick sent no update |
| PresenceLoop.StepKeepsClearedForgets | main.py:172-175 | a tick keeps "cleared implies no remembered title" |
| PresenceLoop.ReplayKeepsClearedForgets | main.py:170-179 | every run without a crash keeps "cleared implies no remembered title" |
| PresenceLoop.UpdateMeansNewTitle | main.py:37-38 | an update is made only while playing, for a title unlike the last one, which it then remembers |
| PresenceLoop.UpdatesNeedNewTitle | main.py:37-38 | over any run, two updates in a row come from two ticks whose titles differ |
| PresenceLoop.PlayingNewTitleUpdates | main.py:37-60 | a new title that renders is sent and un-clears the presence |
| PresenceLoop.PlayRepeatPauseScenario | main.py:170-179 | from start-up, playing a title, reading it again and pausing gives an update, no call, then a clear |
| PresenceLoop.RepeatThenPause | main.py:170-179 | an unchanged title makes no call and a following pause clears |
| PresenceLoop.ReplayAgrees | rp.py:60-70 | two scripts whose `update_rpc` sends the same for every tick behave alike over the whole run |
| PresenceLoop.Engine.constructor | main.py:149-150 | the globals start as no title and not cleared |
| PresenceLoop.Engine.UpdateRpc | main.py:32-60 | `update_rpc`'s new state and call are those of `UpdateStep`; the title is remembered even when parsing raises |
| PresenceLoop.Engine.Tick | main.py:170-178 | one pass of the loop changes the globals and calls as `Step` says |
| PresenceLoop.Engine.Run | main.py:170-179 | the loop's globals and calls over a sequence of ticks are those of `Replay` |
| PresenceSync.SplitsIffDelimited | main.py:39 | a title splits into two or more pieces iff it holds " - " |
| PresenceSync.ParseTitle | main.py:39-42 | parsing raises (IndexError) exactly for titles without " - " |
| PresenceSync.ParseWellFormedTitle | main.py:39-42 | "{n}. {artist} - {track} - Winamp" gives back the artist and the whole track, internal " - " included, for hyphenated artists too; leading artist characters that are in the number's set are lost |
| PresenceSync.AlbumKey | main.py:90-93 | the lookup key; AlbumKeyWithArtist states both branches |
| PresenceSync.DefaultLargeText | main.py:99-104 | the caption for a missing asset by setting: the version, the album name, or the setting itself (AlbumArtMissing) |
| PresenceSync.AlbumArt | main.py:88-107 | the asset is a stored asset or the default one, and the caption has at least 2 characters |
| PresenceSync.AlbumArtFound | main.py:88-95 | a found key gives its stored asset, captioned with the padded album name |
| PresenceSync.AlbumArtMissing | main.py:96-107 | a missing key gives the default asset, captioned by version, album name or the literal mode, padded |
| PresenceSync.AlbumKeyWithArtist | main.py:90-93 | for every album and artist: the key is the bare album name exactly when the album is not listed as an exception, and a listed album is looked up as "{artist} - {album}" |
| PresenceSync.UpdatePayload | main.py:37-60 | no payload iff the title has no " - "; otherwise details are the padded track name and state is "by " + artist of the parse, the start time is StartSeconds, the small asset and caption come from the settings, and the large asset is AlbumArt's when custom assets are on and logo with "Winamp v" version when off |
| PresenceSync.CrashesIffNoDelimiter | main.py:37-42 | while playing, main.py raises iff a new title has no " - ", and sends an update iff a new title has one |
| LegacyPresenceSync.ParseTitle | rp.py:46-48 | rp.py's parse raises exactly for titles without " - " |
| LegacyPresenceSync.ParsersFailAlike | rp.py:46-48 | rp.py and main.py raise on the same titles |
| LegacyPresenceSync.ParsersCompared | rp.py:46-48 | both parsers give the same artist; rp.py's track is the second piece, equal to main.py's for three pieces and a prefix of it for more |
| LegacyPresenceSync.UpdatePayload | rp.py:38-57 | no payload iff the title has no " - "; otherwise details are the padded second piece and state is "by " + artist of the parse, the start time is StartSeconds, and always logo, playbutton, "Playing" and "Winamp v" with the version read on that tick |
| LegacyPresenceSync.UpdatePayloadMatchesNewer | rp.py:38-57 | on titles of one or three pieces, rp.py sends what main.py sends with default settings and custom assets off |
| LegacyPresenceSync.ReplayMatchesNewer | rp.py:60-70 | over any run of such titles with one version, rp.py's loop makes the same calls and ends in the same state as main.py's |

## Left out

- `win32gui.FindWindow`, `win32gui.GetWindowText` and `win32api.SendMessage` are Windows calls. They are parameters of the model.
- `Transport` is a fixed function, so the player answers the same message the same way within one query. The model does not represent the player changing between the messages of one accessor.
- The pypresence client (`Presence`, `connect`, `update`, `clear`) is a network client. Its calls are the `Action`s a tick returns: `Clear`, `Update(payload)`, `NoCall`. The IndexError that ends the loop is `Crash`.
- `time.time` and `time.sleep` are not modelled. The clock is part of each tick's readings; sleeping has no effect on the state. rp.py sleeps only when it does not clear, so it busy-loops while paused; this timing is not modelled.
- Floating point is not modelled. Positions and the clock are integer milliseconds, and the clamp is `positionMs >= 100000000`. `int(now - pos)` is integer truncation toward zero of the difference in milliseconds divided by 1000. The rounding of float division is not captured.
- File I/O is not modelled:
  - reading and writing settings.json and its default settings;
  - loading album_name_exceptions.txt and album_covers.json;
  - opening and decoding the playlist file and `splitlines`.

  The settings are the `Settings` value. `get_playlist` filters a given sequence of lines.
- For `get_album_art`, the following are not modelled: `dumpList`, the `APPDATA` lookup, reading the dumped playlist, indexing it at the track position, and `os.path.dirname`/`basename`. The album directory name is a tick input. An out-of-range index there would raise IndexError, which the model does not represent.
- main.py and rp.py call an older controller API (`getCurrentTrackName`, `getPlayingStatus` returning strings, `getTrackStatus`, `getCurrentTrack`, `getVersion`, `getTrackList`). Their results are tick inputs and are not wired to `WinampApi`.
- The `client_id == "default"` substitution is configuration only.
- The `Track` and `CurrentTrack` classes are one datatype, `WinampApi.CurrentTrack`.
- WinampApi.Winamp.Unconnected: the window id is 0 before `connect`, where the source has None. `__ensure_connection` does not reject None; `connect` replaces it with FindWindow's result before any query is sent.

## Findings

| source | as written | input that shows it | evidently intended | confidence | as-written member | corrected member |
|---|---|---|---|---|---|---|
| winamp.py:329-331 | `if not playlist_position: return None` treats playlist index 0 like "no track selected" | a connected player with the first playlist entry selected: position reply 0, valid length and track info | return None only when `get_playlist_position` returns None | high; not executed | WinampApi.Winamp.GetCurrentTrack (shown by WinampApi.FirstEntryReportedAsNone) | WinampApi.Winamp.GetCurrentTrackCorrected |
