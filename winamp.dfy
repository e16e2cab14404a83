/**
 * The Winamp controller: the code tables of the two message families, the
 * connection guard, and the typed accessors that decode the player's
 * numeric replies.
 *
 * `win32api.SendMessage` is a parameter of every accessor: a `Transport`
 * that maps a window message to the player's reply. `win32gui.GetWindowText`
 * is a parameter too, and `win32gui.FindWindow` is the window id given to
 * `Connect`.
 */
module WinampApi {
  import opened Wrappers
  import opened Strings

  /** First slot for menu control messages in the Windows API. */
  const WM_COMMAND := 0x0111
  /** First slot for user defined messages in the Windows API. */
  const WM_USER := 0x400
  /** The reply Winamp gives to some queries when the playlist is empty. */
  const NO_TRACK_SELECTED := 4294967295

  // ---------------------------------------------------------------------------
  // Code tables

  /** WM_COMMAND commands: the same as pressing menus and buttons in the player. */
  datatype MenuCommand =
    | ToggleRepeat | ToggleShuffle | PreviousTrack | Play | TogglePause | Stop | NextTrack
    | RaiseVolume | LowerVolume | FastRewind | FadeOutAndStop | FastForward | StopAfterTrack
  {
    function Code(): int
    {
      match this
      case ToggleRepeat => 40022
      case ToggleShuffle => 40023
      case PreviousTrack => 40044
      case Play => 40045
      case TogglePause => 40046
      case Stop => 40047
      case NextTrack => 40048
      case RaiseVolume => 40058
      case LowerVolume => 40059
      case FastRewind => 40144
      case FadeOutAndStop => 40147
      case FastForward => 40148
      case StopAfterTrack => 40157
    }
  }

  /** WM_USER commands: programmatic queries and setters of the Winamp API. */
  datatype UserCommand =
    | WinampVersion | PlayingStatusQuery | TrackStatus | SeekTrack | DumpPlaylist
    | ChangeTrack | SetVolume | PlaylistLength | PlaylistPosition | TrackInfo
  {
    function Code(): int
    {
      match this
      case WinampVersion => 0
      case PlayingStatusQuery => 104
      case TrackStatus => 105
      case SeekTrack => 106
      case DumpPlaylist => 120
      case ChangeTrack => 121
      case SetVolume => 122
      case PlaylistLength => 124
      case PlaylistPosition => 125
      case TrackInfo => 126
    }
  }

  datatype PlayingStatus = Stopped | Playing | Paused
  {
    function Code(): int
    {
      match this
      case Stopped => 0
      case Playing => 1
      case Paused => 3
    }
  }

  /** `MenuCommand(code)`: the enumeration member with that value, if any. */
  function MenuCommandOf(code: int): (r: Option<MenuCommand>)
    ensures r.Some? ==> r.value.Code() == code
    ensures forall c: MenuCommand :: c.Code() == code ==> r == Some(c)
  {
    if code == 40022 then Some(ToggleRepeat)
    else if code == 40023 then Some(ToggleShuffle)
    else if code == 40044 then Some(PreviousTrack)
    else if code == 40045 then Some(Play)
    else if code == 40046 then Some(TogglePause)
    else if code == 40047 then Some(Stop)
    else if code == 40048 then Some(NextTrack)
    else if code == 40058 then Some(RaiseVolume)
    else if code == 40059 then Some(LowerVolume)
    else if code == 40144 then Some(FastRewind)
    else if code == 40147 then Some(FadeOutAndStop)
    else if code == 40148 then Some(FastForward)
    else if code == 40157 then Some(StopAfterTrack)
    else None
  }

  /** `UserCommand(code)`. */
  function UserCommandOf(code: int): (r: Option<UserCommand>)
    ensures r.Some? ==> r.value.Code() == code
    ensures forall c: UserCommand :: c.Code() == code ==> r == Some(c)
  {
    if code == 0 then Some(WinampVersion)
    else if code == 104 then Some(PlayingStatusQuery)
    else if code == 105 then Some(TrackStatus)
    else if code == 106 then Some(SeekTrack)
    else if code == 120 then Some(DumpPlaylist)
    else if code == 121 then Some(ChangeTrack)
    else if code == 122 then Some(SetVolume)
    else if code == 124 then Some(PlaylistLength)
    else if code == 125 then Some(PlaylistPosition)
    else if code == 126 then Some(TrackInfo)
    else None
  }

  /** `PlayingStatus(code)`. */
  function PlayingStatusOf(code: int): (r: Option<PlayingStatus>)
    ensures r.Some? ==> r.value.Code() == code
    ensures forall c: PlayingStatus :: c.Code() == code ==> r == Some(c)
  {
    if code == 0 then Some(Stopped)
    else if code == 1 then Some(Playing)
    else if code == 3 then Some(Paused)
    else None
  }

  /** The status a raw reply stands for: the enumeration lookup, with Stopped where it raises ValueError. */
  function StatusFromReply(reply: int): (st: PlayingStatus)
    ensures st == Playing <==> reply == 1
    ensures st == Paused <==> reply == 3
    ensures st == Stopped <==> reply != 1 && reply != 3
  {
    match PlayingStatusOf(reply)
    case Some(st) => st
    case None => Stopped
  }

  /**
   * The version string: `hex(reply)[2] + "." + hex(reply)[4:]`, the leading
   * hexadecimal digit, a dot, and the digits from the third on.
   */
  function DecodeVersion(reply: int): (r: string)
    ensures |r| >= 2 && r[1] == '.'
    ensures reply >= 0 ==> forall k :: 0 <= k < |r| && k != 1 ==> IsDigitChar(r[k])
  {
    var h := HexString(reply);
    [h[2]] + "." + (if |h| >= 4 then h[4..] else "")
  }

  /** For a four-digit version 0xMNPQ the string is "M.PQ": the second digit N is dropped. */
  lemma DecodeFourDigitVersion(reply: int)
    requires 0x1000 <= reply < 0x10000
    ensures DecodeVersion(reply) ==
      [DigitChar(reply / 0x1000), '.', DigitChar(reply / 16 % 16), DigitChar(reply % 16)]
  {
    HexFourDigits(reply);
  }

  /** 0x5072 (Winamp 5.72) reads "5.72". */
  lemma DecodeVersionExample(reply: int)
    requires reply == 0x5072
    ensures DecodeVersion(reply) == "5.72"
  {
    DecodeFourDigitVersion(reply);
    assert reply / 0x1000 == 5 && reply / 16 % 16 == 7 && reply % 16 == 2;
    assert DigitChar(5) == '5' && DigitChar(7) == '7' && DigitChar(2) == '2';
  }

  /**
   * The decoding is lossy: two four-digit versions read the same exactly when
   * they agree on the first digit and on the last two.
   */
  lemma DecodeVersionCollides(v: int, w: int)
    requires 0x1000 <= v < 0x10000 && 0x1000 <= w < 0x10000
    ensures DecodeVersion(v) == DecodeVersion(w) <==> v / 0x1000 == w / 0x1000 && v % 0x100 == w % 0x100
  {
    DecodeFourDigitVersion(v);
    DecodeFourDigitVersion(w);
    DigitCharInjective(v / 0x1000, w / 0x1000);
    DigitCharInjective(v / 16 % 16, w / 16 % 16);
    DigitCharInjective(v % 16, w % 16);
    LowByte(v);
    LowByte(w);
  }

  lemma LowByte(v: int)
    requires v >= 0
    ensures v % 0x100 == v / 16 % 16 * 16 + v % 16
  {
    var a := v / 16;
    assert v == 16 * a + v % 16;
    assert a == 16 * (a / 16) + a % 16;
    assert v == 0x100 * (a / 16) + (a % 16 * 16 + v % 16);
  }

  // ---------------------------------------------------------------------------
  // Messages and results

  /** A window message: `SendMessage(hwnd, msg, wParam, lParam)`. */
  datatype Message = Message(hwnd: int, msg: int, wParam: int, lParam: int)

  /** The player's reply to each message (`win32api.SendMessage`). */
  type Transport = Message -> int

  /** A command given as an enumeration member or as a bare id. */
  datatype MenuArg = Menu(command: MenuCommand) | RawMenu(id: int)
  {
    /** The id sent: an enumeration member is replaced by its value. */
    function Id(): int
    {
      match this
      case Menu(c) => c.Code()
      case RawMenu(n) => n
    }
  }

  datatype UserArg = User(command: UserCommand) | RawUser(id: int)
  {
    function Id(): int
    {
      match this
      case User(c) => c.Code()
      case RawUser(n) => n
    }
  }

  datatype Error = ConnectionError | NoTrackSelected | ValueError

  datatype Result<+T> = Ok(value: T) | Err(error: Error)
  {
    predicate IsFailure() { Err? }

    function PropagateFailure<U>(): Result<U>
      requires Err?
    {
      Err(error)
    }

    function Extract(): T
      requires Ok?
    {
      value
    }
  }

  /** What `current_track` reports. Lengths and positions are in milliseconds; the playlist index starts from zero. */
  datatype CurrentTrack = CurrentTrack(
    title: string, sampleRate: int, bitrate: int, channels: int,
    length: int, currentPosition: int, playlistPosition: int)

  /** `get_playlist`'s filter: a track line is non-empty and is not a '#' comment. */
  predicate IsTrackLine(line: string)
  {
    line != "" && line[0] != '#'
  }

  /**
   * `get_playlist` (a static method): the track lines of the decoded playlist
   * file, in file order.
   */
  function GetPlaylist(lines: seq<string>): (r: seq<string>)
    ensures |r| <= |lines|
    ensures forall k :: 0 <= k < |r| ==> IsTrackLine(r[k])
    ensures forall line :: line in lines && IsTrackLine(line) ==> line in r
  {
    if lines == [] then []
    else (if IsTrackLine(lines[0]) then [lines[0]] else []) + GetPlaylist(lines[1..])
  }

  /** The filter keeps order: filtering a concatenation concatenates the filtered parts. */
  lemma {:induction false} GetPlaylistAppend(a: seq<string>, b: seq<string>)
    ensures GetPlaylist(a + b) == GetPlaylist(a) + GetPlaylist(b)
  {
    if a != [] {
      assert (a + b)[0] == a[0];
      assert (a + b)[1..] == a[1..] + b;
      GetPlaylistAppend(a[1..], b);
    } else {
      assert a + b == b;
    }
  }

  /** Each track line is kept as often as it occurs, and every other line is dropped. */
  lemma {:induction false} GetPlaylistCount(lines: seq<string>, line: string)
    ensures multiset(GetPlaylist(lines))[line] == if IsTrackLine(line) then multiset(lines)[line] else 0
  {
    if lines != [] {
      GetPlaylistCount(lines[1..], line);
      assert lines == [lines[0]] + lines[1..];
    }
  }

  /** Filtering twice is filtering once. */
  lemma {:induction false} GetPlaylistIdempotent(lines: seq<string>)
    ensures GetPlaylist(GetPlaylist(lines)) == GetPlaylist(lines)
  {
    if lines != [] {
      var head := if IsTrackLine(lines[0]) then [lines[0]] else [];
      GetPlaylistAppend(head, GetPlaylist(lines[1..]));
      GetPlaylistIdempotent(lines[1..]);
      assert GetPlaylist(head) == head;
    }
  }

  // ---------------------------------------------------------------------------
  // The controller

  class Winamp {
    /** The player window's id as `FindWindow` returned it; zero when no player was found. */
    var windowId: int
    /** The version string fetched when connecting. */
    var version: string

    /** The state between `__init__`'s first lines and its call of `connect`: no window, no version. */
    constructor Unconnected()
      ensures windowId == 0 && version == ""
    {
      windowId := 0;
      version := "";
    }

    /** `Winamp()`: connect to the window found, failing with ConnectionError when none was. */
    static method Open(found: int, send: Transport) returns (r: Result<Winamp>)
      ensures r.Err? <==> found == 0
      ensures r.Err? ==> r.error == ConnectionError
      ensures r.Ok? ==> (fresh(r.value) && r.value.windowId == found &&
        r.value.version == DecodeVersion(send(Message(found, WM_USER, 0, WinampVersion.Code()))))
    {
      var w := new Winamp.Unconnected();
      var connected := w.Connect(found, send);
      if connected.Err? {
        return Err(connected.error);
      }
      return Ok(w);
    }

    /** `connect`: take the window found, then fetch the version; the version stays as it was when that raises. */
    method Connect(found: int, send: Transport) returns (r: Result<()>)
      modifies this
      ensures windowId == found
      ensures r.Err? <==> found == 0
      ensures r.Err? ==> r.error == ConnectionError && version == old(version)
      ensures r.Ok? ==> version == DecodeVersion(send(Message(found, WM_USER, 0, WinampVersion.Code())))
    {
      windowId := found;
      var fetched := FetchVersion(send);
      if fetched.Err? {
        return Err(fetched.error);
      }
      version := fetched.value;
      return Ok(());
    }

    /** `__ensure_connection`: raises ConnectionError exactly when the window id is zero. */
    function EnsureConnection(): (r: Result<()>)
      reads this
      ensures r.Err? <==> windowId == 0
      ensures r.Err? ==> r.error == ConnectionError
    {
      if windowId == 0 then Err(ConnectionError) else Ok(())
    }

    /** The player's reply to a user command with `data`, as the accessors receive it. */
    function UserReply(send: Transport, command: UserCommand, data: int): int
      reads this
    {
      send(Message(windowId, WM_USER, data, command.Code()))
    }

    /** `send_command`: WM_COMMAND with the command id as wParam and 0 as lParam. */
    function SendCommand(command: MenuArg, send: Transport): (r: Result<int>)
      reads this
      ensures r.Err? <==> windowId == 0
      ensures r.Err? ==> r.error == ConnectionError
      ensures r.Ok? ==> r.value == send(Message(windowId, WM_COMMAND, command.Id(), 0))
    {
      var _ :- EnsureConnection();
      Ok(send(Message(windowId, WM_COMMAND, command.Id(), 0)))
    }

    /** `send_user_command`: WM_USER with `data` as wParam and the command id as lParam. */
    function SendUserCommand(command: UserArg, data: int, send: Transport): (r: Result<int>)
      reads this
      ensures r.Err? <==> windowId == 0
      ensures r.Err? ==> r.error == ConnectionError
      ensures r.Ok? ==> r.value == send(Message(windowId, WM_USER, data, command.Id()))
    {
      var _ :- EnsureConnection();
      Ok(send(Message(windowId, WM_USER, data, command.Id())))
    }

    /** The `version` property: the stored version, behind the connection guard. */
    function Version(): (r: Result<string>)
      reads this
      ensures r.Err? <==> windowId == 0
      ensures r.Err? ==> r.error == ConnectionError
      ensures r.Ok? ==> r.value == version
    {
      var _ :- EnsureConnection();
      Ok(version)
    }

    /** `get_track_title`: the window text, behind the connection guard. */
    function GetTrackTitle(windowText: int -> string): (r: Result<string>)
      reads this
      ensures r.Err? <==> windowId == 0
      ensures r.Err? ==> r.error == ConnectionError
      ensures r.Ok? ==> r.value == windowText(windowId)
    {
      var _ :- EnsureConnection();
      Ok(windowText(windowId))
    }

    /** `fetch_version`: the version reply decoded from its hexadecimal form. */
    function FetchVersion(send: Transport): (r: Result<string>)
      reads this
      ensures r.Err? <==> windowId == 0
      ensures r.Err? ==> r.error == ConnectionError
      ensures r.Ok? ==> r.value == DecodeVersion(UserReply(send, WinampVersion, 0))
    {
      var reply :- SendUserCommand(User(WinampVersion), 0, send);
      Ok(DecodeVersion(reply))
    }

    /** `get_playing_status`: 1 is Playing, 3 is Paused, and every other reply is Stopped. */
    function GetPlayingStatus(send: Transport): (r: Result<PlayingStatus>)
      reads this
      ensures r.Err? <==> windowId == 0
      ensures r.Err? ==> r.error == ConnectionError
      ensures r.Ok? ==> (r.value == Playing <==> UserReply(send, PlayingStatusQuery, 0) == 1)
      ensures r.Ok? ==> (r.value == Paused <==> UserReply(send, PlayingStatusQuery, 0) == 3)
      ensures r.Ok? ==> (r.value == Stopped <==> UserReply(send, PlayingStatusQuery, 0) !in {1, 3})
    {
      var reply :- SendUserCommand(RawUser(104), 0, send);
      Ok(StatusFromReply(reply))
    }

    /**
     * `get_track_status`: (length, position) in milliseconds. The length query
     * (data 1) answers in seconds and is scaled by 1000; the position query
     * (data 0) answers in milliseconds. The empty-playlist reply to the length
     * query raises NoTrackSelectedError.
     */
    function GetTrackStatus(send: Transport): (r: Result<(int, int)>)
      reads this
      ensures windowId == 0 ==> r == Err(ConnectionError)
      ensures windowId != 0 ==>
        (r == Err(NoTrackSelected) <==> UserReply(send, TrackStatus, 1) == NO_TRACK_SELECTED)
      ensures windowId != 0 && UserReply(send, TrackStatus, 1) != NO_TRACK_SELECTED ==> r.Ok?
      ensures r.Ok? ==> r.value.0 == UserReply(send, TrackStatus, 1) * 1000
      ensures r.Ok? ==> r.value.1 == UserReply(send, TrackStatus, 0)
    {
      var position :- SendUserCommand(User(TrackStatus), 0, send);
      // Connected by now, so the second query cannot raise.
      var length := SendUserCommand(User(TrackStatus), 1, send).value;
      if length == NO_TRACK_SELECTED then Err(NoTrackSelected)
      else Ok((length * 1000, position))
    }

    /** `change_track`: the ChangeTrack query with the track number as data. */
    function ChangeTrackTo(trackNumber: int, send: Transport): (r: Result<int>)
      reads this
      ensures r.Err? <==> windowId == 0
      ensures r.Err? ==> r.error == ConnectionError
      ensures r.Ok? ==> r.value == send(Message(windowId, WM_USER, trackNumber, 121))
    {
      SendUserCommand(User(ChangeTrack), trackNumber, send)
    }

    /** `get_playlist_position`: None exactly for the empty-playlist reply, otherwise the reply itself. */
    function GetPlaylistPosition(send: Transport): (r: Result<Option<int>>)
      reads this
      ensures r.Err? <==> windowId == 0
      ensures r.Err? ==> r.error == ConnectionError
      ensures r.Ok? ==> (r.value == None <==> UserReply(send, PlaylistPosition, 0) == NO_TRACK_SELECTED)
      ensures r.Ok? && r.value.Some? ==> r.value.value == UserReply(send, PlaylistPosition, 0)
    {
      var position :- SendUserCommand(User(PlaylistPosition), 0, send);
      if position == NO_TRACK_SELECTED then Ok(None) else Ok(Some(position))
    }

    /** `seek_track`: the SeekTrack reply, or NoTrackSelectedError for the empty-playlist reply. */
    function SeekTrackTo(position: int, send: Transport): (r: Result<int>)
      reads this
      ensures windowId == 0 ==> r == Err(ConnectionError)
      ensures windowId != 0 ==>
        (r == Err(NoTrackSelected) <==> send(Message(windowId, WM_USER, position, 106)) == NO_TRACK_SELECTED)
      ensures windowId != 0 && send(Message(windowId, WM_USER, position, 106)) != NO_TRACK_SELECTED ==> r.Ok?
      ensures r.Ok? ==> r.value == send(Message(windowId, WM_USER, position, 106)) != NO_TRACK_SELECTED
    {
      var reply :- SendUserCommand(User(SeekTrack), position, send);
      if reply == NO_TRACK_SELECTED then Err(NoTrackSelected) else Ok(reply)
    }

    /**
     * `set_volume`: a level outside [0, 255] raises ValueError before anything
     * is sent, connected or not; a level inside is sent as data of SetVolume.
     */
    function SetVolumeTo(level: int, send: Transport): (r: Result<int>)
      reads this
      ensures r == Err(ValueError) <==> level < 0 || level > 255
      ensures 0 <= level <= 255 && windowId == 0 ==> r == Err(ConnectionError)
      ensures 0 <= level <= 255 && windowId != 0 ==> r.Ok?
      ensures r.Ok? ==> 0 <= level <= 255 && r.value == send(Message(windowId, WM_USER, level, 122))
    {
      if level < 0 || level > 255 then Err(ValueError)
      else SendUserCommand(User(SetVolume), level, send)
    }

    /** `get_playlist_length`. */
    function GetPlaylistLength(send: Transport): (r: Result<int>)
      reads this
      ensures r.Err? <==> windowId == 0
      ensures r.Err? ==> r.error == ConnectionError
      ensures r.Ok? ==> r.value == send(Message(windowId, WM_USER, 0, 124))
    {
      SendUserCommand(User(PlaylistLength), 0, send)
    }

    /** `get_track_info`: (sample rate, bitrate, channels), from data 0, 1 and 2; all three zero raises. */
    function GetTrackInfo(send: Transport): (r: Result<(int, int, int)>)
      reads this
      ensures windowId == 0 ==> r == Err(ConnectionError)
      ensures windowId != 0 ==> (r == Err(NoTrackSelected) <==>
        UserReply(send, TrackInfo, 0) == 0 && UserReply(send, TrackInfo, 1) == 0 && UserReply(send, TrackInfo, 2) == 0)
      ensures windowId != 0 ==> (r.Ok? || r == Err(NoTrackSelected))
      ensures r.Ok? ==> r.value == (UserReply(send, TrackInfo, 0), UserReply(send, TrackInfo, 1), UserReply(send, TrackInfo, 2))
    {
      var sampleRate :- SendUserCommand(User(TrackInfo), 0, send);
      // Connected by now, so the other two queries cannot raise.
      var bitrate := SendUserCommand(User(TrackInfo), 1, send).value;
      var channels := SendUserCommand(User(TrackInfo), 2, send).value;
      if sampleRate == 0 && bitrate == 0 && channels == 0 then Err(NoTrackSelected)
      else Ok((sampleRate, bitrate, channels))
    }

    /** `dump_playlist`: the DumpPlaylist reply (the current playlist position). */
    function DumpPlaylistNow(send: Transport): (r: Result<int>)
      reads this
      ensures r.Err? <==> windowId == 0
      ensures r.Err? ==> r.error == ConnectionError
      ensures r.Ok? ==> r.value == send(Message(windowId, WM_USER, 0, 120))
    {
      SendUserCommand(User(DumpPlaylist), 0, send)
    }

    /**
     * The `current_track` property as written: any falsy playlist position,
     * None or 0, gives None; otherwise title, status and info are read, and
     * their errors propagate.
     */
    function GetCurrentTrack(send: Transport, windowText: int -> string): (r: Result<Option<CurrentTrack>>)
      reads this
      ensures windowId == 0 ==> r == Err(ConnectionError)
      ensures windowId != 0 ==> (r == Ok(None) <==>
        UserReply(send, PlaylistPosition, 0) in {NO_TRACK_SELECTED, 0})
      ensures windowId != 0 && UserReply(send, PlaylistPosition, 0) !in {NO_TRACK_SELECTED, 0} ==>
        (r.Ok? <==> TrackLoaded(send))
      ensures r.Err? ==> r.error in {ConnectionError, NoTrackSelected}
      ensures windowId != 0 && r.Err? ==> r.error == NoTrackSelected
      ensures r.Ok? && r.value.Some? ==> CurrentTrackRead(r.value.value, send, windowText)
    {
      var position :- GetPlaylistPosition(send);
      if position.None? || position.value == 0 then Ok(None)
      else
        // Connected by now, so reading the title cannot raise.
        var title := GetTrackTitle(windowText).value;
        var status :- GetTrackStatus(send);
        var info :- GetTrackInfo(send);
        Ok(Some(CurrentTrack(title, info.0, info.1, info.2, status.0, status.1, position.value)))
    }

    /** `current_track` with the evident intent: None only when no track is selected. */
    function GetCurrentTrackCorrected(send: Transport, windowText: int -> string): (r: Result<Option<CurrentTrack>>)
      reads this
      ensures windowId == 0 ==> r == Err(ConnectionError)
      ensures windowId != 0 ==> (r == Ok(None) <==> UserReply(send, PlaylistPosition, 0) == NO_TRACK_SELECTED)
      ensures windowId != 0 && UserReply(send, PlaylistPosition, 0) != NO_TRACK_SELECTED ==>
        (r.Ok? <==> TrackLoaded(send))
      ensures r.Err? ==> r.error in {ConnectionError, NoTrackSelected}
      ensures windowId != 0 && r.Err? ==> r.error == NoTrackSelected
      ensures r.Ok? && r.value.Some? ==> CurrentTrackRead(r.value.value, send, windowText)
    {
      var position :- GetPlaylistPosition(send);
      if position.None? then Ok(None)
      else
        // Connected by now, so reading the title cannot raise.
        var title := GetTrackTitle(windowText).value;
        var status :- GetTrackStatus(send);
        var info :- GetTrackInfo(send);
        Ok(Some(CurrentTrack(title, info.0, info.1, info.2, status.0, status.1, position.value)))
    }

    /** `get_track_status` and `get_track_info` both succeed: a length is reported and the info is not all zero. */
    predicate TrackLoaded(send: Transport)
      reads this
    {
      UserReply(send, TrackStatus, 1) != NO_TRACK_SELECTED &&
      !(UserReply(send, TrackInfo, 0) == 0 && UserReply(send, TrackInfo, 1) == 0 && UserReply(send, TrackInfo, 2) == 0)
    }

    /** Every field of `t` is what the accessors read from the player. */
    ghost predicate CurrentTrackRead(t: CurrentTrack, send: Transport, windowText: int -> string)
      reads this
    {
      t.title == windowText(windowId) &&
      t.playlistPosition == UserReply(send, PlaylistPosition, 0) &&
      t.length == UserReply(send, TrackStatus, 1) * 1000 &&
      t.currentPosition == UserReply(send, TrackStatus, 0) &&
      t.sampleRate == UserReply(send, TrackInfo, 0) &&
      t.bitrate == UserReply(send, TrackInfo, 1) &&
      t.channels == UserReply(send, TrackInfo, 2)
    }
  }

  /**
   * With the first playlist entry selected and a track loaded, `current_track`
   * reports no track, while the corrected version reports that entry.
   */
  lemma FirstEntryReportedAsNone(w: Winamp, send: Transport, windowText: int -> string)
    requires w.windowId != 0
    requires w.UserReply(send, PlaylistPosition, 0) == 0
    requires w.UserReply(send, TrackStatus, 1) != NO_TRACK_SELECTED
    requires w.UserReply(send, TrackInfo, 0) != 0
    ensures w.GetCurrentTrack(send, windowText) == Ok(None)
    ensures w.GetCurrentTrackCorrected(send, windowText).Ok?
    ensures w.GetCurrentTrackCorrected(send, windowText).value.Some?
    ensures w.GetCurrentTrackCorrected(send, windowText).value.value.playlistPosition == 0
  {
  }

  /** 125 seconds of track length are reported as 125000 milliseconds. */
  lemma TrackLengthInMilliseconds(w: Winamp, send: Transport)
    requires w.windowId != 0
    requires w.UserReply(send, TrackStatus, 1) == 125
    ensures w.GetTrackStatus(send).Ok? && w.GetTrackStatus(send).value.0 == 125000
  {
  }
}
