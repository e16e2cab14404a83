/**
 * The polling loop both presence scripts run (main.py and the older rp.py):
 * clear the presence when the player pauses or stops, and send an update
 * when a new title plays. The two scripts differ only in what `update_rpc`
 * sends for a title, which is the parameter `present` here: the payload for
 * the tick's readings, or None when parsing the title raises.
 *
 * The scripts keep two module globals, the last title seen and whether the
 * presence is cleared; here they are the fields of `Engine`.
 */
module PresenceLoop {
  import opened Wrappers
  import opened Presence
  import opened Sequences

  /**
   * One tick's readings: the status string ("playing", "paused", "stopped"),
   * the window title, the playlist index, the track position in milliseconds,
   * the clock in milliseconds, the album directory name of the current track
   * and the player version.
   */
  datatype Poll = Poll(
    status: string, title: string, trackPos: int, positionMs: int, nowMs: int, albumName: string, version: string)

  /** What a script's `update_rpc` sends for a tick's readings, or None when it raises. */
  type Presenter = Poll -> Option<Payload>

  /** The two globals: the last title seen and whether the presence is cleared. */
  datatype SyncState = SyncState(previousTrack: string, cleared: bool)

  /** A cleared presence has forgotten the last title. */
  predicate ClearedForgets(s: SyncState)
  {
    s.cleared ==> s.previousTrack == ""
  }

  /** `update_rpc`: a title unlike the last one is remembered, parsed and sent. */
  function UpdateStep(s: SyncState, p: Poll, present: Presenter): (r: (SyncState, Action))
    ensures r.1 == NoCall <==> p.title == s.previousTrack
    ensures r.1 != NoCall ==> r.0.previousTrack == p.title
    ensures r.1.Crash? <==> p.title != s.previousTrack && present(p).None?
    ensures r.1 != Clear
  {
    if p.title != s.previousTrack then
      match present(p)
      case None => (SyncState(p.title, s.cleared), Crash)
      case Some(payload) => (SyncState(p.title, false), Update(payload))
    else (s, NoCall)
  }

  /**
   * One pass of the `while True` loop. The condition reads as
   * `paused or (stopped and not cleared)`.
   */
  function Step(s: SyncState, p: Poll, present: Presenter): (r: (SyncState, Action))
    ensures r.1 == Clear <==> p.status == "paused" || (p.status == "stopped" && !s.cleared)
    ensures r.1 != NoCall && r.1 != Clear ==> p.status == "playing"
  {
    if p.status == "paused" || (p.status == "stopped" && !s.cleared) then (SyncState("", true), Clear)
    else if p.status == "playing" then UpdateStep(s, p, present)
    else (s, NoCall)
  }

  /** The loop run over a sequence of ticks: the final state and the calls made; a crash ends it. */
  function Replay(s: SyncState, polls: seq<Poll>, present: Presenter): (r: (SyncState, seq<Action>))
    decreases |polls|
    ensures |r.1| <= |polls|
    ensures polls != [] ==> |r.1| > 0
    ensures |r.1| < |polls| ==> r.1[|r.1| - 1].Crash?
    ensures forall k :: 0 <= k < |r.1| - 1 ==> !r.1[k].Crash?
  {
    if polls == [] then (s, [])
    else
      var (s', a) := Step(s, polls[0], present);
      if a.Crash? then (s', [a])
      else
        var (final, rest) := Replay(s', polls[1..], present);
        (final, [a] + rest)
  }

  /** Paused clears on every tick, whether or not the presence is already cleared. */
  lemma PausedClearsEveryTick(s: SyncState, p: Poll, present: Presenter)
    requires p.status == "paused"
    ensures Step(s, p, present) == (SyncState("", true), Clear)
  {
  }

  /** Stopped clears only a presence that is not cleared yet, and otherwise changes nothing. */
  lemma StoppedClearsOnce(s: SyncState, p: Poll, present: Presenter)
    requires p.status == "stopped"
    ensures Step(s, p, present) == if s.cleared then (s, NoCall) else (SyncState("", true), Clear)
  {
  }

  /**
   * While playing, a call happens exactly when the title differs from the
   * last one; the title is then remembered, and an update un-clears.
   */
  lemma PlayingDebounces(s: SyncState, p: Poll, present: Presenter)
    requires p.status == "playing"
    ensures Step(s, p, present).1 == NoCall <==> p.title == s.previousTrack
    ensures p.title == s.previousTrack ==> Step(s, p, present).0 == s
    ensures p.title != s.previousTrack ==> Step(s, p, present).0.previousTrack == p.title
    ensures Step(s, p, present).1.Update? ==> !Step(s, p, present).0.cleared
    ensures Step(s, p, present).1.Crash? <==> p.title != s.previousTrack && present(p).None?
  {
  }

  /** Any other status leaves everything as it is. */
  lemma OtherStatusIgnored(s: SyncState, p: Poll, present: Presenter)
    requires p.status !in {"playing", "paused", "stopped"}
    ensures Step(s, p, present) == (s, NoCall)
  {
  }

  /** The cleared flag says whether the last call was a clear: set by Clear, reset by Update, kept otherwise. */
  lemma ClearedFlagFollowsCalls(s: SyncState, p: Poll, present: Presenter)
    ensures Step(s, p, present).0.cleared == (Step(s, p, present).1 == Clear || (s.cleared && !Step(s, p, present).1.Update?))
  {
  }

  /** A tick that does not crash keeps `ClearedForgets`. */
  lemma StepKeepsClearedForgets(s: SyncState, p: Poll, present: Presenter)
    requires ClearedForgets(s)
    requires !Step(s, p, present).1.Crash?
    ensures ClearedForgets(Step(s, p, present).0)
  {
  }

  /** `ClearedForgets` holds through any run that does not crash. */
  lemma {:induction false} ReplayKeepsClearedForgets(s: SyncState, polls: seq<Poll>, present: Presenter)
    requires ClearedForgets(s)
    requires Crash !in Replay(s, polls, present).1
    decreases |polls|
    ensures ClearedForgets(Replay(s, polls, present).0)
  {
    if polls != [] {
      ReplayUnfold(s, polls, present);
      var s' := Step(s, polls[0], present).0;
      StepKeepsClearedForgets(s, polls[0], present);
      ReplayKeepsClearedForgets(s', polls[1..], present);
    }
  }

  /** The first tick of a run, and the rest of the run from the state that tick leaves. */
  lemma ReplayUnfold(s: SyncState, polls: seq<Poll>, present: Presenter)
    requires polls != []
    ensures Replay(s, polls, present).1[0] == Step(s, polls[0], present).1
    ensures Step(s, polls[0], present).1.Crash? ==> Replay(s, polls, present) == (Step(s, polls[0], present).0, [Step(s, polls[0], present).1])
    ensures !Step(s, polls[0], present).1.Crash? ==>
      var rest := Replay(Step(s, polls[0], present).0, polls[1..], present);
      Replay(s, polls, present) == (rest.0, [Step(s, polls[0], present).1] + rest.1)
  {
  }

  /** An update is made only while playing, for a title unlike the last one, which it then remembers. */
  lemma UpdateMeansNewTitle(s: SyncState, p: Poll, present: Presenter)
    requires Step(s, p, present).1.Update?
    ensures p.status == "playing" && p.title != s.previousTrack
    ensures Step(s, p, present).0.previousTrack == p.title
  {
  }

  /**
   * The debounce over a whole run: two updates in a row come from two ticks
   * in a row whose titles differ. A title repeated on the next tick is never
   * sent twice.
   */
  lemma {:induction false} UpdatesNeedNewTitle(s: SyncState, polls: seq<Poll>, present: Presenter, k: nat)
    requires k + 1 < |Replay(s, polls, present).1|
    requires Replay(s, polls, present).1[k].Update? && Replay(s, polls, present).1[k + 1].Update?
    decreases |polls|
    ensures polls[k].title != polls[k + 1].title
  {
    if k == 0 {
      FirstTwoUpdates(s, polls, present);
    } else {
      var s' := ReplayTail(s, polls, present);
      UpdatesNeedNewTitle(s', polls[1..], present, k - 1);
      assert polls[1..][k - 1] == polls[k] && polls[1..][k] == polls[k + 1];
    }
  }

  /** A run that goes on past its first tick continues as the run of the rest from the state that tick leaves. */
  lemma ReplayTail(s: SyncState, polls: seq<Poll>, present: Presenter) returns (s': SyncState)
    requires |Replay(s, polls, present).1| >= 2
    ensures s' == Step(s, polls[0], present).0
    ensures Replay(s, polls, present).1[1..] == Replay(s', polls[1..], present).1
  {
    ReplayUnfold(s, polls, present);
    s' := Step(s, polls[0], present).0;
  }

  /** The first two calls of a run are both updates only for two different titles. */
  lemma FirstTwoUpdates(s: SyncState, polls: seq<Poll>, present: Presenter)
    requires |Replay(s, polls, present).1| >= 2
    requires Replay(s, polls, present).1[0].Update? && Replay(s, polls, present).1[1].Update?
    ensures polls[0].title != polls[1].title
  {
    var s' := ReplayTail(s, polls, present);
    ReplayUnfold(s, polls, present);
    UpdateMeansNewTitle(s, polls[0], present);
    ReplayUnfold(s', polls[1..], present);
    assert polls[1..][0] == polls[1];
    assert Replay(s', polls[1..], present).1[0] == Replay(s, polls, present).1[1];
    UpdateMeansNewTitle(s', polls[1], present);
  }

  /** A new title that renders is sent, and un-clears the presence. */
  lemma PlayingNewTitleUpdates(s: SyncState, p: Poll, present: Presenter)
    requires p.status == "playing" && p.title != s.previousTrack && present(p).Some?
    ensures Step(s, p, present) == (SyncState(p.title, false), Update(present(p).value))
  {
  }

  /**
   * Playing a titled track, the same reading again, then pausing, from the
   * start-up state: one update, no call, one clear.
   */
  lemma PlayRepeatPauseScenario(playing: Poll, paused: Poll, present: Presenter)
    requires playing.status == "playing" && playing.title != "" && present(playing).Some?
    requires paused.status == "paused"
    ensures var actions := Replay(SyncState("", false), [playing, playing, paused], present).1;
      |actions| == 3 && actions[0].Update? && actions[1] == NoCall && actions[2] == Clear
  {
    var polls := [playing, playing, paused];
    var s0 := SyncState("", false);
    var s1 := SyncState(playing.title, false);
    PlayingNewTitleUpdates(s0, playing, present);
    RepeatThenPause(s1, playing, paused, present);
    assert polls[1..] == [playing, paused];
    ReplayUnfold(s0, polls, present);
  }

  /** The second half of the scenario above: the repeated reading makes no call, the pause clears. */
  lemma RepeatThenPause(s: SyncState, playing: Poll, paused: Poll, present: Presenter)
    requires playing.status == "playing" && playing.title == s.previousTrack
    requires paused.status == "paused"
    ensures Replay(s, [playing, paused], present).1 == [NoCall, Clear]
  {
    PlayingDebounces(s, playing, present);
    PausedClearsEveryTick(s, paused, present);
    assert [playing, paused][1..] == [paused];
    ReplayUnfold(s, [paused], present);
    ReplayUnfold(s, [playing, paused], present);
  }

  /** Two scripts whose `update_rpc` sends the same for every tick of a run behave alike over that run. */
  lemma {:induction false} ReplayAgrees(s: SyncState, polls: seq<Poll>, present: Presenter, other: Presenter)
    requires forall k :: 0 <= k < |polls| ==> present(polls[k]) == other(polls[k])
    decreases |polls|
    ensures Replay(s, polls, present) == Replay(s, polls, other)
  {
    if polls != [] {
      assert Step(s, polls[0], present) == Step(s, polls[0], other);
      ReplayAgrees(Step(s, polls[0], present).0, polls[1..], present, other);
    }
  }

  /**
   * One pass of `Engine.Run`'s loop: a run that has made `actions` and has
   * the ticks from `i` on left makes one more call; it ends there on a crash.
   */
  lemma RunAdvances(
    total: (SyncState, seq<Action>), actions: seq<Action>, s: SyncState, polls: seq<Poll>, i: nat, present: Presenter)
    requires i < |polls|
    requires total == (Replay(s, polls[i..], present).0, actions + Replay(s, polls[i..], present).1)
    ensures var (s', a) := Step(s, polls[i], present);
      if a.Crash? then total == (s', actions + [a])
      else total == (Replay(s', polls[i + 1..], present).0, (actions + [a]) + Replay(s', polls[i + 1..], present).1)
  {
    ReplayUnfold(s, polls[i..], present);
    assert polls[i..][0] == polls[i] && polls[i..][1..] == polls[i + 1..];
    var (s', a) := Step(s, polls[i], present);
    ConcatAssoc(actions, [a], Replay(s', polls[i + 1..], present).1);
  }

  // ---------------------------------------------------------------------------
  // The scripts' globals and loop

  class Engine {
    var previousTrack: string
    var cleared: bool

    /** The globals as the script initialises them. */
    constructor ()
      ensures previousTrack == "" && !cleared
    {
      previousTrack := "";
      cleared := false;
    }

    function Snapshot(): SyncState
      reads this
    {
      SyncState(previousTrack, cleared)
    }

    /** `update_rpc`. The title is remembered before parsing, so a crash leaves it remembered. */
    method UpdateRpc(p: Poll, present: Presenter) returns (action: Action)
      modifies this
      ensures (Snapshot(), action) == UpdateStep(old(Snapshot()), p, present)
    {
      action := NoCall;
      if p.title != previousTrack {
        previousTrack := p.title;
        var payload := present(p);
        if payload.None? {
          return Crash;
        }
        action := Update(payload.value);
        cleared := false;
      }
    }

    /** One pass of the loop. */
    method Tick(p: Poll, present: Presenter) returns (action: Action)
      modifies this
      ensures (Snapshot(), action) == Step(old(Snapshot()), p, present)
    {
      if p.status == "paused" || (p.status == "stopped" && !cleared) {
        action := Clear;
        previousTrack := "";
        cleared := true;
      } else if p.status == "playing" {
        action := UpdateRpc(p, present);
      } else {
        action := NoCall;
      }
    }

    /** The `while True` loop over the given ticks; the IndexError of a crash ends it. */
    method Run(polls: seq<Poll>, present: Presenter) returns (actions: seq<Action>)
      modifies this
      ensures (Snapshot(), actions) == Replay(old(Snapshot()), polls, present)
    {
      actions := [];
      var i := 0;
      assert polls[0..] == polls;
      assert [] + Replay(Snapshot(), polls, present).1 == Replay(Snapshot(), polls, present).1;
      while i < |polls|
        invariant 0 <= i <= |polls|
        invariant Replay(old(Snapshot()), polls, present) ==
          (Replay(Snapshot(), polls[i..], present).0, actions + Replay(Snapshot(), polls[i..], present).1)
      {
        ghost var before := Snapshot();
        var action := Tick(polls[i], present);
        RunAdvances(Replay(old(Snapshot()), polls, present), actions, before, polls, i, present);
        actions := actions + [action];
        if action.Crash? {
          return;
        }
        i := i + 1;
      }
      assert polls[i..] == [] && actions + [] == actions;
    }
  }
}
