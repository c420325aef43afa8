/**
 * The state changes the `set`, `setSettings`, `ackStart` and `hb` handlers make to a loaded room,
 * as functions of the room and the request, and what they guarantee about the remaining time
 * every client computes from the room.
 */
module Timer {
  import opened Common
  import opened Text
  import opened Rooms
  import opened Clock

  /** The `cmd` of a `set` request with the fields it reads. */
  datatype Command = Start(durationSec: Option<int>) | Pause | Reset | Message(text: string) | Unknown

  /** `switch ($cmd)`: a name other than the four known ones is a command that does nothing. */
  function ParseCommand(cmd: string, durationSec: Option<int>, text: Option<string>): (c: Command)
    ensures c.Start? <==> cmd == "start"
    ensures c.Pause? <==> cmd == "pause"
    ensures c.Reset? <==> cmd == "reset"
    ensures c.Message? <==> cmd == "message"
    ensures c.Start? ==> c.durationSec == durationSec
    ensures c.Message? ==> c.text == text.GetOr("")
  {
    if cmd == "start" then Start(durationSec)
    else if cmd == "pause" then Pause
    else if cmd == "reset" then Reset
    else if cmd == "message" then Message(text.GetOr(""))
    else Unknown
  }

  const MinDurationSec := 5
  const MaxDurationSec := 86400

  /** `start`: from idle begin a run (optionally with a new duration); from paused resume; running: ignore. */
  function StartCmd(r: Room, now: int, durationSec: Option<int>): Room
  {
    match r.state
    case Idle =>
      r.(durationSec := if durationSec.Some? then Clamp(durationSec.value, MinDurationSec, MaxDurationSec)
                        else r.durationSec,
         startedAtMs := now, pausedAccumMs := 0, pausedAtMs := 0, state := Running,
         stage := r.stage.(startedAckMs := 0))
    case Paused =>
      var add := if r.pausedAtMs != 0 then now - r.pausedAtMs else 0;
      r.(pausedAccumMs := r.pausedAccumMs + Max(0, add), pausedAtMs := 0, state := Running,
         stage := r.stage.(startedAckMs := 0))
    case Running => r
  }

  /** `pause`: only a running room pauses, remembering when. */
  function PauseCmd(r: Room, now: int): Room
  {
    if r.state == Running then r.(pausedAtMs := now, state := Paused) else r
  }

  /** `reset`: back to idle with the run fields and the stage's start acknowledgement cleared. */
  function ResetCmd(r: Room): Room
  {
    r.(state := Idle, startedAtMs := 0, pausedAccumMs := 0, pausedAtMs := 0,
       stage := r.stage.(startedAckMs := 0))
  }

  /** The characters the message filter deletes: C0 controls except TAB, LF and CR, and DEL. */
  predicate IsStrippedControl(c: char)
  {
    (0 <= c as int <= 8) || c as int == 0x0B || c as int == 0x0C || (0x0E <= c as int <= 0x1F) ||
    c as int == 0x7F
  }

  predicate KeptInMessage(c: char) { !IsStrippedControl(c) }

  const MaxMessageChars := 500

  /** The message text after the control-character filter and the 500-code-point cut. */
  function SanitizeMessage(text: string): (m: string)
    ensures |m| <= MaxMessageChars
    ensures forall i :: 0 <= i < |m| ==> !IsStrippedControl(m[i])
    ensures var kept := Filter(KeptInMessage, text);
            |m| == Min(|kept|, MaxMessageChars) && m == kept[..|m|] && (|kept| <= MaxMessageChars ==> m == kept)
    ensures (forall i :: 0 <= i < |text| ==> KeptInMessage(text[i])) && |text| <= MaxMessageChars ==> m == text
  {
    var kept := Filter(KeptInMessage, text);
    if |kept| > MaxMessageChars then kept[..MaxMessageChars] else kept
  }

  /** A sanitised message is its own sanitisation: sending it again stores the same text. */
  lemma SanitizeIdempotent(text: string)
    ensures SanitizeMessage(SanitizeMessage(text)) == SanitizeMessage(text)
  {
  }

  /** `message`: replace the text; nothing else changes. */
  function MessageCmd(r: Room, text: string): Room
  {
    r.(message := SanitizeMessage(text))
  }

  /** The whole `switch ($cmd)` at server time `now`. */
  function Apply(r: Room, c: Command, now: int): Room
  {
    match c
    case Start(d) => StartCmd(r, now, d)
    case Pause => PauseCmd(r, now)
    case Reset => ResetCmd(r)
    case Message(text) => MessageCmd(r, text)
    case Unknown => r
  }

  /**
   * `setSettings`: duration in whole minutes in [1, 720], each warning in [0, duration minutes];
   * an absent field falls back to the stored value (the duration rounded up to minutes).
   */
  function ApplySettings(r: Room, durMin: Option<int>, warn1Min: Option<int>, warn2Min: Option<int>): (s: Room)
    ensures 60 <= s.durationSec <= 43200 && s.durationSec % 60 == 0
    ensures 0 <= s.warn1Min <= s.durationSec / 60 && 0 <= s.warn2Min <= s.durationSec / 60
    ensures s.durationSec / 60 == Clamp(durMin.GetOr(CeilDiv(r.durationSec, 60)), 1, 720)
    ensures s.warn1Min == Clamp(warn1Min.GetOr(r.warn1Min), 0, s.durationSec / 60)
    ensures s.warn2Min == Clamp(warn2Min.GetOr(r.warn2Min), 0, s.durationSec / 60)
    ensures s == r.(durationSec := s.durationSec, warn1Min := s.warn1Min, warn2Min := s.warn2Min)
  {
    var dm := Clamp(durMin.GetOr(CeilDiv(r.durationSec, 60)), 1, 720);
    var w1 := Clamp(warn1Min.GetOr(r.warn1Min), 0, dm);
    var w2 := Clamp(warn2Min.GetOr(r.warn2Min), 0, dm);
    r.(durationSec := dm * 60, warn1Min := w1, warn2Min := w2)
  }

  /** Settings already in range are a fixed point of a request that supplies nothing. */
  lemma SettingsKeepConsistentRoom(r: Room)
    requires 60 <= r.durationSec <= 43200 && r.durationSec % 60 == 0
    requires 0 <= r.warn1Min <= r.durationSec / 60 && 0 <= r.warn2Min <= r.durationSec / 60
    ensures ApplySettings(r, None, None, None) == r
  {
    CeilDivExact(r.durationSec / 60, 60);
  }

  /** Re-sending the same settings changes nothing more. */
  lemma SettingsIdempotent(r: Room, durMin: Option<int>, warn1Min: Option<int>, warn2Min: Option<int>)
    ensures var s := ApplySettings(r, durMin, warn1Min, warn2Min);
            ApplySettings(s, durMin, warn1Min, warn2Min) == s
  {
    var s := ApplySettings(r, durMin, warn1Min, warn2Min);
    CeilDivExact(s.durationSec / 60, 60);
  }

  /** `ackStart`: the stage records when it saw the run start. */
  function AckStart(r: Room, nowMs: int): Room
  {
    r.(stage := r.stage.(startedAckMs := nowMs))
  }

  /** The `fs` field of `hb`: on only for `1` or a case-insensitive `true`. */
  function ParseFullscreen(fs: Option<string>): (on: bool)
    ensures on <==> fs.Some? && (fs.value == "1" ||
                                 (|fs.value| == 4 && forall i :: 0 <= i < 4 ==> LowerChar(fs.value[i]) == "true"[i]))
    ensures fs == Some("1") || fs == Some("true") || fs == Some("TRUE") ==> on
    ensures fs.None? || fs == Some("") || fs == Some("0") ==> !on
  {
    assert fs.Some? && |fs.value| == 4 && (forall i :: 0 <= i < 4 ==> LowerChar(fs.value[i]) == "true"[i]) ==>
           AsciiLower(fs.value) == "true";
    fs.Some? && (fs.value == "1" || AsciiLower(fs.value) == "true")
  }

  /** `hb`: liveness in whole server seconds and the fullscreen flag. */
  function Heartbeat(r: Room, nowSec: int, fullscreen: bool): Room
  {
    r.(stage := r.stage.(lastSeen := nowSec, fullscreen := fullscreen))
  }

  // ----- The state machine's guarantees -----

  /** The run fields agree with the run state (all timestamps positive, as server clocks are). */
  predicate WellFormed(r: Room)
  {
    r.pausedAccumMs >= 0 &&
    match r.state
    case Idle => r.startedAtMs == 0 && r.pausedAccumMs == 0 && r.pausedAtMs == 0
    case Running => r.startedAtMs > 0 && r.pausedAtMs == 0
    case Paused => r.startedAtMs > 0 && r.pausedAtMs > 0
  }

  lemma DefaultWellFormed(id: string, nowSec: int)
    ensures WellFormed(DefaultRoom(id, nowSec))
  {
  }

  /** Every command at a positive server time keeps the run fields consistent. */
  lemma ApplyKeepsWellFormed(r: Room, c: Command, now: int)
    requires WellFormed(r) && now > 0
    ensures WellFormed(Apply(r, c, now))
  {
  }

  /** Settings, acknowledgements and heartbeats leave the run fields alone. */
  lemma SideChannelsKeepRun(r: Room, d: Option<int>, w1: Option<int>, w2: Option<int>, ms: int, sec: int, fs: bool)
    ensures var rs := [ApplySettings(r, d, w1, w2), AckStart(r, ms), Heartbeat(r, sec, fs)];
            forall i :: 0 <= i < |rs| ==>
              rs[i].state == r.state && rs[i].startedAtMs == r.startedAtMs &&
              rs[i].pausedAccumMs == r.pausedAccumMs && rs[i].pausedAtMs == r.pausedAtMs
  {
  }

  /** Start from idle: a fresh run at `now`, with the supplied duration clamped into [5, 86400]. */
  lemma StartFromIdle(r: Room, now: int, d: Option<int>)
    requires r.state == Idle
    ensures var s := StartCmd(r, now, d);
            s.state == Running && s.startedAtMs == now && s.pausedAccumMs == 0 && s.pausedAtMs == 0 &&
            s.stage.startedAckMs == 0 &&
            (d.Some? ==> MinDurationSec <= s.durationSec <= MaxDurationSec &&
                         s.durationSec == Clamp(d.value, MinDurationSec, MaxDurationSec)) &&
            (d.None? ==> s.durationSec == r.durationSec) &&
            s.warn1Min == r.warn1Min && s.warn2Min == r.warn2Min && s.message == r.message &&
            s == r.(state := Running, startedAtMs := now, pausedAccumMs := 0, pausedAtMs := 0,
                    durationSec := s.durationSec, stage := r.stage.(startedAckMs := 0))
  {
  }

  /** Start while running is idempotent: nothing changes, in particular not `startedAtMs`. */
  lemma StartWhileRunning(r: Room, now: int, d: Option<int>)
    requires r.state == Running
    ensures StartCmd(r, now, d) == r
  {
  }

  /** Pause acts only on a running room. */
  lemma PauseOnlyFromRunning(r: Room, now: int)
    ensures r.state == Running ==> PauseCmd(r, now) == r.(state := Paused, pausedAtMs := now)
    ensures r.state != Running ==> PauseCmd(r, now) == r
  {
  }

  /**
   * Resume adds the paused interval (never a negative one, and nothing when no pause time was
   * recorded) to the paused total; the start time, the settings and the message stay.
   */
  lemma ResumeAccumulates(r: Room, now: int, d: Option<int>)
    requires r.state == Paused
    ensures var s := StartCmd(r, now, d);
            s.state == Running && s.pausedAtMs == 0 && s.startedAtMs == r.startedAtMs &&
            s.pausedAccumMs == r.pausedAccumMs + (if r.pausedAtMs != 0 then Max(0, now - r.pausedAtMs) else 0) &&
            s.pausedAccumMs >= r.pausedAccumMs && s.durationSec == r.durationSec &&
            s == r.(state := Running, pausedAccumMs := s.pausedAccumMs, pausedAtMs := 0,
                    stage := r.stage.(startedAckMs := 0))
  {
  }

  /** Reset from any state: idle, run fields cleared, settings and message kept. */
  lemma ResetKeepsSettings(r: Room)
    ensures var s := ResetCmd(r);
            s.state == Idle && s.startedAtMs == 0 && s.pausedAccumMs == 0 && s.pausedAtMs == 0 &&
            s.stage.startedAckMs == 0 && WellFormed(s) &&
            s.durationSec == r.durationSec && s.warn1Min == r.warn1Min && s.warn2Min == r.warn2Min &&
            s.message == r.message && s.adminKey == r.adminKey &&
            s.stage.lastSeen == r.stage.lastSeen && s.stage.fullscreen == r.stage.fullscreen
  {
  }

  /** The paused total never goes down except on reset. */
  lemma PausedTotalNeverDecreases(r: Room, c: Command, now: int)
    requires WellFormed(r) && !c.Reset?
    ensures Apply(r, c, now).pausedAccumMs >= r.pausedAccumMs
  {
  }

  /** Idle shows the duration; right after a start the whole (new) duration is left. */
  lemma RemainingAtStart(r: Room, now: int, d: Option<int>)
    requires r.state == Idle
    ensures Remaining(Redact(r), now) == r.durationSec
    ensures var s := StartCmd(r, now, d); Remaining(Redact(s), now) == s.durationSec
  {
    var s := StartCmd(r, now, d);
    RemainingWithNothingUsed(Redact(s), now);
  }

  /** While paused the display is frozen: remaining does not depend on the time. */
  lemma PausedRemainingFrozen(r: Room, t: int, u: int)
    requires WellFormed(r) && r.state == Paused
    ensures ElapsedMs(Redact(r), t) == ElapsedMs(Redact(r), u)
    ensures Remaining(Redact(r), t) == Remaining(Redact(r), u)
  {
  }

  /**
   * No time is lost or gained across a pause: remaining just before a pause, during it (at any
   * later time) and just after the resume are all equal.
   */
  lemma PauseResumeConserves(r: Room, t: int, u: int, d: Option<int>)
    requires WellFormed(r) && r.state == Running && 0 < t <= u
    ensures var p := PauseCmd(r, t);
            var q := StartCmd(p, u, d);
            Remaining(Redact(r), t) == Remaining(Redact(p), t) &&
            Remaining(Redact(p), t) == Remaining(Redact(p), u) &&
            Remaining(Redact(p), u) == Remaining(Redact(q), u)
  {
    var p := PauseCmd(r, t);
    var q := StartCmd(p, u, d);
    assert ElapsedMs(Redact(p), t) == ElapsedMs(Redact(r), t);
    assert ElapsedMs(Redact(p), u) == ElapsedMs(Redact(r), t);
    assert ElapsedMs(Redact(q), u) == ElapsedMs(Redact(r), t);
  }

  /** A room in the middle of a run (running, or paused no later than `t`). */
  predicate InRun(r: Room, t: int)
  {
    WellFormed(r) && r.state != Idle && (r.state == Paused ==> r.pausedAtMs <= t)
  }

  /** Between commands, used time grows with the clock while running and stands still while paused. */
  lemma UsedTimeBetweenCommands(r: Room, t: int, u: int)
    requires InRun(r, t) && t <= u
    ensures InRun(r, u)
    ensures r.state == Running ==> ElapsedMs(Redact(r), u) == ElapsedMs(Redact(r), t) + (u - t)
    ensures r.state == Paused ==> ElapsedMs(Redact(r), u) == ElapsedMs(Redact(r), t)
  {
  }

  /** A command other than reset, applied at `t`, does not change the used time at `t`. */
  lemma CommandKeepsUsedTime(r: Room, c: Command, t: int)
    requires InRun(r, t) && t > 0 && !c.Reset?
    ensures var s := Apply(r, c, t);
            InRun(s, t) && s.durationSec == r.durationSec &&
            ElapsedMs(Redact(s), t) == ElapsedMs(Redact(r), t)
  {
  }

  /** A timed `set` command. */
  datatype Event = Event(cmd: Command, at: int)

  function Replay(r: Room, evs: seq<Event>): Room
    decreases |evs|
  {
    if evs == [] then r else Replay(Apply(r, evs[0].cmd, evs[0].at), evs[1..])
  }

  /** Commands other than reset, at positive times in [t0, T], in time order. */
  predicate Schedule(evs: seq<Event>, t0: int, T: int)
  {
    (forall i :: 0 <= i < |evs| ==> 0 < evs[i].at && t0 <= evs[i].at <= T && !evs[i].cmd.Reset?) &&
    (forall i, j :: 0 <= i < j < |evs| ==> evs[i].at <= evs[j].at)
  }

  /**
   * For any sequence of pauses, resumes, messages and repeated starts during a run, the used time
   * grows by at least 0 and at most the wall time that passed: the countdown never gains time and
   * never loses more than the clock.
   */
  lemma {:induction false} ReplayUsedTime(r: Room, evs: seq<Event>, t0: int, T: int)
    requires InRun(r, t0) && t0 <= T && Schedule(evs, t0, T)
    ensures var f := Replay(r, evs);
            InRun(f, T) && f.durationSec == r.durationSec &&
            ElapsedMs(Redact(r), t0) <= ElapsedMs(Redact(f), T) <= ElapsedMs(Redact(r), t0) + (T - t0)
    decreases |evs|
  {
    if evs == [] {
      UsedTimeBetweenCommands(r, t0, T);
    } else {
      var e := evs[0];
      UsedTimeBetweenCommands(r, t0, e.at);
      CommandKeepsUsedTime(r, e.cmd, e.at);
      var r1 := Apply(r, e.cmd, e.at);
      assert Schedule(evs[1..], e.at, T) by {
        forall i | 0 <= i < |evs[1..]| ensures e.at <= evs[1..][i].at {
          assert evs[1..][i] == evs[i + 1];
        }
      }
      ReplayUsedTime(r1, evs[1..], e.at, T);
    }
  }

  /** Consequently the displayed remaining time never goes up during a run. */
  lemma ReplayNeverAddsTime(r: Room, evs: seq<Event>, t0: int, T: int)
    requires InRun(r, t0) && t0 <= T && Schedule(evs, t0, T)
    ensures Remaining(Redact(Replay(r, evs)), T) <= Remaining(Redact(r), t0)
  {
    ReplayUsedTime(r, evs, t0, T);
    RemainingMonotone(Redact(r), Redact(Replay(r, evs)), t0, T);
  }

  /** A 300 s start observed one second later shows 299 s. */
  lemma OneSecondIntoFiveMinutes(r: Room, now: int)
    requires r.state == Idle
    ensures Remaining(Redact(StartCmd(r, now, Some(300))), now + 1000) == 299
  {
    CeilDivUnique(299000, 1000, 299);
  }

  /** Unlike `setSettings`, a start may set a duration shorter than the stored warning minutes. */
  lemma StartMayOutrunWarnings(id: string, now: int)
    ensures var s := StartCmd(DefaultRoom(id, 0), now, Some(5));
            s.durationSec == 5 && s.warn1Min * 60 > s.durationSec
  {
  }
}
