/**
 * The browser side: the operator console's polling view with its automatic warning prompts, and
 * the stage display's render loop with its start acknowledgement. Clocks are the local
 * `Date.now()` passed in as integers; the server replies are passed in as redacted rooms.
 */
module Client {
  import opened Common
  import opened Rooms
  import opened Clock

  /** The console's crossing latch: the remaining seconds seen on the last frame, and which prompts went out. */
  datatype Latch = Latch(last: Option<int>, sent1: bool, sent2: bool)

  /** The latch after an idle frame, a start, a reset or a settings save: nothing seen, nothing sent. */
  const Unarmed := Latch(None, false, false)

  datatype Threshold = First | Second

  /** An automatic stage message, "n minutes left", sent when the countdown crosses a threshold. */
  datatype Prompt = Prompt(which: Threshold, minutes: int)

  /** The threshold in minutes, `warnNMin || 0`. */
  function WarnMin(which: Threshold, v: PublicRoom): int
  {
    match which
    case First => v.warn1Min
    case Second => v.warn2Min
  }

  function Sent(which: Threshold, l: Latch): bool
  {
    match which
    case First => l.sent1
    case Second => l.sent2
  }

  /** The countdown crossed `w` seconds between the last frame and this one (a threshold of 0 is off). */
  predicate Crosses(last: Option<int>, remain: int, w: int)
  {
    last.Some? && last.value > w && remain <= w && w > 0
  }

  predicate Fires(which: Threshold, l: Latch, v: PublicRoom, remain: int)
  {
    !Sent(which, l) && Crosses(l.last, remain, WarnMin(which, v) * 60)
  }

  datatype Tick = Tick(latch: Latch, prompts: seq<Prompt>)

  function Count(which: Threshold, ps: seq<Prompt>): (n: nat)
    ensures n <= |ps|
  {
    if ps == [] then 0 else (if ps[0].which == which then 1 else 0) + Count(which, ps[1..])
  }

  lemma CountAppend(which: Threshold, a: seq<Prompt>, b: seq<Prompt>)
    ensures Count(which, a + b) == Count(which, a) + Count(which, b)
  {
    if a != [] {
      assert (a + b)[0] == a[0] && (a + b)[1..] == a[1..] + b;
      CountAppend(which, a[1..], b);
    } else {
      assert a + b == b;
    }
  }

  /**
   * `maybeAutoPrompt` on one frame: with no room loaded nothing happens; otherwise each threshold
   * not yet prompted fires when the countdown crosses it, the frame's remaining time is remembered,
   * and an idle room disarms the latch.
   */
  function AutoStep(l: Latch, st: Option<PublicRoom>, remain: int): (t: Tick)
    ensures st.None? ==> t == Tick(l, [])
    ensures st.Some? ==> forall which :: Count(which, t.prompts) == (if Fires(which, l, st.value, remain) then 1 else 0)
    ensures st.Some? ==> forall p :: p in t.prompts ==> p.minutes == WarnMin(p.which, st.value)
    ensures l.last.None? ==> t.prompts == []
    ensures st.Some? && st.value.state == Idle ==> t.latch == Unarmed
    ensures st.Some? && st.value.state != Idle ==>
              t.latch.last == Some(remain) &&
              forall which :: Sent(which, t.latch) == (Sent(which, l) || Fires(which, l, st.value, remain))
  {
    if st.None? then Tick(l, [])
    else
      var v := st.value;
      var fire1 := Fires(First, l, v, remain);
      var fire2 := Fires(Second, l, v, remain);
      var ps := (if fire1 then [Prompt(First, v.warn1Min)] else []) +
                (if fire2 then [Prompt(Second, v.warn2Min)] else []);
      var next := if v.state == Idle then Unarmed else Latch(Some(remain), l.sent1 || fire1, l.sent2 || fire2);
      Tick(next, ps)
  }

  /** The latch over a series of frames of one room, the prompts of all frames in order. */
  function RunFrames(l: Latch, v: PublicRoom, remains: seq<int>): Tick
    decreases |remains|
  {
    if remains == [] then Tick(l, [])
    else
      var t := AutoStep(l, Some(v), remains[0]);
      var rest := RunFrames(t.latch, v, remains[1..]);
      Tick(rest.latch, t.prompts + rest.prompts)
  }

  /**
   * While the room is not idle, a threshold is prompted exactly when its flag goes from unsent to
   * sent, and a sent flag stays sent.
   */
  lemma {:induction false} PromptsMatchLatch(which: Threshold, l: Latch, v: PublicRoom, remains: seq<int>)
    requires v.state != Idle
    ensures var t := RunFrames(l, v, remains);
            (Sent(which, l) ==> Sent(which, t.latch)) &&
            Count(which, t.prompts) == (if Sent(which, t.latch) && !Sent(which, l) then 1 else 0)
    decreases |remains|
  {
    if remains != [] {
      var t := AutoStep(l, Some(v), remains[0]);
      PromptsMatchLatch(which, t.latch, v, remains[1..]);
      CountAppend(which, t.prompts, RunFrames(t.latch, v, remains[1..]).prompts);
    }
  }

  /** Each threshold is prompted at most once while the room keeps running or paused, and never again once sent. */
  lemma AtMostOncePerRun(which: Threshold, l: Latch, v: PublicRoom, remains: seq<int>)
    requires v.state != Idle
    ensures Count(which, RunFrames(l, v, remains).prompts) <= 1
    ensures Sent(which, l) ==> Count(which, RunFrames(l, v, remains).prompts) == 0
  {
    PromptsMatchLatch(which, l, v, remains);
  }

  /**
   * A countdown last seen above an enabled, unsent threshold that later falls to or below it
   * gets that prompt, whatever steps it takes in between.
   */
  lemma {:induction false} CrossingIsPrompted(which: Threshold, l: Latch, v: PublicRoom, remains: seq<int>)
    requires v.state != Idle && WarnMin(which, v) > 0 && !Sent(which, l)
    requires l.last.Some? && l.last.value > WarnMin(which, v) * 60
    requires exists k :: 0 <= k < |remains| && remains[k] <= WarnMin(which, v) * 60
    ensures Sent(which, RunFrames(l, v, remains).latch)
    decreases |remains|
  {
    var t := AutoStep(l, Some(v), remains[0]);
    if remains[0] <= WarnMin(which, v) * 60 {
      PromptsMatchLatch(which, t.latch, v, remains[1..]);
    } else {
      var k :| 0 <= k < |remains| && remains[k] <= WarnMin(which, v) * 60;
      assert remains[1..][k - 1] == remains[k];
      CrossingIsPrompted(which, t.latch, v, remains[1..]);
    }
  }

  /** So a run that crosses an enabled threshold prompts it exactly once. */
  lemma CrossingPromptedExactlyOnce(which: Threshold, l: Latch, v: PublicRoom, remains: seq<int>)
    requires v.state != Idle && WarnMin(which, v) > 0 && !Sent(which, l)
    requires l.last.Some? && l.last.value > WarnMin(which, v) * 60
    requires exists k :: 0 <= k < |remains| && remains[k] <= WarnMin(which, v) * 60
    ensures Count(which, RunFrames(l, v, remains).prompts) == 1
  {
    CrossingIsPrompted(which, l, v, remains);
    PromptsMatchLatch(which, l, v, remains);
  }

  /** A console that opens when the countdown is already below a threshold never prompts it on its first frame. */
  lemma NoPromptOnFirstFrame(v: PublicRoom, remain: int)
    ensures AutoStep(Unarmed, Some(v), remain).prompts == []
  {
  }

  /** What the console shows on one frame. */
  datatype ConsoleView = ConsoleView(remain: int, clock: string, tier: Tier, online: bool, prompts: seq<Prompt>)

  /** The operator console: the polled room, the clock drift, and the auto-prompt latch (`A_state`, `A_lastRemainSec`, `A_auto1Sent`, `A_auto2Sent`). */
  class AdminConsole {
    var driftMs: int
    var state: Option<PublicRoom>
    var lastRemainSec: Option<int>
    var auto1Sent: bool
    var auto2Sent: bool

    constructor ()
      ensures driftMs == 0 && state == None && CurrentLatch() == Unarmed
    {
      driftMs := 0;
      state := None;
      lastRemainSec := None;
      auto1Sent := false;
      auto2Sent := false;
    }

    function CurrentLatch(): Latch
      reads this
    {
      Latch(lastRemainSec, auto1Sent, auto2Sent)
    }

    /** `maybeAutoPrompt(remain)`: returns the messages it sends, in order. */
    method MaybeAutoPrompt(remain: int) returns (prompts: seq<Prompt>)
      modifies this
      ensures var t := AutoStep(old(CurrentLatch()), state, remain);
              CurrentLatch() == t.latch && prompts == t.prompts
      ensures driftMs == old(driftMs) && state == old(state)
    {
      prompts := [];
      if state.None? {
        return;
      }
      var v := state.value;
      var w1 := v.warn1Min * 60;
      var w2 := v.warn2Min * 60;
      if lastRemainSec.Some? {
        if !auto1Sent && lastRemainSec.value > w1 && remain <= w1 && w1 > 0 {
          prompts := prompts + [Prompt(First, v.warn1Min)];
          auto1Sent := true;
        }
        if !auto2Sent && lastRemainSec.value > w2 && remain <= w2 && w2 > 0 {
          prompts := prompts + [Prompt(Second, v.warn2Min)];
          auto2Sent := true;
        }
      }
      lastRemainSec := Some(remain);
      if v.state == Idle {
        auto1Sent := false;
        auto2Sent := false;
        lastRemainSec := None;
      }
    }

    /**
     * One successful `adminPull`: take the server time into the drift, keep the room, and render it
     * (`adminRender`), which ends with the auto-prompt step.
     */
    method Pull(serverNowMs: int, localNowMs: int, st: PublicRoom) returns (view: ConsoleView)
      modifies this
      ensures driftMs == UpdateDrift(old(driftMs), serverNowMs, localNowMs) && state == Some(st)
      ensures view.remain == Remaining(st, ServerNow(localNowMs, driftMs))
      ensures view.clock == Fmt(view.remain)
      ensures view.tier == ConsoleTier(view.remain, st)
      ensures view.online == StageOnline(st.stage.lastSeen, ServerNow(localNowMs, driftMs))
      ensures var t := AutoStep(old(CurrentLatch()), Some(st), view.remain);
              CurrentLatch() == t.latch && view.prompts == t.prompts
    {
      ghost var latch0 := CurrentLatch();
      Sync(serverNowMs, localNowMs, st);
      assert CurrentLatch() == latch0;
      var serverNow := ServerNow(localNowMs, driftMs);
      var remain := Remaining(st, serverNow);
      var clock, tier, online := Fmt(remain), ConsoleTier(remain, st), StageOnline(st.stage.lastSeen, serverNow);
      ghost var drift1 := driftMs;
      var prompts := MaybeAutoPrompt(remain);
      assert driftMs == drift1 && state == Some(st);
      view := ConsoleView(remain, clock, tier, online, prompts);
    }

    /** The first half of `adminPull`: take the server time into the drift and keep the room. */
    method Sync(serverNowMs: int, localNowMs: int, st: PublicRoom)
      modifies this
      ensures driftMs == UpdateDrift(old(driftMs), serverNowMs, localNowMs) && state == Some(st)
      ensures CurrentLatch() == old(CurrentLatch())
    {
      if serverNowMs != 0 {
        driftMs := UpdateDrift(driftMs, serverNowMs, localNowMs);
      }
      state := Some(st);
    }

    /**
     * The start button: disarm the latch, and ask for `max(1, minutes || 40) * 60` seconds when no
     * room is loaded yet or it is idle (a paused room resumes with its own duration).
     */
    method StartPressed(durMinInput: int) returns (durationSec: Option<int>)
      modifies this
      ensures CurrentLatch() == Unarmed && driftMs == old(driftMs) && state == old(state)
      ensures state.None? || state.value.state == Idle ==> durationSec == Some(Max(1, OrDefault(durMinInput, 40)) * 60)
      ensures state.Some? && state.value.state != Idle ==> durationSec == None
    {
      var durMin := Max(1, OrDefault(durMinInput, 40));
      auto1Sent := false;
      auto2Sent := false;
      lastRemainSec := None;
      durationSec := None;
      if state.None? || state.value.state == Idle {
        durationSec := Some(durMin * 60);
      }
    }

    /** The reset button and a successful settings save disarm the latch the same way. */
    method ResetLatch()
      modifies this
      ensures CurrentLatch() == Unarmed && driftMs == old(driftMs) && state == old(state)
    {
      auto1Sent := false;
      auto2Sent := false;
      lastRemainSec := None;
    }
  }

  /** What the stage shows on one animation frame, and whether it acknowledges a start. */
  datatype StageFrame = NoRoom | Frame(remain: int, clock: string, message: string, tier: Tier, sendAck: bool)

  /** The stage display: the room from the last heartbeat reply, the drift, and whether it last saw the room running. */
  class StageDisplay {
    var driftMs: int
    var state: Option<PublicRoom>
    var lastRunning: bool

    constructor ()
      ensures driftMs == 0 && state == None && !lastRunning
    {
      driftMs := 0;
      state := None;
      lastRunning := false;
    }

    /** A successful `stagePull` (the heartbeat reply): update the drift and keep the room. */
    method Pull(serverNowMs: int, localNowMs: int, st: PublicRoom)
      modifies this
      ensures driftMs == UpdateDrift(old(driftMs), serverNowMs, localNowMs) && state == Some(st)
      ensures lastRunning == old(lastRunning)
    {
      if serverNowMs != 0 {
        driftMs := UpdateDrift(driftMs, serverNowMs, localNowMs);
      }
      state := Some(st);
    }

    /**
     * `stageRender`: the countdown, the message and the colour, plus an `ackStart` request on the
     * first frame that sees the room running.
     */
    method Render(localNowMs: int) returns (frame: StageFrame)
      modifies this
      ensures driftMs == old(driftMs) && state == old(state)
      ensures state.None? ==> frame == NoRoom && lastRunning == old(lastRunning)
      ensures state.Some? ==>
                var v := state.value;
                frame.Frame? &&
                frame.remain == Remaining(v, ServerNow(localNowMs, driftMs)) &&
                frame.clock == Fmt(frame.remain) &&
                frame.message == v.message &&
                frame.tier == StageTier(frame.remain, v) &&
                (frame.sendAck <==> v.state == Running && !old(lastRunning)) &&
                (lastRunning <==> v.state == Running)
    {
      if state.None? {
        return NoRoom;
      }
      var v := state.value;
      var remain := Remaining(v, ServerNow(localNowMs, driftMs));
      var isRunning := v.state == Running;
      var sendAck := isRunning && !lastRunning;
      lastRunning := isRunning;
      frame := Frame(remain, Fmt(remain), v.message, StageTier(remain, v), sendAck);
    }

    /** One event of `stageLoop`: a heartbeat reply or a frame, and whether it sent `ackStart`. */
    method Step(e: StageEvent) returns (ack: bool)
      modifies this
      ensures ack == AckOf(old(lastRunning), Seen(old(state)), e)
      ensures lastRunning == NextLastRunning(old(lastRunning), Seen(old(state)), e)
      ensures Seen(state) == NextSeen(Seen(old(state)), e)
    {
      match e {
        case Poll(serverNowMs, localNowMs, room) =>
          Pull(serverNowMs, localNowMs, room);
          ack := false;
        case Draw(localNowMs) =>
          var frame := Render(localNowMs);
          ack := frame.Frame? && frame.sendAck;
      }
    }

    /**
     * `stageLoop`: heartbeat replies and animation frames in the order they happen. One flag per
     * event says whether it sent `ackStart`; the flags are the rising edges `Acks` describes.
     */
    method Play(evs: seq<StageEvent>) returns (acks: seq<bool>)
      modifies this
      ensures acks == Acks(old(lastRunning), Seen(old(state)), evs)
    {
      acks := [];
      var i := 0;
      while i < |evs|
        invariant 0 <= i <= |evs|
        invariant acks + Acks(lastRunning, Seen(state), evs[i..]) == Acks(old(lastRunning), Seen(old(state)), evs)
      {
        ghost var last, seen := lastRunning, Seen(state);
        AcksUnfold(last, seen, evs, i);
        var ack := Step(evs[i]);
        AppendAssoc(acks, ack, Acks(lastRunning, Seen(state), evs[i + 1..]));
        acks := acks + [ack];
        i := i + 1;
      }
    }
  }

  /** What happens at the stage: a heartbeat reply arrives (`stagePull`) or a frame is drawn (`stageRender`). */
  datatype StageEvent = Poll(serverNowMs: int, localNowMs: int, room: PublicRoom) | Draw(localNowMs: int)

  /** The run state of the room the stage holds, if any. */
  function Seen(state: Option<PublicRoom>): Option<RunState>
  {
    if state.None? then None else Some(state.value.state)
  }

  /** Whether event `e` sends `ackStart`: a frame that sees the room running when the last frame did not. */
  function AckOf(lastRunning: bool, seen: Option<RunState>, e: StageEvent): bool
  {
    e.Draw? && seen == Some(Running) && !lastRunning
  }

  /** `S_lastRunning` after event `e`: a frame that sees a room records whether it runs. */
  function NextLastRunning(lastRunning: bool, seen: Option<RunState>, e: StageEvent): bool
  {
    if e.Draw? && seen.Some? then seen.value == Running else lastRunning
  }

  /** The run state held after event `e`: a heartbeat reply replaces the room. */
  function NextSeen(seen: Option<RunState>, e: StageEvent): Option<RunState>
  {
    if e.Poll? then Some(e.room.state) else seen
  }

  /** The `ackStart` requests of a series of events, one flag per event. */
  function Acks(lastRunning: bool, seen: Option<RunState>, evs: seq<StageEvent>): (acks: seq<bool>)
    ensures |acks| == |evs|
    decreases |evs|
  {
    if evs == [] then []
    else
      [AckOf(lastRunning, seen, evs[0])] +
      Acks(NextLastRunning(lastRunning, seen, evs[0]), NextSeen(seen, evs[0]), evs[1..])
  }

  /** The flags of the events from `i` on: the flag of event `i`, then those of the rest. */
  lemma AcksUnfold(lastRunning: bool, seen: Option<RunState>, evs: seq<StageEvent>, i: nat)
    requires i < |evs|
    ensures Acks(lastRunning, seen, evs[i..]) ==
            [AckOf(lastRunning, seen, evs[i])] +
            Acks(NextLastRunning(lastRunning, seen, evs[i]), NextSeen(seen, evs[i]), evs[i + 1..])
  {
    assert evs[i..][1..] == evs[i + 1..];
  }

  lemma AppendAssoc(a: seq<bool>, x: bool, b: seq<bool>)
    ensures (a + [x]) + b == a + ([x] + b)
  {
  }

  function AckCount(acks: seq<bool>): nat
  {
    if acks == [] then 0 else (if acks[0] then 1 else 0) + AckCount(acks[1..])
  }

  /** Every heartbeat reply in the series carries a running room. */
  predicate StaysRunning(evs: seq<StageEvent>)
  {
    forall i :: 0 <= i < |evs| && evs[i].Poll? ==> evs[i].room.state == Running
  }

  /** Some frame of the series is drawn while the stage holds a running room. */
  predicate DrawsRunning(seen: Option<RunState>, evs: seq<StageEvent>)
    decreases |evs|
  {
    evs != [] &&
    match evs[0]
    case Poll(_, _, room) => DrawsRunning(Some(room.state), evs[1..])
    case Draw(_) => seen == Some(Running) || DrawsRunning(seen, evs[1..])
  }

  /**
   * While the room stays running the stage acknowledges the start at most once, and not at all
   * when its last frame already showed the room running.
   */
  lemma {:induction false} AckOncePerStart(lastRunning: bool, seen: Option<RunState>, evs: seq<StageEvent>)
    requires StaysRunning(evs)
    ensures AckCount(Acks(lastRunning, seen, evs)) <= 1
    ensures lastRunning && (seen.None? || seen == Some(Running)) ==> AckCount(Acks(lastRunning, seen, evs)) == 0
    decreases |evs|
  {
    if evs != [] {
      var rest := evs[1..];
      assert StaysRunning(rest) by {
        forall i | 0 <= i < |rest| && rest[i].Poll? ensures rest[i].room.state == Running {
          assert rest[i] == evs[i + 1];
        }
      }
      var e := evs[0];
      assert e.Poll? ==> NextSeen(seen, e) == Some(Running);
      AckOncePerStart(NextLastRunning(lastRunning, seen, e), NextSeen(seen, e), rest);
      assert Acks(lastRunning, seen, evs)[1..] == Acks(NextLastRunning(lastRunning, seen, e), NextSeen(seen, e), rest);
    }
  }

  /**
   * Every start is acknowledged: while the room stays running, a stage whose last frame did not
   * show it running sends `ackStart` exactly once as soon as it draws the running room.
   */
  lemma {:induction false} StartAcknowledgedOnce(seen: Option<RunState>, evs: seq<StageEvent>)
    requires StaysRunning(evs) && DrawsRunning(seen, evs)
    ensures AckCount(Acks(false, seen, evs)) == 1
    decreases |evs|
  {
    var rest := evs[1..];
    assert StaysRunning(rest) by {
      forall i | 0 <= i < |rest| && rest[i].Poll? ensures rest[i].room.state == Running {
        assert rest[i] == evs[i + 1];
      }
    }
    var e := evs[0];
    assert e.Poll? ==> NextSeen(seen, e) == Some(Running);
    if AckOf(false, seen, e) {
      AckOncePerStart(true, seen, rest);
    } else {
      StartAcknowledgedOnce(NextSeen(seen, e), rest);
    }
    assert Acks(false, seen, evs)[1..] == Acks(NextLastRunning(false, seen, e), NextSeen(seen, e), rest);
  }
}
