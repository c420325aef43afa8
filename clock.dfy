/**
 * The client-side arithmetic over a fetched (redacted) room: remaining seconds, the colour tier,
 * the mm:ss display and the stage-online test. Every client evaluates it at
 * `serverNow = Date.now() + drift`, passed in here as an integer.
 */
module Clock {
  import opened Text
  import opened Rooms

  /** `Math.ceil(x / d)` for integer x and positive d, written with Dafny's Euclidean division. */
  function CeilDiv(x: int, d: int): int
    requires d > 0
  {
    -((-x) / d)
  }

  /**
   * The ceiling is the q with d(q - 1) < x <= dq, for negative x too. Kept apart from `CeilDiv`
   * so that its product of two variables enters only the proofs that call it.
   */
  lemma CeilDivBounds(x: int, d: int)
    requires d > 0
    ensures d * (CeilDiv(x, d) - 1) < x <= d * CeilDiv(x, d)
  {
  }

  /** The ceiling is the only integer with that property. */
  lemma CeilDivUnique(x: int, d: int, q: int)
    requires d > 0 && d * (q - 1) < x <= d * q
    ensures CeilDiv(x, d) == q
  {
    CeilDivBounds(x, d);
  }

  lemma MulMonotone(d: int, a: int, b: int)
    requires d > 0 && a <= b
    ensures d * a <= d * b
  {
  }

  lemma CeilDivExact(k: int, d: int)
    requires d > 0
    ensures CeilDiv(d * k, d) == k
  {
    CeilDivUnique(d * k, d, k);
  }

  /** A larger numerator never gives a smaller ceiling. */
  lemma CeilDivMonotone(x: int, y: int, d: int)
    requires d > 0 && x <= y
    ensures CeilDiv(x, d) <= CeilDiv(y, d)
  {
    var a, b := CeilDiv(x, d), CeilDiv(y, d);
    CeilDivBounds(x, d);
    CeilDivBounds(y, d);
    if a > b {
      MulMonotone(d, b, a - 1);
    }
  }

  /**
   * The milliseconds of the run used up at `now`: the quantity `remainFromState` subtracts from the
   * duration. Running: wall time since the start minus the paused total. Paused: the same,
   * frozen at the moment of the pause.
   */
  function ElapsedMs(v: PublicRoom, now: int): int
  {
    match v.state
    case Running => now - v.startedAtMs - v.pausedAccumMs
    case Paused =>
      var used := v.pausedAccumMs + (if v.pausedAtMs != 0 then now - v.pausedAtMs else 0);
      if v.startedAtMs != 0 then now - v.startedAtMs - used else 0
    case Idle => 0
  }

  /** `remainFromState` (and its stage twin): whole seconds left, negative in overtime. */
  function Remaining(v: PublicRoom, now: int): (sec: int)
    ensures v.state != Idle ==> 1000 * (sec - 1) < 1000 * v.durationSec - ElapsedMs(v, now) <= 1000 * sec
    ensures v.state == Idle ==> sec == v.durationSec
  {
    match v.state
    case Idle => v.durationSec
    case _ =>
      CeilDivBounds(v.durationSec * 1000 - ElapsedMs(v, now), 1000);
      CeilDiv(v.durationSec * 1000 - ElapsedMs(v, now), 1000)
  }

  /** More time used never means more time left. */
  lemma RemainingMonotone(v: PublicRoom, w: PublicRoom, t: int, u: int)
    requires v.state != Idle && w.state != Idle && v.durationSec == w.durationSec
    requires ElapsedMs(v, t) <= ElapsedMs(w, u)
    ensures Remaining(w, u) <= Remaining(v, t)
  {
    CeilDivMonotone(w.durationSec * 1000 - ElapsedMs(w, u), v.durationSec * 1000 - ElapsedMs(v, t), 1000);
  }

  /** With nothing used yet, the whole duration is left. */
  lemma RemainingWithNothingUsed(v: PublicRoom, now: int)
    requires v.state != Idle && ElapsedMs(v, now) == 0
    ensures Remaining(v, now) == v.durationSec
  {
    CeilDivExact(v.durationSec, 1000);
  }

  /** The four display colours, from calm to alarm. */
  datatype Tier = Normal | FirstWarning | SecondWarning | Overtime {
    function Rank(): nat {
      match this
      case Normal => 0
      case FirstWarning => 1
      case SecondWarning => 2
      case Overtime => 3
    }
  }

  /**
   * The colour choice of `paintAdminRemain` and `paint`: overtime at or below zero, then the second
   * warning, then the first, checked in that order; thresholds are in seconds.
   */
  function TierFor(remain: int, w1Sec: int, w2Sec: int): (t: Tier)
    ensures t == Overtime <==> remain <= 0
    ensures t == SecondWarning <==> 0 < remain <= w2Sec
    ensures t == FirstWarning <==> 0 < remain && w2Sec < remain <= w1Sec
    ensures t == Normal <==> 0 < remain && w2Sec < remain && w1Sec < remain
  {
    if remain <= 0 then Overtime
    else if remain <= w2Sec then SecondWarning
    else if remain <= w1Sec then FirstWarning
    else Normal
  }

  /** As the clock counts down the colour only escalates, whatever order the thresholds are in. */
  lemma TierEscalates(earlier: int, later: int, w1Sec: int, w2Sec: int)
    requires later <= earlier
    ensures TierFor(earlier, w1Sec, w2Sec).Rank() <= TierFor(later, w1Sec, w2Sec).Rank()
  {
  }

  /** The operator console's colour: the room's warning minutes as thresholds (`adminRender`). */
  function ConsoleTier(remain: int, v: PublicRoom): Tier
  {
    TierFor(remain, v.warn1Min * 60, v.warn2Min * 60)
  }

  /** JavaScript's `x || d` on a number: a zero falls back to `d`. */
  function OrDefault(x: int, d: int): int
  {
    if x == 0 then d else x
  }

  /** The stage colour AS WRITTEN: `paint(remain, warn1Min||10, warn2Min||5)` turns a 0 into 10 or 5. */
  function StageTierAsWritten(remain: int, v: PublicRoom): Tier
  {
    TierFor(remain, OrDefault(v.warn1Min, 10) * 60, OrDefault(v.warn2Min, 5) * 60)
  }

  /**
   * The stage colour with the fallback applied only to a missing value, as the console does;
   * the fields are always present after `load_state`, so it reads the stored minutes.
   */
  function StageTier(remain: int, v: PublicRoom): (t: Tier)
    ensures v.warn1Min <= 0 && v.warn2Min <= 0 ==> t == Normal || t == Overtime
    ensures t == ConsoleTier(remain, v)
  {
    TierFor(remain, v.warn1Min * 60, v.warn2Min * 60)
  }

  /** With both warnings set to 0 (allowed by `setSettings`), the stage as written still shows a warning colour. */
  lemma StageAsWrittenIgnoresDisabledWarnings(v: PublicRoom)
    requires v.warn1Min == 0 && v.warn2Min == 0
    ensures ConsoleTier(100, v) == Normal
    ensures StageTierAsWritten(100, v) == SecondWarning
    ensures StageTierAsWritten(400, v) == FirstWarning
  {
  }

  /** The unsigned part of `fmt`: zero-padded minutes (at least two digits), colon, two-digit seconds. */
  function MinSec(a: nat): (s: string)
    ensures |s| >= 5 && s[|s| - 3] == ':' && IsDigit(s[0])
  {
    var mm := PadZeros(Decimal(a / 60), 2);
    var ss := PadZeros(Decimal(a % 60), 2);
    DecimalLength(a % 60, 2);
    assert IsDigit(mm[0]) by {
      assert forall i :: 0 <= i < |Decimal(a / 60)| ==> IsDigit(Decimal(a / 60)[i]);
    }
    mm + ":" + ss
  }

  /** `fmt`: a minus sign in overtime, then the magnitude as mm:ss. */
  function Fmt(sec: int): (s: string)
    ensures |s| >= 5 && s[|s| - 3] == ':'
    ensures (sec < 0) <==> s[0] == '-'
  {
    (if sec < 0 then "-" else "") + MinSec(if sec < 0 then -sec else sec)
  }

  /** How a reader turns `mm:ss` into seconds. */
  function ReadMinSec(body: string): int
  {
    if |body| >= 3 then 60 * Value(body[..|body| - 3]) + Value(body[|body| - 2..]) else 0
  }

  /** How a reader turns `[-]mm:ss` back into seconds. */
  function ReadClock(s: string): int
  {
    if |s| > 0 && s[0] == '-' then -ReadMinSec(s[1..]) else ReadMinSec(s)
  }

  /** Reading `mm:ss` splits at the colon three places from the end. */
  lemma ReadJoined(mm: string, ss: string)
    requires |ss| == 2
    ensures ReadMinSec(mm + ":" + ss) == 60 * Value(mm) + Value(ss)
  {
    var body := mm + ":" + ss;
    assert body[..|body| - 3] == mm;
    assert body[|body| - 2..] == ss;
  }

  lemma ReadMinSecRoundTrip(a: nat)
    ensures ReadMinSec(MinSec(a)) == a
  {
    DecimalLength(a % 60, 2);
    ValueOfPadded(a / 60, 2);
    ValueOfPadded(a % 60, 2);
    ReadJoined(PadZeros(Decimal(a / 60), 2), PadZeros(Decimal(a % 60), 2));
  }

  /** The display loses nothing: reading `fmt(x)` gives back x, overtime included. */
  lemma FmtRoundTrip(sec: int)
    ensures ReadClock(Fmt(sec)) == sec
  {
    var a: nat := if sec < 0 then -sec else sec;
    ReadMinSecRoundTrip(a);
    var s := Fmt(sec);
    if sec < 0 {
      assert s[1..] == MinSec(a);
    } else {
      assert s == MinSec(a);
    }
  }

  /** `Date.now() + CLOCK_DRIFT_MS`: the local clock corrected to the server's. */
  function ServerNow(localNowMs: int, driftMs: int): int
  {
    localNowMs + driftMs
  }

  /** `updateDrift`: a positive server time resets the drift to server minus local; anything else keeps it. */
  function UpdateDrift(drift: int, serverNowMs: int, localNowMs: int): (d: int)
    ensures serverNowMs > 0 ==> localNowMs + d == serverNowMs
    ensures serverNowMs <= 0 ==> d == drift
  {
    if serverNowMs > 0 then serverNowMs - localNowMs else drift
  }

  /** The liveness window: a heartbeat within the last 6 seconds. */
  const OnlineWindowMs := 6000

  /** The console's online test: a heartbeat was seen and it is less than 6 s old in server time. */
  function StageOnline(lastSeenSec: int, serverNowMs: int): bool
  {
    lastSeenSec != 0 && serverNowMs - lastSeenSec * 1000 < OnlineWindowMs
  }

  /**
   * A heartbeat stamped at server time `hbMs` (stored in whole seconds) keeps the stage online for
   * the next 5 s at least and at most 6 s.
   */
  lemma HeartbeatOnlineWindow(hbMs: int, serverNowMs: int)
    requires hbMs >= 1000
    ensures hbMs <= serverNowMs < hbMs + 5000 ==> StageOnline(hbMs / 1000, serverNowMs)
    ensures serverNowMs >= hbMs + OnlineWindowMs ==> !StageOnline(hbMs / 1000, serverNowMs)
  {
  }

  /**
   * Two clients whose drifts came from the same server reply (whatever drift each held before, and
   * whatever their local clocks read) evaluate the same remaining time then and at every later
   * moment: `e` milliseconds later both read the server's clock `e` later.
   */
  lemma DriftCorrectedClientsAgree(v: PublicRoom, serverNowMs: int, drift1: int, local1: int,
                                   drift2: int, local2: int, e: int)
    requires serverNowMs > 0
    ensures var d1, d2 := UpdateDrift(drift1, serverNowMs, local1), UpdateDrift(drift2, serverNowMs, local2);
            ServerNow(local1 + e, d1) == ServerNow(local2 + e, d2) == serverNowMs + e &&
            Remaining(v, ServerNow(local1 + e, d1)) == Remaining(v, ServerNow(local2 + e, d2)) ==
            Remaining(v, serverNowMs + e)
  {
  }
}
