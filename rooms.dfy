/** The persisted room document: its schema, the defaults `load_state` merges under it, and redaction. */
module Rooms {
  import opened Common

  /** The run state of the countdown. */
  datatype RunState = Idle | Running | Paused

  /** The `stage` sub-record the stage display writes through `ackStart` and `hb`. */
  datatype Stage = Stage(lastSeen: int, fullscreen: bool, startedAckMs: int)

  /** A room as the handlers see it after `load_state`: every field present. */
  datatype Room = Room(
    id: string,
    state: RunState,
    durationSec: int,
    warn1Min: int,
    warn2Min: int,
    startedAtMs: int,
    pausedAccumMs: int,
    pausedAtMs: int,
    message: string,
    stage: Stage,
    adminKey: Option<string>,
    updatedAt: int)

  /** What a reader may see: the room without its admin key (`redact_state`). */
  datatype PublicRoom = PublicRoom(
    id: string,
    state: RunState,
    durationSec: int,
    warn1Min: int,
    warn2Min: int,
    startedAtMs: int,
    pausedAccumMs: int,
    pausedAtMs: int,
    message: string,
    stage: Stage,
    updatedAt: int)

  /**
   * A decoded document file: every key may be missing (or null). `warnSec` is the legacy key that
   * older documents carry instead of `warn1Min`.
   */
  datatype StoredDoc = StoredDoc(
    id: Option<string>,
    state: Option<RunState>,
    durationSec: Option<int>,
    warn1Min: Option<int>,
    warn2Min: Option<int>,
    startedAtMs: Option<int>,
    pausedAccumMs: Option<int>,
    pausedAtMs: Option<int>,
    message: Option<string>,
    stage: Option<Stage>,
    adminKey: Option<string>,
    updatedAt: Option<int>,
    warnSec: Option<int>)

  /** A file that does not decode to an array is read as this empty document. */
  const EmptyDoc := StoredDoc(None, None, None, None, None, None, None, None, None, None, None, None, None)

  const DefaultDurationSec := 2400
  const DefaultWarn1Min := 10
  const DefaultWarn2Min := 5

  /** The room `load_state` returns for an id with no file: idle, 40 minutes, warnings at 10 and 5, no key. */
  function DefaultRoom(id: string, nowSec: int): (r: Room)
    ensures r.state == Idle && r.startedAtMs == 0 && r.pausedAccumMs == 0 && r.pausedAtMs == 0
    ensures r.durationSec == 2400 && r.warn1Min == 10 && r.warn2Min == 5
    ensures r.message == "" && r.stage == Stage(0, false, 0) && r.adminKey == None
    ensures r.id == id && r.updatedAt == nowSec
  {
    Room(id, Idle, DefaultDurationSec, DefaultWarn1Min, DefaultWarn2Min, 0, 0, 0, "",
         Stage(0, false, 0), None, nowSec)
  }

  /** PHP's `intval($a / $b)` for a positive divisor: the quotient truncated toward zero. */
  function TruncDiv(a: int, b: int): (q: int)
    requires b > 0
    ensures a >= 0 ==> 0 <= q && 0 <= a - b * q < b
    ensures a < 0 ==> q <= 0 && 0 <= b * q - a < b
  {
    if a >= 0 then a / b else -((-a) / b)
  }

  /** The legacy rename: `warn1Min` from `warnSec` when only the latter is present. */
  function Migrate(d: StoredDoc): (m: StoredDoc)
    ensures m.warn1Min.Some? <==> d.warn1Min.Some? || d.warnSec.Some?
    ensures d.warn1Min.Some? ==> m.warn1Min == d.warn1Min
    ensures d.warn1Min.None? && d.warnSec.Some? ==> m.warn1Min.value >= 0
  {
    var d1 := if d.warn1Min.None? && d.warnSec.Some?
              then d.(warn1Min := Some(Max(0, TruncDiv(d.warnSec.value, 60))))
              else d;
    if d1.warn2Min.None? then d1.(warn2Min := Some(DefaultWarn2Min)) else d1
  }

  /** `array_merge(defaults, $d)`: every key present in the document wins over the default. */
  function Merge(defaults: Room, d: StoredDoc): (m: Room)
    ensures d == EmptyDoc ==> m == defaults
    ensures d.adminKey.Some? ==> m.adminKey == d.adminKey
    ensures d.adminKey.None? ==> m.adminKey == defaults.adminKey
  {
    Room(d.id.GetOr(defaults.id),
         d.state.GetOr(defaults.state),
         d.durationSec.GetOr(defaults.durationSec),
         d.warn1Min.GetOr(defaults.warn1Min),
         d.warn2Min.GetOr(defaults.warn2Min),
         d.startedAtMs.GetOr(defaults.startedAtMs),
         d.pausedAccumMs.GetOr(defaults.pausedAccumMs),
         d.pausedAtMs.GetOr(defaults.pausedAtMs),
         d.message.GetOr(defaults.message),
         d.stage.GetOr(defaults.stage),
         if d.adminKey.Some? then d.adminKey else defaults.adminKey,
         d.updatedAt.GetOr(defaults.updatedAt))
  }

  /**
   * `load_state`: `file` is None when the document does not exist and Some(EmptyDoc) when it
   * exists but does not decode.
   */
  function LoadState(id: string, file: Option<StoredDoc>, nowSec: int): (r: Room)
    ensures file.None? ==> r == DefaultRoom(id, nowSec)
    ensures file.Some? ==>
              var d := file.value;
              r.state == d.state.GetOr(Idle) && r.durationSec == d.durationSec.GetOr(2400) &&
              r.warn1Min == (if d.warn1Min.Some? then d.warn1Min.value
                             else if d.warnSec.Some? then Max(0, TruncDiv(d.warnSec.value, 60))
                             else 10) &&
              r.warn2Min == d.warn2Min.GetOr(5) && r.adminKey == d.adminKey &&
              r.message == d.message.GetOr("") && r.stage == d.stage.GetOr(Stage(0, false, 0)) &&
              r.id == d.id.GetOr(id) && r.startedAtMs == d.startedAtMs.GetOr(0) &&
              r.pausedAccumMs == d.pausedAccumMs.GetOr(0) && r.pausedAtMs == d.pausedAtMs.GetOr(0) &&
              r.updatedAt == d.updatedAt.GetOr(nowSec)
  {
    match file
    case None => DefaultRoom(id, nowSec)
    case Some(d) => Merge(DefaultRoom(id, nowSec), Migrate(d))
  }

  /** What `save_state` writes: every field, with `updatedAt` stamped. */
  function Encode(r: Room): (d: StoredDoc)
  {
    StoredDoc(Some(r.id), Some(r.state), Some(r.durationSec), Some(r.warn1Min), Some(r.warn2Min),
              Some(r.startedAtMs), Some(r.pausedAccumMs), Some(r.pausedAtMs), Some(r.message),
              Some(r.stage), r.adminKey, Some(r.updatedAt), None)
  }

  /** `save_state`: the room as stored, stamped with `time()`; `LoadSaved` reads it back. */
  function Save(r: Room, nowSec: int): (d: StoredDoc)
    ensures d.updatedAt == Some(nowSec) && d.adminKey == r.adminKey && d.warnSec.None?
    ensures d.id.Some? && d.state.Some? && d.durationSec.Some? && d.warn1Min.Some? && d.warn2Min.Some?
    ensures d.startedAtMs.Some? && d.pausedAccumMs.Some? && d.pausedAtMs.Some? && d.message.Some? && d.stage.Some?
  {
    Encode(r.(updatedAt := nowSec))
  }

  /** `redact_state`: drop the admin key and nothing else. */
  function Redact(r: Room): (v: PublicRoom)
  {
    PublicRoom(r.id, r.state, r.durationSec, r.warn1Min, r.warn2Min, r.startedAtMs,
               r.pausedAccumMs, r.pausedAtMs, r.message, r.stage, r.updatedAt)
  }

  /** Loading a document the server saved gives back the room that was saved. */
  lemma LoadSaved(id: string, r: Room, nowSec: int, laterSec: int)
    ensures LoadState(id, Some(Save(r, nowSec)), laterSec) == r.(updatedAt := nowSec)
  {
  }

  /** A file that is missing and a file that does not decode load to the same default room. */
  lemma CorruptReadsAsMissing(id: string, nowSec: int)
    ensures LoadState(id, Some(EmptyDoc), nowSec) == LoadState(id, None, nowSec) == DefaultRoom(id, nowSec)
  {
  }

  /** An old document with only `warnSec` gets its first warning in whole minutes, never negative. */
  lemma LegacyWarnMigrated(id: string, d: StoredDoc, nowSec: int)
    requires d.warn1Min.None? && d.warnSec.Some?
    ensures var r := LoadState(id, Some(d), nowSec);
            r.warn1Min == Max(0, TruncDiv(d.warnSec.value, 60)) && r.warn1Min >= 0
  {
  }

  /** A present `warn1Min` always wins over the legacy key. */
  lemma CurrentWarnWins(id: string, d: StoredDoc, nowSec: int)
    requires d.warn1Min.Some?
    ensures LoadState(id, Some(d), nowSec).warn1Min == d.warn1Min.value
  {
  }

  /** The redacted view does not depend on the admin key: nothing about it leaks to readers. */
  lemma RedactHidesKey(r: Room, k: Option<string>)
    ensures Redact(r.(adminKey := k)) == Redact(r)
  {
  }

  /** Redaction loses only the key: the room is recovered from its view and its key. */
  lemma RedactLosesOnlyKey(r: Room)
    ensures var v := Redact(r);
            r == Room(v.id, v.state, v.durationSec, v.warn1Min, v.warn2Min, v.startedAtMs,
                      v.pausedAccumMs, v.pausedAtMs, v.message, v.stage, r.adminKey, v.updatedAt)
  {
  }
}
