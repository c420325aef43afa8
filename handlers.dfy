/**
 * The HTTP actions `create`, `get`, `set`, `setSettings`, `ackStart` and `hb` of one server: the
 * room documents (a map from file name to decoded document), the rate-limit counters, and the
 * deployment's claim switch. Each handler loads the room, updates its local copy field by field
 * and saves it; the server clock is passed in as `nowMs`, and `time()` is its whole seconds (`Time`).
 */
module Handlers {
  import opened Common
  import opened Text
  import opened Rooms
  import opened Timer
  import opened Throttle
  import Ids
  import Auth

  datatype Error = RateLimited | IdRequired | Forbidden

  /** The JSON reply of an action. */
  datatype Reply =
    | Failed(error: Error)
    | Done
    | Created(id: string, adminKey: string)
    | Snapshot(state: PublicRoom, serverNowMs: int)

  /** PHP's `time()` at server time `nowMs`: whole seconds. */
  function Time(nowMs: nat): nat
  {
    nowMs / 1000
  }

  /**
   * What `create` writes over the loaded room: a 40-minute idle countdown with warnings at 10 and
   * 5 minutes, an empty message, a cleared start acknowledgement and the new admin key.
   */
  function Initialize(r: Room, key: string): (s: Room)
    ensures s == DefaultRoom(r.id, r.updatedAt).(stage := r.stage.(startedAckMs := 0), adminKey := Some(key))
  {
    r.(durationSec := 2400, warn1Min := 10, warn2Min := 5, state := Idle, startedAtMs := 0,
       pausedAccumMs := 0, pausedAtMs := 0, message := "", stage := r.stage.(startedAckMs := 0),
       adminKey := Some(key))
  }

  /** A new room is the default room with its admin key. */
  lemma InitializeNewRoom(id: string, nowSec: int, key: string)
    ensures Initialize(DefaultRoom(id, nowSec), key) == DefaultRoom(id, nowSec).(adminKey := Some(key))
  {
  }

  /** A created room is idle and well formed whatever document it was loaded from, and only its key opens it. */
  lemma InitializeResetsRun(r: Room, key: string, presented: string, allowClaim: bool)
    requires key != "" && key != "0"
    ensures WellFormed(Initialize(r, key)) && Initialize(r, key).state == Idle
    ensures Auth.Authorize(Initialize(r, key).adminKey, presented, allowClaim).Granted? <==> presented == key
  {
  }

  /** The change an authorised request makes: a `set` command, or new settings. */
  datatype Change =
    | Command(cmd: string, durationSec: Option<int>, text: Option<string>)
    | Settings(durMin: Option<int>, warn1Min: Option<int>, warn2Min: Option<int>)

  function ApplyChange(r: Room, change: Change, nowMs: int): Room
  {
    match change
    case Command(cmd, durationSec, text) => Apply(r, ParseCommand(cmd, durationSec, text), nowMs)
    case Settings(durMin, warn1Min, warn2Min) => ApplySettings(r, durMin, warn1Min, warn2Min)
  }

  /** Saving a file twice leaves only the second save. */
  lemma OverwriteTwice(m: map<string, StoredDoc>, key: string, first: StoredDoc, second: StoredDoc)
    ensures m[key := first][key := second] == m[key := second]
  {
  }

  class Server {
    /** The data directory: document file name (the id's digits) to decoded document. */
    var rooms: map<string, StoredDoc>
    const limiter: RateLimiter
    /** `TIMEPON_ALLOW_CLAIM === '1'`. */
    const allowClaim: bool

    constructor (allowClaim: bool)
      ensures rooms == map[] && fresh(limiter) && limiter.files == map[] && this.allowClaim == allowClaim
    {
      rooms := map[];
      limiter := new RateLimiter();
      this.allowClaim := allowClaim;
    }

    /** The document file of an id, if it exists. */
    function Lookup(id: string): Option<StoredDoc>
      reads this
    {
      var f := Ids.FileKey(id);
      if f in rooms then Some(rooms[f]) else None
    }

    /** `load_state($id)` against the current files. */
    function Load(id: string, nowSec: int): Room
      reads this
    {
      LoadState(id, Lookup(id), nowSec)
    }

    /** The gate as a handler runs it: a claim stores the key (and saves) before the key is compared. */
    method Admit(id: string, st: Room, k: string, nowSec: int) returns (ok: bool, admitted: Room)
      modifies this
      ensures var d := Auth.Authorize(st.adminKey, k, allowClaim);
              ok == d.Granted? && (ok ==> admitted == st.(adminKey := Some(k)))
      ensures !ok ==> rooms == old(rooms)
      ensures ok && !Auth.NoKey(st.adminKey) ==> rooms == old(rooms)
      ensures ok && Auth.NoKey(st.adminKey) ==> rooms == old(rooms)[Ids.FileKey(id) := Save(admitted, nowSec)]
    {
      admitted := st;
      if Auth.NoKey(admitted.adminKey) {
        if allowClaim {
          if !Auth.IsClaimKey(k) {
            return false, admitted;
          }
          admitted := admitted.(adminKey := Some(k));
          rooms := rooms[Ids.FileKey(id) := Save(admitted, nowSec)];
        } else {
          return false, admitted;
        }
      }
      ok := admitted.adminKey == Some(k);
    }

    /** `create`: throttle, allocate an id, initialise the room with a fresh admin key and save it. */
    method Create(remoteAddr: Option<string>, nowMs: nat, draws: seq<nat>, freshKey: string) returns (reply: Reply)
      requires |draws| == Ids.MaxTry && forall i :: 0 <= i < |draws| ==> draws[i] < Ids.IdSpace
      requires |freshKey| == 32 && Auth.AllHex(freshKey)
      modifies this, limiter
      ensures var s := CreateStep(old(limiter.Read(Category.Create.FileKey(ClientAddress(remoteAddr)))), Time(nowMs));
              limiter.files == (if s.allowed then old(limiter.files)[Category.Create.FileKey(ClientAddress(remoteAddr)) := s.next]
                                else old(limiter.files)) &&
              (!s.allowed ==> reply == Failed(RateLimited) && rooms == old(rooms)) &&
              (s.allowed ==> reply.Created?)
      ensures reply.Created? ==>
                |reply.id| == Ids.IdLength && AllDigits(reply.id) && reply.adminKey == freshKey &&
                rooms == old(rooms)[reply.id := Save(Initialize(LoadState(reply.id, old(Lookup(reply.id)), Time(nowMs)), freshKey), Time(nowMs))]
      ensures reply.Created? && (exists i :: 0 <= i < Ids.MaxTry && Ids.GenId(draws[i]) !in old(rooms)) ==>
                reply.id !in old(rooms) && rooms[reply.id] == Save(DefaultRoom(reply.id, Time(nowMs)).(adminKey := Some(freshKey)), Time(nowMs))
    {
      var nowSec := Time(nowMs);
      var allowed := limiter.ThrottleCreate(remoteAddr, nowSec);
      if !allowed {
        return Failed(RateLimited);
      }
      var id := Ids.GenUniqueId(draws, rooms.Keys, nowSec);
      assert Ids.FileKey(id) == id;
      var st := Load(id, nowSec);
      st := st.(durationSec := 2400);
      st := st.(warn1Min := 10);
      st := st.(warn2Min := 5);
      st := st.(state := Idle);
      st := st.(startedAtMs := 0);
      st := st.(pausedAccumMs := 0);
      st := st.(pausedAtMs := 0);
      st := st.(message := "");
      st := st.(stage := st.stage.(startedAckMs := 0));
      st := st.(adminKey := Some(freshKey));
      rooms := rooms[id := Save(st, nowSec)];
      reply := Created(id, freshKey);
    }

    /** `get`: throttle, validate the id, and return the redacted room (the default one when no file exists). */
    method Get(remoteAddr: Option<string>, rawId: string, nowMs: nat) returns (reply: Reply)
      modifies limiter
      ensures var key := ReadOrBeat.FileKey(ClientAddress(remoteAddr));
              var s := CountedStep(old(limiter.Read(key)), Time(nowMs), ReadMax);
              limiter.files == old(limiter.files)[key := s.next] &&
              (!s.allowed ==> reply == Failed(RateLimited)) &&
              (s.allowed && Ids.RequireId(rawId).IdRequired? ==> reply == Failed(IdRequired)) &&
              (s.allowed && Ids.RequireId(rawId).Id? ==>
                 reply == Snapshot(Redact(Load(Ids.RequireId(rawId).id, Time(nowMs))), nowMs))
    {
      var nowSec := Time(nowMs);
      var allowed := limiter.ThrottleGetHb(remoteAddr, nowSec);
      if !allowed {
        return Failed(RateLimited);
      }
      var req := Ids.RequireId(rawId);
      if req.IdRequired? {
        return Failed(IdRequired);
      }
      var st := Load(req.id, nowSec);
      reply := Snapshot(Redact(st), nowMs);
    }

    /** The `switch ($cmd)` of `set`, updating the loaded room in place. */
    static method RunCommand(st0: Room, cmd: string, durationSec: Option<int>, text: Option<string>, now: int)
      returns (st: Room)
      ensures st == Apply(st0, ParseCommand(cmd, durationSec, text), now)
    {
      st := st0;
      if cmd == "start" {
        if st.state == Idle {
          if durationSec.Some? {
            st := st.(durationSec := Min(MaxDurationSec, Max(MinDurationSec, durationSec.value)));
          }
          st := st.(startedAtMs := now);
          st := st.(pausedAccumMs := 0);
          st := st.(pausedAtMs := 0);
          st := st.(state := Running);
          st := st.(stage := st.stage.(startedAckMs := 0));
        } else if st.state == Paused {
          var add := if st.pausedAtMs != 0 then now - st.pausedAtMs else 0;
          st := st.(pausedAccumMs := st.pausedAccumMs + Max(0, add));
          st := st.(pausedAtMs := 0);
          st := st.(state := Running);
          st := st.(stage := st.stage.(startedAckMs := 0));
        }
      } else if cmd == "pause" {
        if st.state == Running {
          st := st.(pausedAtMs := now);
          st := st.(state := Paused);
        }
      } else if cmd == "reset" {
        st := st.(state := Idle);
        st := st.(startedAtMs := 0);
        st := st.(pausedAccumMs := 0);
        st := st.(pausedAtMs := 0);
        st := st.(stage := st.stage.(startedAckMs := 0));
      } else if cmd == "message" {
        st := st.(message := SanitizeMessage(text.GetOr("")));
      }
    }

    /** The `setSettings` clamp, updating the loaded room in place. */
    static method ClampSettings(st0: Room, durMin: Option<int>, warn1Min: Option<int>, warn2Min: Option<int>)
      returns (st: Room)
      ensures st == ApplySettings(st0, durMin, warn1Min, warn2Min)
    {
      st := st0;
      var dm := Min(720, Max(1, durMin.GetOr(Clock.CeilDiv(st.durationSec, 60))));
      var w1 := Min(dm, Max(0, warn1Min.GetOr(st.warn1Min)));
      var w2 := Min(dm, Max(0, warn2Min.GetOr(st.warn2Min)));
      st := st.(durationSec := dm * 60);
      st := st.(warn1Min := w1);
      st := st.(warn2Min := w2);
    }

    /** The change of an authorised request, made to the loaded room. */
    static method MakeChange(st0: Room, change: Change, nowMs: nat) returns (st: Room)
      ensures st == ApplyChange(st0, change, nowMs)
    {
      match change {
        case Command(cmd, durationSec, text) =>
          st := RunCommand(st0, cmd, durationSec, text, nowMs);
        case Settings(durMin, warn1Min, warn2Min) =>
          st := ClampSettings(st0, durMin, warn1Min, warn2Min);
      }
    }

    /** Make the change to the admitted room and save it under its file name. */
    method Commit(key: string, admitted: Room, change: Change, nowMs: nat)
      modifies this
      ensures rooms == old(rooms)[key := Save(ApplyChange(admitted, change, nowMs), Time(nowMs))]
    {
      var st := MakeChange(admitted, change, nowMs);
      rooms := rooms[key := Save(st, Time(nowMs))];
    }

    /**
     * The part `set` and `setSettings` share once the id is valid: load the room, pass the key
     * gate, make the change and save.
     */
    method Guarded(id: string, k: string, change: Change, nowMs: nat) returns (reply: Reply)
      modifies this
      ensures var st := old(Load(id, Time(nowMs)));
              var d := Auth.Authorize(st.adminKey, k, allowClaim);
              (d.Forbidden? ==> reply == Failed(Forbidden) && rooms == old(rooms)) &&
              (d.Granted? ==>
                 reply == Done &&
                 rooms == old(rooms)[Ids.FileKey(id) := Save(ApplyChange(st.(adminKey := Some(d.key)), change, nowMs), Time(nowMs))])
    {
      var nowSec := Time(nowMs);
      var st := Load(id, nowSec);
      assert st == old(Load(id, Time(nowMs)));
      ghost var d := Auth.Authorize(st.adminKey, k, allowClaim);
      var ok, admitted := Admit(id, st, k, nowSec);
      if !ok {
        return Failed(Forbidden);
      }
      assert d.key == k && admitted == st.(adminKey := Some(d.key));
      ghost var claimed := rooms;
      assert claimed == old(rooms) || claimed == old(rooms)[Ids.FileKey(id) := Save(admitted, nowSec)];
      Commit(Ids.FileKey(id), admitted, change, nowMs);
      OverwriteTwice(old(rooms), Ids.FileKey(id), Save(admitted, nowSec), rooms[Ids.FileKey(id)]);
      reply := Done;
    }

    /**
     * `set`: throttle, validate the id, pass the key gate, run the command and save the room (an
     * unknown command saves it unchanged but for `updatedAt`).
     */
    method Set(remoteAddr: Option<string>, rawId: string, k: Option<string>, cmd: Option<string>,
               durationSec: Option<int>, text: Option<string>, nowMs: nat) returns (reply: Reply)
      modifies this, limiter
      ensures var key := Write.FileKey(ClientAddress(remoteAddr));
              var s := CountedStep(old(limiter.Read(key)), Time(nowMs), WriteMax);
              limiter.files == old(limiter.files)[key := s.next] &&
              (!s.allowed ==> reply == Failed(RateLimited) && rooms == old(rooms)) &&
              (s.allowed && Ids.RequireId(rawId).IdRequired? ==> reply == Failed(IdRequired) && rooms == old(rooms))
      ensures CountedStep(old(limiter.Read(Write.FileKey(ClientAddress(remoteAddr)))), Time(nowMs), WriteMax).allowed &&
              Ids.RequireId(rawId).Id? ==>
                var id := Ids.RequireId(rawId).id;
                var st := old(Load(id, Time(nowMs)));
                var d := Auth.Authorize(st.adminKey, k.GetOr(""), allowClaim);
                (d.Forbidden? ==> reply == Failed(Forbidden) && rooms == old(rooms)) &&
                (d.Granted? ==>
                   reply == Done &&
                   rooms == old(rooms)[Ids.FileKey(id) :=
                     Save(Apply(st.(adminKey := Some(d.key)), ParseCommand(cmd.GetOr(""), durationSec, text), nowMs),
                          Time(nowMs))])
    {
      var allowed := limiter.ThrottleWrite(remoteAddr, Time(nowMs));
      if !allowed {
        return Failed(RateLimited);
      }
      var req := Ids.RequireId(rawId);
      if req.IdRequired? {
        return Failed(IdRequired);
      }
      assert rooms == old(rooms);
      ghost var st := Load(req.id, Time(nowMs));
      assert st == old(Load(req.id, Time(nowMs)));
      ghost var d := Auth.Authorize(st.adminKey, k.GetOr(""), allowClaim);
      var change := Command(cmd.GetOr(""), durationSec, text);
      assert d.Granted? ==>
        ApplyChange(st.(adminKey := Some(d.key)), change, nowMs) ==
        Apply(st.(adminKey := Some(d.key)), ParseCommand(cmd.GetOr(""), durationSec, text), nowMs);
      reply := Guarded(req.id, k.GetOr(""), change, nowMs);
    }

    /** `setSettings`: throttle, validate the id, pass the key gate, clamp the settings and save. */
    method SetSettings(remoteAddr: Option<string>, rawId: string, k: Option<string>,
                       durMin: Option<int>, warn1Min: Option<int>, warn2Min: Option<int>, nowMs: nat)
      returns (reply: Reply)
      modifies this, limiter
      ensures var key := Write.FileKey(ClientAddress(remoteAddr));
              var s := CountedStep(old(limiter.Read(key)), Time(nowMs), WriteMax);
              limiter.files == old(limiter.files)[key := s.next] &&
              (!s.allowed ==> reply == Failed(RateLimited) && rooms == old(rooms)) &&
              (s.allowed && Ids.RequireId(rawId).IdRequired? ==> reply == Failed(IdRequired) && rooms == old(rooms))
      ensures CountedStep(old(limiter.Read(Write.FileKey(ClientAddress(remoteAddr)))), Time(nowMs), WriteMax).allowed &&
              Ids.RequireId(rawId).Id? ==>
                var id := Ids.RequireId(rawId).id;
                var st := old(Load(id, Time(nowMs)));
                var d := Auth.Authorize(st.adminKey, k.GetOr(""), allowClaim);
                (d.Forbidden? ==> reply == Failed(Forbidden) && rooms == old(rooms)) &&
                (d.Granted? ==>
                   reply == Done &&
                   rooms == old(rooms)[Ids.FileKey(id) :=
                     Save(ApplySettings(st.(adminKey := Some(d.key)), durMin, warn1Min, warn2Min), Time(nowMs))])
    {
      var allowed := limiter.ThrottleWrite(remoteAddr, Time(nowMs));
      if !allowed {
        return Failed(RateLimited);
      }
      var req := Ids.RequireId(rawId);
      if req.IdRequired? {
        return Failed(IdRequired);
      }
      assert rooms == old(rooms);
      ghost var st := Load(req.id, Time(nowMs));
      assert st == old(Load(req.id, Time(nowMs)));
      ghost var d := Auth.Authorize(st.adminKey, k.GetOr(""), allowClaim);
      var change := Settings(durMin, warn1Min, warn2Min);
      assert d.Granted? ==>
        ApplyChange(st.(adminKey := Some(d.key)), change, nowMs) ==
        ApplySettings(st.(adminKey := Some(d.key)), durMin, warn1Min, warn2Min);
      reply := Guarded(req.id, k.GetOr(""), change, nowMs);
    }

    /** `ackStart`: throttle, validate the id and record the stage's acknowledgement time (no key needed). */
    method AckStart(remoteAddr: Option<string>, rawId: string, nowMs: nat) returns (reply: Reply)
      modifies this, limiter
      ensures var key := Write.FileKey(ClientAddress(remoteAddr));
              var s := CountedStep(old(limiter.Read(key)), Time(nowMs), WriteMax);
              limiter.files == old(limiter.files)[key := s.next] &&
              (!s.allowed ==> reply == Failed(RateLimited) && rooms == old(rooms)) &&
              (s.allowed && Ids.RequireId(rawId).IdRequired? ==> reply == Failed(IdRequired) && rooms == old(rooms)) &&
              (s.allowed && Ids.RequireId(rawId).Id? ==>
                 var id := Ids.RequireId(rawId).id;
                 reply == Done &&
                 rooms == old(rooms)[Ids.FileKey(id) := Save(Timer.AckStart(old(Load(id, Time(nowMs))), nowMs), Time(nowMs))])
    {
      var nowSec := Time(nowMs);
      var allowed := limiter.ThrottleWrite(remoteAddr, nowSec);
      if !allowed {
        return Failed(RateLimited);
      }
      var req := Ids.RequireId(rawId);
      if req.IdRequired? {
        return Failed(IdRequired);
      }
      var st := Load(req.id, nowSec);
      st := st.(stage := st.stage.(startedAckMs := nowMs));
      rooms := rooms[Ids.FileKey(req.id) := Save(st, nowSec)];
      reply := Done;
    }

    /**
     * `hb`: throttle (with the readers), validate the id, record the heartbeat and the fullscreen
     * flag, save, and return the redacted room. The room returned is the local copy, whose
     * `updatedAt` is the loaded one: only the saved document gets the new stamp.
     */
    method Hb(remoteAddr: Option<string>, rawId: string, fs: Option<string>, nowMs: nat) returns (reply: Reply)
      modifies this, limiter
      ensures var key := ReadOrBeat.FileKey(ClientAddress(remoteAddr));
              var s := CountedStep(old(limiter.Read(key)), Time(nowMs), ReadMax);
              limiter.files == old(limiter.files)[key := s.next] &&
              (!s.allowed ==> reply == Failed(RateLimited) && rooms == old(rooms)) &&
              (s.allowed && Ids.RequireId(rawId).IdRequired? ==> reply == Failed(IdRequired) && rooms == old(rooms)) &&
              (s.allowed && Ids.RequireId(rawId).Id? ==>
                 var id := Ids.RequireId(rawId).id;
                 var st := Heartbeat(old(Load(id, Time(nowMs))), Time(nowMs), ParseFullscreen(fs));
                 reply == Snapshot(Redact(st), nowMs) &&
                 rooms == old(rooms)[Ids.FileKey(id) := Save(st, Time(nowMs))])
    {
      var nowSec := Time(nowMs);
      var allowed := limiter.ThrottleGetHb(remoteAddr, nowSec);
      if !allowed {
        return Failed(RateLimited);
      }
      var req := Ids.RequireId(rawId);
      if req.IdRequired? {
        return Failed(IdRequired);
      }
      var st := Load(req.id, nowSec);
      var on := ParseFullscreen(fs);
      st := st.(stage := st.stage.(lastSeen := nowSec));
      st := st.(stage := st.stage.(fullscreen := on));
      rooms := rooms[Ids.FileKey(req.id) := Save(st, nowSec)];
      reply := Snapshot(Redact(st), nowMs);
    }
  }
}
