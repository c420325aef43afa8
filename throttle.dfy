/**
 * The per-client fixed-window rate limiter: one `{ts, cnt}` counter per client address and request
 * category, kept in a directory of small files (here a map from file name to counter).
 */
module Throttle {
  import opened Common

  /** A counter file: the start of its window (seconds) and the requests counted in it. */
  datatype Counter = Counter(ts: int, cnt: int)

  /** What a missing or undecodable counter file reads as. */
  const Blank := Counter(0, 0)

  const Window := 60
  const CreateMax := 10
  const ReadMax := 300
  const WriteMax := 120

  /** The characters an address keeps in its file name: `[0-9a-fA-F:.]`. */
  predicate IsAddressChar(c: char)
  {
    '0' <= c <= '9' || 'a' <= c <= 'f' || 'A' <= c <= 'F' || c == ':' || c == '.'
  }

  /** `preg_replace('/[^0-9a-fA-F:\.]/', '_', $ip)`: every other character becomes `_`. */
  function SanitizeAddress(ip: string): (s: string)
    ensures |s| == |ip|
    ensures forall i :: 0 <= i < |ip| ==> s[i] == (if IsAddressChar(ip[i]) then ip[i] else '_')
    ensures forall i :: 0 <= i < |s| ==> IsAddressChar(s[i]) || s[i] == '_'
  {
    seq(|ip|, i requires 0 <= i < |ip| => if IsAddressChar(ip[i]) then ip[i] else '_')
  }

  /** The sanitised address of the client; `unknown` when the server reports none. */
  function ClientAddress(remoteAddr: Option<string>): (s: string)
    ensures forall i :: 0 <= i < |s| ==> s[i] != '/'
  {
    SanitizeAddress(remoteAddr.GetOr("unknown"))
  }

  /** Every client without an address shares the single counter named by seven underscores. */
  lemma UnknownClientsShareOneCounter()
    ensures ClientAddress(None) == "_______"
  {
  }

  /** The three request categories, each with its own counter file and limit. */
  datatype Category = Create | ReadOrBeat | Write {
    /** The counter file's name (without the `.json` suffix). */
    function FileKey(addr: string): string
    {
      match this
      case Create => addr
      case ReadOrBeat => "r_" + addr
      case Write => "w_" + addr
    }

    function Limit(): int
    {
      match this
      case Create => CreateMax
      case ReadOrBeat => ReadMax
      case Write => WriteMax
    }
  }

  /**
   * Counters never collide: two categories never share a file (a sanitised address cannot begin
   * with `r` or `w`), and within a category different addresses get different files.
   */
  lemma CounterFilesDistinct(c1: Category, c2: Category, a1: string, a2: string)
    requires forall i :: 0 <= i < |a1| ==> IsAddressChar(a1[i]) || a1[i] == '_'
    requires forall i :: 0 <= i < |a2| ==> IsAddressChar(a2[i]) || a2[i] == '_'
    ensures c1.FileKey(a1) == c2.FileKey(a2) <==> c1 == c2 && a1 == a2
  {
    var k1, k2 := c1.FileKey(a1), c2.FileKey(a2);
    if c1 != c2 {
      assert k1 != k2 by {
        if |k1| == 0 || |k2| == 0 {
          assert |k1| != |k2|;
        } else {
          assert k1[0] != k2[0];
        }
      }
    } else if !c1.Create? && a1 != a2 {
      assert k1[2..] == a1 && k2[2..] == a2;
    }
  }

  /** The window reset at the head of every throttle: a counter older than the window starts over at `now`. */
  function Fresh(c: Counter, now: int): (f: Counter)
    ensures now - c.ts > Window ==> f == Counter(now, 0)
    ensures now - c.ts <= Window ==> f == c
  {
    if now - c.ts > Window then Counter(now, 0) else c
  }

  /** One throttled request: whether it may proceed, and the counter the file holds afterwards. */
  datatype Step = Step(allowed: bool, next: Counter)

  /** `throttle_create`: reject at the limit BEFORE counting, and a rejected request writes nothing. */
  function CreateStep(c: Counter, now: int): (s: Step)
    ensures s.allowed <==> Fresh(c, now).cnt < CreateMax
    ensures s.allowed ==> s.next == Fresh(c, now).(cnt := Fresh(c, now).cnt + 1)
    ensures !s.allowed ==> s.next == c
  {
    var f := Fresh(c, now);
    if f.cnt >= CreateMax then Step(false, c) else Step(true, f.(cnt := f.cnt + 1))
  }

  /** `throttle_get_hb` and `throttle_write`: count FIRST and write, then reject above the limit. */
  function CountedStep(c: Counter, now: int, limit: int): (s: Step)
    ensures s.next == Fresh(c, now).(cnt := Fresh(c, now).cnt + 1)
    ensures s.allowed <==> s.next.cnt <= limit
  {
    var f := Fresh(c, now);
    var n := f.(cnt := f.cnt + 1);
    Step(n.cnt <= limit, n)
  }

  /** After a quiet minute every category admits the next request. */
  lemma QuietWindowAdmits(c: Counter, now: int, cat: Category)
    requires now - c.ts > Window
    ensures CreateStep(c, now) == Step(true, Counter(now, 1))
    ensures CountedStep(c, now, cat.Limit()) == Step(true, Counter(now, 1))
  {
  }

  /** The outcome of a burst of requests against one counter. */
  datatype Burst = Burst(allowed: seq<bool>, last: Counter)

  function CreateBurst(c: Counter, times: seq<int>): (b: Burst)
    ensures |b.allowed| == |times|
    decreases |times|
  {
    if times == [] then Burst([], c)
    else
      var s := CreateStep(c, times[0]);
      var rest := CreateBurst(s.next, times[1..]);
      Burst([s.allowed] + rest.allowed, rest.last)
  }

  function CountedBurst(c: Counter, times: seq<int>, limit: int): (b: Burst)
    ensures |b.allowed| == |times|
    decreases |times|
  {
    if times == [] then Burst([], c)
    else
      var s := CountedStep(c, times[0], limit);
      var rest := CountedBurst(s.next, times[1..], limit);
      Burst([s.allowed] + rest.allowed, rest.last)
  }

  /**
   * Within one window, `create` admits exactly the requests that fit under the limit and then
   * stops counting: the counter stays at the limit.
   */
  lemma {:induction false} CreateBurstWithinWindow(c: Counter, times: seq<int>)
    requires 0 <= c.cnt <= CreateMax
    requires forall i :: 0 <= i < |times| ==> times[i] - c.ts <= Window
    ensures var b := CreateBurst(c, times);
            (forall i :: 0 <= i < |times| ==> (b.allowed[i] <==> c.cnt + i < CreateMax)) &&
            b.last == Counter(c.ts, Min(c.cnt + |times|, CreateMax))
    decreases |times|
  {
    if times != [] {
      var s := CreateStep(c, times[0]);
      assert s.next == Counter(c.ts, Min(c.cnt + 1, CreateMax));
      CreateBurstWithinWindow(s.next, times[1..]);
      var b := CreateBurst(c, times);
      var rest := CreateBurst(s.next, times[1..]);
      forall i | 1 <= i < |times| ensures b.allowed[i] <==> c.cnt + i < CreateMax {
        assert b.allowed[i] == rest.allowed[i - 1];
        assert times[1..][i - 1] == times[i];
      }
    }
  }

  /**
   * Within one window, `get`/`hb` and the writes count every request, the rejected ones too:
   * the i-th request passes exactly when it is among the first `limit - cnt` of the window.
   */
  lemma {:induction false} CountedBurstWithinWindow(c: Counter, times: seq<int>, limit: int)
    requires forall i :: 0 <= i < |times| ==> times[i] - c.ts <= Window
    ensures var b := CountedBurst(c, times, limit);
            (forall i :: 0 <= i < |times| ==> (b.allowed[i] <==> c.cnt + i + 1 <= limit)) &&
            b.last == Counter(c.ts, c.cnt + |times|)
    decreases |times|
  {
    if times != [] {
      var s := CountedStep(c, times[0], limit);
      CountedBurstWithinWindow(s.next, times[1..], limit);
      var b := CountedBurst(c, times, limit);
      var rest := CountedBurst(s.next, times[1..], limit);
      forall i | 1 <= i < |times| ensures b.allowed[i] <==> c.cnt + i + 1 <= limit {
        assert b.allowed[i] == rest.allowed[i - 1];
        assert times[1..][i - 1] == times[i];
      }
    }
  }

  /**
   * The counter files of one server. Each throttle reads the client's file (a missing file reads
   * as a blank counter), applies the window reset and the limit, and writes the file back.
   */
  class RateLimiter {
    var files: map<string, Counter>

    constructor ()
      ensures files == map[]
    {
      files := map[];
    }

    function Read(key: string): Counter
      reads this
    {
      if key in files then files[key] else Blank
    }

    /** `throttle_create` (10 new rooms a minute per client). */
    method ThrottleCreate(remoteAddr: Option<string>, nowSec: int) returns (allowed: bool)
      modifies this
      ensures var key := Create.FileKey(ClientAddress(remoteAddr));
              var s := CreateStep(old(Read(key)), nowSec);
              allowed == s.allowed &&
              files == if s.allowed then old(files)[key := s.next] else old(files)
    {
      var key := Create.FileKey(ClientAddress(remoteAddr));
      var d := Read(key);
      if nowSec - d.ts > Window {
        d := Counter(nowSec, 0);
      }
      if d.cnt >= CreateMax {
        return false;
      }
      d := d.(cnt := d.cnt + 1);
      files := files[key := d];
      allowed := true;
    }

    /** The shared body of `throttle_get_hb` and `throttle_write`. */
    method ThrottleCounted(cat: Category, remoteAddr: Option<string>, nowSec: int) returns (allowed: bool)
      requires !cat.Create?
      modifies this
      ensures var key := cat.FileKey(ClientAddress(remoteAddr));
              var s := CountedStep(old(Read(key)), nowSec, cat.Limit());
              allowed == s.allowed && files == old(files)[key := s.next]
    {
      var key := cat.FileKey(ClientAddress(remoteAddr));
      var d := Read(key);
      if nowSec - d.ts > Window {
        d := Counter(nowSec, 0);
      }
      d := d.(cnt := d.cnt + 1);
      files := files[key := d];
      allowed := d.cnt <= cat.Limit();
    }

    /** `throttle_get_hb` (300 reads or heartbeats a minute per client). */
    method ThrottleGetHb(remoteAddr: Option<string>, nowSec: int) returns (allowed: bool)
      modifies this
      ensures var key := ReadOrBeat.FileKey(ClientAddress(remoteAddr));
              var s := CountedStep(old(Read(key)), nowSec, ReadMax);
              allowed == s.allowed && files == old(files)[key := s.next]
    {
      allowed := ThrottleCounted(ReadOrBeat, remoteAddr, nowSec);
    }

    /** `throttle_write` (120 mutations a minute per client). */
    method ThrottleWrite(remoteAddr: Option<string>, nowSec: int) returns (allowed: bool)
      modifies this
      ensures var key := Write.FileKey(ClientAddress(remoteAddr));
              var s := CountedStep(old(Read(key)), nowSec, WriteMax);
              allowed == s.allowed && files == old(files)[key := s.next]
    {
      allowed := ThrottleCounted(Write, remoteAddr, nowSec);
    }
  }
}
