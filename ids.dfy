/** Room ids: request sanitisation, the storage file name, and allocation of fresh 6-digit ids. */
module Ids {
  import opened Text

  /** `preg_replace('/\D/', '', $id)`: the digits of a requested id, in order. */
  function StripNonDigits(raw: string): (id: string)
    ensures AllDigits(id) && |id| <= |raw|
    ensures forall c :: multiset(id)[c] == if IsDigit(c) then multiset(raw)[c] else 0
    ensures id == [] <==> forall i :: 0 <= i < |raw| ==> !IsDigit(raw[i])
    ensures AllDigits(raw) ==> id == raw
  {
    var id := Filter(IsDigit, raw);
    if id == [] then
      assert forall i :: 0 <= i < |raw| ==> !IsDigit(raw[i]) by {
        forall i | 0 <= i < |raw| ensures !IsDigit(raw[i]) {
          assert raw[i] in multiset(raw);
        }
      }
      id
    else
      assert exists j :: 0 <= j < |raw| && IsDigit(raw[j]) by {
        assert multiset(id)[id[0]] > 0;
        assert multiset(raw)[id[0]] > 0;
        assert id[0] in raw;
      }
      id
  }

  /** Stripping keeps the digits' order: it distributes over concatenation. */
  lemma StripKeepsOrder(a: string, b: string)
    ensures StripNonDigits(a + b) == StripNonDigits(a) + StripNonDigits(b)
  {
    FilterAppend(IsDigit, a, b);
  }

  datatype IdResult = Id(id: string) | IdRequired

  /** The check every handler except `create` makes before it loads anything. */
  function RequireId(raw: string): (r: IdResult)
    ensures r.Id? ==> r.id != [] && AllDigits(r.id) && r.id == StripNonDigits(raw)
    ensures r.IdRequired? <==> forall i :: 0 <= i < |raw| ==> !IsDigit(raw[i])
  {
    var id := StripNonDigits(raw);
    if id == [] then IdRequired else Id(id)
  }

  /** The name part of `id_to_file`: the digits of the id, or `000000` when there are none. */
  function FileKey(id: string): (k: string)
    ensures k != [] && AllDigits(k)
    ensures (forall i :: 0 <= i < |id| ==> !IsDigit(id[i])) ==> k == "000000"
    ensures (exists i :: 0 <= i < |id| && IsDigit(id[i])) ==> k == StripNonDigits(id)
    ensures AllDigits(id) && id != [] ==> k == id
  {
    var p := StripNonDigits(id);
    if p == [] then "000000" else p
  }

  /** The document's file name: digits and the `.json` suffix, never a path separator. */
  function FileName(id: string): (name: string)
    ensures name == FileKey(id) + ".json"
    ensures forall i :: 0 <= i < |name| ==> name[i] != '/'
  {
    var key := FileKey(id);
    DigitsJsonHasNoSlash(key);
    key + ".json"
  }

  /** A digit string with the `.json` suffix holds no `/`. */
  lemma DigitsJsonHasNoSlash(key: string)
    requires AllDigits(key)
    ensures forall i :: 0 <= i < |key + ".json"| ==> (key + ".json")[i] != '/'
  {
    var name := key + ".json";
    assert forall i :: 0 <= i < |key| ==> name[i] == key[i] && IsDigit(key[i]);
    assert forall i :: |key| <= i < |name| ==> name[i] == ".json"[i - |key|];
  }

  /**
   * `id_to_file`: whatever the request says, the path is the data directory, a slash, and a file
   * name without a slash (see `FileName`): one file directly inside the data directory.
   */
  function IdToFile(dataDir: string, id: string): (path: string)
    ensures |path| > |dataDir| + 1 && path[..|dataDir| + 1] == dataDir + "/"
    ensures path[|dataDir| + 1..] == FileName(id) == FileKey(id) + ".json"
  {
    var path := dataDir + "/" + FileName(id);
    assert path[..|dataDir| + 1] == dataDir + "/";
    path
  }

  /** Ids are 6 digits. */
  const IdLength: nat := 6
  /** `gen_unique_id` draws at most this many random ids. */
  const MaxTry: nat := 50
  const IdSpace: nat := 1000000

  lemma IdSpaceIsPower()
    ensures Pow10(IdLength) == IdSpace
  {
  }

  /** `gen_id`: the random draw `n` printed with zero padding to 6 places. */
  function GenId(n: nat): (id: string)
    requires n < IdSpace
    ensures |id| == IdLength && AllDigits(id) && Value(id) == n
  {
    IdSpaceIsPower();
    PaddedDecimalIsFixed(n, IdLength);
    ValueOfFixedDigits(n, IdLength);
    PadZeros(Decimal(n), IdLength)
  }

  /** PHP's `substr($s, -n)`. */
  function LastChars(s: string, n: nat): (r: string)
    ensures |r| == if |s| <= n then |s| else n
  {
    if |s| <= n then s else s[|s| - n..]
  }

  /** The fallback of `gen_unique_id`: `substr((string)(time() % 1000000 + 1000000), -6)`. */
  function FallbackId(nowSec: nat): (id: string)
    ensures |id| == IdLength && AllDigits(id) && Value(id) == nowSec % IdSpace
  {
    IdSpaceIsPower();
    DecimalAbovePower(nowSec % IdSpace, IdLength);
    ValueOfFixedDigits(nowSec % IdSpace, IdLength);
    LastChars(Decimal(nowSec % IdSpace + IdSpace), IdLength)
  }

  /**
   * `gen_unique_id(6, 50)`: tries the random draws in order and returns the first id whose file
   * does not exist (`taken` holds the file keys of the existing documents); after 50 collisions
   * it falls back to a clock-derived id, which is not checked against the existing rooms.
   */
  method GenUniqueId(draws: seq<nat>, taken: set<string>, nowSec: nat) returns (id: string)
    requires |draws| == MaxTry && forall i :: 0 <= i < |draws| ==> draws[i] < IdSpace
    ensures |id| == IdLength && AllDigits(id)
    ensures (exists i :: 0 <= i < MaxTry && GenId(draws[i]) !in taken) ==>
              id !in taken &&
              exists i :: 0 <= i < MaxTry && id == GenId(draws[i]) &&
                forall j :: 0 <= j < i ==> GenId(draws[j]) in taken
    ensures (forall i :: 0 <= i < MaxTry ==> GenId(draws[i]) in taken) ==> id == FallbackId(nowSec)
  {
    var i := 0;
    while i < MaxTry
      invariant 0 <= i <= MaxTry
      invariant forall j :: 0 <= j < i ==> GenId(draws[j]) in taken
    {
      var candidate := GenId(draws[i]);
      // `file_exists(id_to_file($id))`: a drawn id is 6 digits, so it is its own file key.
      if candidate !in taken {
        id := candidate;
        assert id == GenId(draws[i]) && forall j :: 0 <= j < i ==> GenId(draws[j]) in taken;
        return;
      }
      i := i + 1;
    }
    id := FallbackId(nowSec);
  }
}
