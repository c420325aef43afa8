/**
 * The admin-key gate in front of `set` and `setSettings`: a room's stored key must equal the
 * presented one; a room without a key can be claimed only when the deployment allows it, and only
 * with a long hexadecimal key.
 */
module Auth {
  import opened Common

  /** PHP's `empty()` on the stored key: null, the empty string and the string "0" all count as no key. */
  predicate NoKey(stored: Option<string>)
  {
    stored.None? || stored.value == "" || stored.value == "0"
  }

  predicate IsHexChar(c: char)
  {
    '0' <= c <= '9' || 'a' <= c <= 'f' || 'A' <= c <= 'F'
  }

  predicate AllHex(s: string) { forall i :: 0 <= i < |s| ==> IsHexChar(s[i]) }

  /**
   * `preg_match('/^[0-9a-f]{32,}$/i', $k)` AS WRITTEN: PCRE's `$` (without the D modifier) also
   * matches just before a final newline, so 32 or more hex digits followed by one "\n" match too.
   */
  predicate ClaimPatternAsWritten(k: string)
  {
    (|k| >= 32 && AllHex(k)) ||
    (|k| >= 33 && k[|k| - 1] == '\n' && AllHex(k[..|k| - 1]))
  }

  /** The claimable keys evidently intended: 32 or more hex digits and nothing else. */
  predicate IsClaimKey(k: string)
  {
    |k| >= 32 && AllHex(k)
  }

  /** Outcome of the gate: the key the room ends up with (and whether this request claimed it), or `forbidden`. */
  datatype Decision = Granted(key: string, claimed: bool) | Forbidden

  /**
   * The gate, parameterised by the claim pattern. `presented` is `$_POST['k'] ?? ''`;
   * `allowClaim` is `TIMEPON_ALLOW_CLAIM === '1'`; string equality stands for `hash_equals`.
   */
  function Gate(stored: Option<string>, presented: string, allowClaim: bool, claimable: string -> bool): (d: Decision)
    ensures d.Granted? ==> d.key == presented
    ensures !NoKey(stored) ==> (d.Granted? <==> stored.value == presented) && (d.Granted? ==> !d.claimed)
    ensures NoKey(stored) && !allowClaim ==> d.Forbidden?
    ensures NoKey(stored) && allowClaim ==> (d.Granted? <==> claimable(presented)) && (d.Granted? ==> d.claimed)
  {
    if NoKey(stored) then
      if allowClaim then
        if !claimable(presented) then Forbidden else Granted(presented, true)
      else Forbidden
    else if stored.value == presented then Granted(presented, false)
    else Forbidden
  }

  /** The gate as the handlers write it. */
  function AuthorizeAsWritten(stored: Option<string>, presented: string, allowClaim: bool): (d: Decision)
    ensures d.Granted? ==> d.key == presented
    ensures !NoKey(stored) ==> (d.Granted? <==> stored.value == presented)
    ensures NoKey(stored) && !allowClaim ==> d.Forbidden?
    ensures NoKey(stored) && allowClaim ==> (d.Granted? <==> ClaimPatternAsWritten(presented))
  {
    Gate(stored, presented, allowClaim, ClaimPatternAsWritten)
  }

  /** The gate with the intended claim pattern; the request handlers of this model use this one. */
  function Authorize(stored: Option<string>, presented: string, allowClaim: bool): (d: Decision)
    ensures d.Granted? ==> d.key == presented && !NoKey(Some(d.key))
    ensures d.Granted? && d.claimed ==> IsClaimKey(d.key)
    ensures !NoKey(stored) ==> (d.Granted? <==> stored.value == presented)
    ensures NoKey(stored) && !allowClaim ==> d.Forbidden?
    ensures NoKey(stored) && allowClaim ==> (d.Granted? <==> IsClaimKey(presented))
  {
    Gate(stored, presented, allowClaim, IsClaimKey)
  }

  /** A key of 32 hex digits and a trailing newline passes the gate as written and becomes the room's key. */
  lemma ClaimAcceptsTrailingNewline()
    ensures var k := "0123456789abcdef0123456789abcdef\n";
            AuthorizeAsWritten(None, k, true) == Granted(k, true) &&
            !IsClaimKey(k) &&
            Authorize(None, k, true) == Forbidden
  {
    var k := "0123456789abcdef0123456789abcdef\n";
    assert |k| == 33 && k[32] == '\n';
    assert AllHex(k[..32]);
    assert !IsHexChar(k[32]);
  }

  /** On every key without that trailing newline the two gates agree. */
  lemma GatesAgreeWithoutTrailingNewline(stored: Option<string>, presented: string, allowClaim: bool)
    requires |presented| == 0 || presented[|presented| - 1] != '\n'
    ensures AuthorizeAsWritten(stored, presented, allowClaim) == Authorize(stored, presented, allowClaim)
  {
  }

  /**
   * Once a room has a key, the key decides alone: the right key is always let in, however many
   * wrong attempts came before, and any other key is always refused, whatever the claim setting.
   */
  lemma KeyedRoomIgnoresClaim(key: string, presented: string, allowClaim: bool)
    requires !NoKey(Some(key))
    ensures Authorize(Some(key), key, allowClaim) == Granted(key, false)
    ensures presented != key ==> Authorize(Some(key), presented, allowClaim) == Forbidden
  {
  }

  /** A claimed key authorises the request that claimed it and, once stored, every later request bearing it. */
  lemma ClaimedKeyKeepsWorking(presented: string, stored: Option<string>)
    requires NoKey(stored) && IsClaimKey(presented)
    ensures Authorize(stored, presented, true) == Granted(presented, true)
    ensures Authorize(Some(presented), presented, false) == Granted(presented, false)
  {
  }
}
