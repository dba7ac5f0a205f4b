/** The signed QR payload: what is signed, with which key, and when a signature is
    accepted. The MAC itself is an arbitrary function. */
module QrPayload {
  import opened Prelude

  type Byte = b: int | 0 <= b < 256
  type Bytes = seq<Byte>

  /** hex(HMAC-SHA256): 64 characters. */
  type Digest = d: Bytes | |d| == 64 witness seq(64, _ => 48)
  type Mac = (Bytes, Bytes) -> Digest

  const PAYLOAD_SIG_LEN := 24
  const LEGACY_SIG_LEN := 16
  const TTL_SECONDS := 300
  const SKEW_SECONDS := 30

  // ---- The signed message ----

  function DigitsOf(n: nat): Bytes {
    if n < 10 then [48 + n] else DigitsOf(n / 10) + [48 + n % 10]
  }

  /** strconv.FormatInt(t, 10) */
  function Decimal(t: int): Bytes {
    if t < 0 then [45] + DigitsOf(-t) else DigitsOf(t)
  }

  function ParseDigits(s: Bytes): int {
    if s == [] then 0
    else
      var digit: int := s[|s| - 1];
      10 * ParseDigits(s[..|s| - 1]) + digit - 48
  }

  function ParseDecimal(s: Bytes): int {
    if s != [] && s[0] == 45 then -ParseDigits(s[1..]) else ParseDigits(s)
  }

  lemma {:induction false} DigitsRoundTrip(n: nat)
    ensures ParseDigits(DigitsOf(n)) == n && DigitsOf(n) != [] && DigitsOf(n)[0] != 45
    ensures forall i :: 0 <= i < |DigitsOf(n)| ==> 48 <= DigitsOf(n)[i] <= 57
    ensures DigitsOf(n)[0] == 48 ==> n == 0
  {
    if n >= 10 {
      DigitsRoundTrip(n / 10);
      var s := DigitsOf(n / 10) + [48 + n % 10];
      assert s[..|s| - 1] == DigitsOf(n / 10);
    } else {
      assert [48 + n][..0] == [];
    }
  }

  lemma DecimalRoundTrip(t: int)
    ensures ParseDecimal(Decimal(t)) == t
  {
    if t < 0 {
      DigitsRoundTrip(-t);
      assert ([45] + DigitsOf(-t))[1..] == DigitsOf(-t);
    } else {
      DigitsRoundTrip(t);
    }
  }

  /** 0x01, id, 0x00, action, 0x00, decimal(t) */
  function Message(id: Bytes, action: Bytes, t: int): Bytes {
    [1] + id + [0] + action + [0] + Decimal(t)
  }

  /** id, 0x00, action: what clients signed before the timestamp was added. */
  function LegacyMessage(id: Bytes, action: Bytes): Bytes {
    id + [0] + action
  }

  predicate NulFree(s: Bytes) { 0 !in s }

  predicate IsHex(s: Bytes) {
    forall i :: 0 <= i < |s| ==> 48 <= s[i] <= 57 || 97 <= s[i] <= 102
  }

  /** The first NUL ends the first field. */
  lemma SplitAtNul(a: Bytes, x: Bytes, b: Bytes, y: Bytes)
    requires NulFree(a) && NulFree(b) && a + [0] + x == b + [0] + y
    ensures a == b && x == y
  {
    var s, t := a + [0] + x, b + [0] + y;
    assert s[|a|] == 0 && t[|b|] == 0;
    assert |b| <= |a| by { assert forall i :: 0 <= i < |b| ==> t[i] == b[i] != 0; }
    assert |a| <= |b| by { assert forall i :: 0 <= i < |a| ==> s[i] == a[i] != 0; }
    assert s[..|a|] == a && t[..|b|] == b;
    assert s[|a| + 1..] == x && t[|b| + 1..] == y;
  }

  lemma FieldsAreSeparated(id: Bytes, action: Bytes, x: Bytes, id': Bytes, action': Bytes, x': Bytes)
    requires NulFree(id) && NulFree(id') && NulFree(action) && NulFree(action')
    requires [1] + id + [0] + action + [0] + x == [1] + id' + [0] + action' + [0] + x'
    ensures id == id' && action == action' && x == x'
  {
    var m, m' := [1] + id + [0] + action + [0] + x, [1] + id' + [0] + action' + [0] + x';
    assert m[1..] == id + [0] + (action + [0] + x);
    assert m'[1..] == id' + [0] + (action' + [0] + x');
    SplitAtNul(id, action + [0] + x, id', action' + [0] + x');
    SplitAtNul(action, x, action', x');
  }

  lemma DecimalIsInjective(t: int, t': int)
    requires Decimal(t) == Decimal(t')
    ensures t == t'
  {
    DecimalRoundTrip(t);
    DecimalRoundTrip(t');
  }

  /** Two different (id, action, t) never share a signed message. */
  lemma MessageIsInjective(id: Bytes, action: Bytes, t: int, id': Bytes, action': Bytes, t': int)
    requires IsHex(id) && IsHex(id') && NulFree(action) && NulFree(action')
    requires Message(id, action, t) == Message(id', action', t')
    ensures id == id' && action == action' && t == t'
  {
    FieldsAreSeparated(id, action, Decimal(t), id', action', Decimal(t'));
    DecimalIsInjective(t, t');
  }

  /** The domain separator keeps the two generations of messages apart. */
  lemma NeverALegacyMessage(id: Bytes, action: Bytes, t: int, id': Bytes, action': Bytes)
    requires IsHex(id')
    ensures Message(id, action, t) != LegacyMessage(id', action')
  {
    assert Message(id, action, t)[0] == 1;
    assert LegacyMessage(id', action')[0] == if id' == [] then 0 else id'[0];
  }

  // ---- The acceptance window ----

  /** Both int64 subtractions can wrap around. */
  predicate InWindow(now: int, t: int) {
    !(Wrap64(now - t) > TTL_SECONDS + SKEW_SECONDS) && !(Wrap64(t - now) > SKEW_SECONDS)
  }

  lemma WrapIs(x: int)
    requires -TWO64 < x < TWO64
    ensures Wrap64(x) == if x < -TWO63 then x + TWO64 else if x < TWO63 then x else x - TWO64
  {
  }

  /** Where one of the two subtractions overflows and the check passes all the same. */
  predicate Wraps(now: int, t: int) {
    now - t == TWO63 || t - now == TWO63 || now - t >= TWO64 - SKEW_SECONDS || t - now >= TWO64 - TTL_SECONDS - SKEW_SECONDS
  }

  /** For every int64 a client may send as t, the check accepts t-30 .. t+330 seconds
      and, beyond that, exactly the overflow cases; with a clock and a timestamp after
      1970 there are none. */
  lemma WindowIff(now: int, t: int)
    requires IsInt64(now) && IsInt64(t)
    ensures InWindow(now, t) <==> t - SKEW_SECONDS <= now <= t + TTL_SECONDS + SKEW_SECONDS || Wraps(now, t)
    ensures 0 <= now && 0 <= t ==> !Wraps(now, t)
  {
    WrapIs(now - t);
    WrapIs(t - now);
  }

  /** For a clock after 1970 the one timestamp that overflow lets in beside the window is
      2^63 seconds back. */
  lemma OneWrappingTimestamp(now: int, t: int)
    requires 0 <= now < TWO63 - SKEW_SECONDS && IsInt64(t)
    ensures InWindow(now, t) <==> t - SKEW_SECONDS <= now <= t + TTL_SECONDS + SKEW_SECONDS || t == now - TWO63
  {
    WindowIff(now, t);
  }

  // ---- The keyring ----

  datatype KeyEntry = KeyEntry(kid: string, secret: Bytes)

  predicate KidLess(a: string, b: string) {
    b != [] && (a == [] || a[0] < b[0] || (a[0] == b[0] && KidLess(a[1..], b[1..])))
  }

  lemma {:induction false} KidLessIsTotal(a: string, b: string)
    ensures a == b || KidLess(a, b) || KidLess(b, a)
    ensures !(KidLess(a, b) && KidLess(b, a))
  {
    if a != [] && b != [] && a[0] == b[0] {
      KidLessIsTotal(a[1..], b[1..]);
      if a[1..] == b[1..] { assert a == [a[0]] + a[1..] && b == [b[0]] + b[1..]; }
    }
  }

  /** A ring holds the configured keys in some order that is ascending by kid. */
  ghost predicate IsRing(ring: seq<KeyEntry>, keys: multiset<KeyEntry>) {
    && multiset(ring) == keys
    && forall i, j :: 0 <= i < j < |ring| ==> !KidLess(ring[j].kid, ring[i].kid)
  }

  /** The signer: the last, hence greatest, kid. */
  function Current(ring: seq<KeyEntry>): KeyEntry
    requires ring != []
  {
    ring[|ring| - 1]
  }

  lemma CurrentIsGreatest(ring: seq<KeyEntry>, keys: multiset<KeyEntry>, k: KeyEntry)
    requires IsRing(ring, keys) && ring != [] && k in keys
    ensures Current(ring) in keys && !KidLess(Current(ring).kid, k.kid)
  {
    assert k in ring;
    var i :| 0 <= i < |ring| && ring[i] == k;
    KidLessIsTotal(k.kid, k.kid);
    assert Current(ring) in ring;
  }

  /** Adding a key with a new kid changes the signer exactly when its kid is greater. */
  lemma AddedKeySignsIff(ring: seq<KeyEntry>, keys: multiset<KeyEntry>, added: KeyEntry, ring': seq<KeyEntry>)
    requires IsRing(ring, keys) && ring != [] && IsRing(ring', keys + multiset{added})
    requires forall k :: k in keys ==> k.kid != added.kid
    requires forall k, l :: k in keys && l in keys && k.kid == l.kid ==> k == l
    ensures ring' != []
    ensures Current(ring') == if KidLess(Current(ring).kid, added.kid) then added else Current(ring)
  {
    assert added in multiset(ring');
    var keys' := keys + multiset{added};
    var c, c' := Current(ring), Current(ring');
    CurrentIsGreatest(ring, keys, c);
    CurrentIsGreatest(ring', keys', c);
    CurrentIsGreatest(ring', keys', added);
    KidLessIsTotal(c.kid, added.kid);
    KidLessIsTotal(c'.kid, c.kid);
    KidLessIsTotal(c'.kid, added.kid);
    if c' != added {
      assert c' in keys;
      CurrentIsGreatest(ring, keys, c');
    }
  }

  function Signature(mac: Mac, secret: Bytes, id: Bytes, action: Bytes, t: int): Bytes {
    mac(secret, Message(id, action, t))[..PAYLOAD_SIG_LEN]
  }

  function LegacySignature(mac: Mac, secret: Bytes, id: Bytes, action: Bytes): Bytes {
    mac(secret, LegacyMessage(id, action))[..LEGACY_SIG_LEN]
  }

  ghost predicate AcceptedByRing(mac: Mac, ring: seq<KeyEntry>, id: Bytes, action: Bytes, t: int, got: Bytes) {
    exists k :: k in ring && got == Signature(mac, k.secret, id, action, t)
  }

  ghost predicate AcceptedAsLegacy(mac: Mac, ring: seq<KeyEntry>, id: Bytes, action: Bytes, got: Bytes) {
    exists k :: k in ring && got == LegacySignature(mac, k.secret, id, action)
  }

  /** verifyPayloadSig: every key is tried, with no early exit. */
  method VerifyPayloadSig(mac: Mac, ring: seq<KeyEntry>, now: int, id: Bytes, action: Bytes, t: int, got: Bytes)
    returns (matched: bool)
    ensures matched <==>
      InWindow(now, t) && exists k :: k in ring && got == mac(k.secret, [1] + id + [0] + action + [0] + Decimal(t))[..24]
  {
    if Wrap64(now - t) > TTL_SECONDS + SKEW_SECONDS { return false; }
    if Wrap64(t - now) > SKEW_SECONDS { return false; }
    matched := false;
    for i := 0 to |ring|
      invariant matched <==> exists j :: 0 <= j < i && got == Signature(mac, ring[j].secret, id, action, t)
    {
      var want := Signature(mac, ring[i].secret, id, action, t);
      if want == got {
        matched := true;
      }
    }
  }

  /** verifyPayloadSigLegacy */
  method VerifyPayloadSigLegacy(mac: Mac, ring: seq<KeyEntry>, id: Bytes, action: Bytes, got: Bytes)
    returns (matched: bool)
    ensures matched <==> exists k :: k in ring && got == mac(k.secret, id + [0] + action)[..16]
  {
    matched := false;
    for i := 0 to |ring|
      invariant matched <==> exists j :: 0 <= j < i && got == LegacySignature(mac, ring[j].secret, id, action)
    {
      var want := LegacySignature(mac, ring[i].secret, id, action);
      if want == got {
        matched := true;
      }
    }
  }

  /** The MAC's 24-character prefixes tell these texts apart under this secret. */
  ghost predicate Separates(mac: Mac, secret: Bytes, texts: set<Bytes>) {
    forall m, m' :: m in texts && m' in texts && mac(secret, m)[..24] == mac(secret, m')[..24] ==> m == m'
  }

  /** A tag binds the session, the action and the time: one that is accepted for two payloads
      under one secret, whose MAC tells the texts signed with it apart, is for one and the same. */
  lemma TagBindsThePayload(mac: Mac, secret: Bytes, kid: string, texts: set<Bytes>, got: Bytes,
                           id: Bytes, action: Bytes, t: int, id': Bytes, action': Bytes, t': int)
    requires IsHex(id) && IsHex(id') && NulFree(action) && NulFree(action')
    requires Separates(mac, secret, texts)
    requires [1] + id + [0] + action + [0] + Decimal(t) in texts && [1] + id' + [0] + action' + [0] + Decimal(t') in texts
    requires AcceptedByRing(mac, [KeyEntry(kid, secret)], id, action, t, got)
    requires AcceptedByRing(mac, [KeyEntry(kid, secret)], id', action', t', got)
    ensures id == id' && action == action' && t == t'
  {
    assert got == Signature(mac, secret, id, action, t) == Signature(mac, secret, id', action', t');
    assert got == mac(secret, [1] + id + [0] + action + [0] + Decimal(t))[..24];
    assert got == mac(secret, [1] + id' + [0] + action' + [0] + Decimal(t'))[..24];
    FieldsAreSeparated(id, action, Decimal(t), id', action', Decimal(t'));
    DecimalIsInjective(t, t');
  }

  /** A payload signed now is accepted, whatever keys are added or removed meanwhile,
      at exactly the times of its window, as long as the signing secret stays. */
  lemma RotationKeepsPayloads(mac: Mac, ring: seq<KeyEntry>, later: seq<KeyEntry>, id: Bytes, action: Bytes, t: int, now: int)
    requires ring != [] && 0 <= t < TWO63 && 0 <= now < TWO63
    requires exists k :: k in later && k.secret == Current(ring).secret
    ensures var sig := Signature(mac, Current(ring).secret, id, action, t);
            InWindow(now, t) && AcceptedByRing(mac, later, id, action, t, sig)
            <==> t - 30 <= now <= t + 330
  {
    WindowIff(now, t);
  }

  /** No text is accepted by both generations, whatever the MAC: their tags differ in length. */
  lemma GenerationsDoNotMix(mac: Mac, ring: seq<KeyEntry>, id: Bytes, action: Bytes, t: int, id': Bytes, action': Bytes, got: Bytes)
    requires AcceptedByRing(mac, ring, id, action, t, got)
    ensures !AcceptedAsLegacy(mac, ring, id', action', got)
  {
    var k :| k in ring && got == Signature(mac, k.secret, id, action, t);
    assert |got| == PAYLOAD_SIG_LEN;
  }
}
