/** The server side of the SRP-6 variant used at login (crates/wow-srp, crates/game/src/accounts.rs).
    SHA-1 is a parameter: every statement holds for any function returning 20 bytes. */
module Srp {
  import opened Bytes
  import opened Modular

  type Sha1 = seq<byte> -> Bytes20

  const G: nat := 7
  const N: nat := 0x894B645E89E1535BBDAD5B8B290650530801B18EBFBF5E8FAB3C82872A3E9BB7
  const MULTIPLIER: nat := 3
  const COLON: byte := 0x3A

  datatype LoginFailure = Suspended | Banned | UnknownAccount | IncorrectPassword | DatabaseError

  /** The state of one login attempt; a connect token holds exactly this. */
  datatype Server = Server(salt: Bytes32, verifier: Bytes32, identityHash: Bytes20, b: Bytes32, bPub: Bytes32)

  /** What a client must present to resume a session. */
  datatype ReconnectToken = ReconnectToken(reconnectProof: Bytes16, username: seq<byte>, sessionKey: Bytes40)

  function ToArray32(n: nat): Outcome<Bytes32> {
    match ToArray(n, 32)
    case Returned(bytes) => Returned(bytes)
    case Panicked => Panicked
  }

  lemma ToArray32Exact(n: nat)
    ensures ToArray32(n).Returned? <==> Span(31) <= n < Span(32)
    ensures ToArray32(n).Returned? ==> FromLe(ToArray32(n).value) == n && ToArray32(n).value == PadLe(n, 32)
  {
    ToArrayExact(n, 32);
  }

  function CredentialExponent(sha: Sha1, username: seq<byte>, password: seq<byte>, salt: Bytes32): nat {
    FromLe(sha(salt + sha(username + [COLON] + password)))
  }

  function VerifierFromCredentials(sha: Sha1, username: seq<byte>, password: seq<byte>, salt: Bytes32): Outcome<Bytes32> {
    ToArray32(ModPow(G, CredentialExponent(sha, username, password, salt), N))
  }

  function BlindedPower(b: nat, v: nat): nat {
    (ModPow(G, b, N) + v * MULTIPLIER) % N
  }

  function CalculateBPub(b: Bytes32, verifier: Bytes32): Outcome<Bytes32> {
    ToArray32(BlindedPower(FromBe(b), FromLe(verifier)))
  }

  function NewWithB(sha: Sha1, username: seq<byte>, salt: Bytes32, verifier: Bytes32, b: Bytes32): Outcome<Server> {
    match CalculateBPub(b, verifier)
    case Returned(bPub) => Returned(Server(salt, verifier, sha(username), b, bPub))
    case Panicked => Panicked
  }

  function Scrambler(sha: Sha1, aPub: Bytes32, bPub: Bytes32): nat {
    FromLe(sha(aPub + bPub))
  }

  function ServerSecret(aPub: nat, v: nat, u: nat, b: nat): nat {
    ModPow(aPub * ModPow(v, u, N), b, N)
  }

  function Premaster(sha: Sha1, server: Server, aPub: Bytes32): nat {
    ServerSecret(FromLe(aPub), FromLe(server.verifier), Scrambler(sha, aPub, server.bPub), FromBe(server.b))
  }

  /** Bit by bit, set exactly where the two differ. */
  function XorDigests(x: Bytes20, y: Bytes20): (r: Bytes20)
    ensures forall i, k :: 0 <= i < 20 && 0 <= k < 8 ==> (Bit(r[i], k) == 1 <==> Bit(x[i], k) != Bit(y[i], k))
  {
    seq(20, i requires 0 <= i < 20 => Xor(x[i], y[i]))
  }

  /** The client proof M1. */
  function ClientProof(sha: Sha1, identityHash: Bytes20, salt: Bytes32, aPub: Bytes32, bPub: Bytes32, key: Bytes40): Bytes20 {
    sha(XorDigests(sha(ToLe(N)), sha(ToLe(G))) + identityHash + salt + aPub + bPub + key)
  }

  /** The server proof M2. */
  function ServerProof(sha: Sha1, aPub: Bytes32, clientProof: Bytes20, key: Bytes40): Bytes20 {
    sha(aPub + clientProof + key)
  }

  // ---- SHA_Interleave, as section 3.1 of RFC 2945 words it: strip first, then split ----

  function StripLeadingZeros(s: seq<byte>): seq<byte> {
    if s != [] && s[0] == 0 then StripLeadingZeros(s[1..]) else s
  }

  function StripToEven(s: seq<byte>): (r: seq<byte>)
    ensures |r| % 2 == 0
  {
    var t := StripLeadingZeros(s);
    if |t| % 2 == 1 then t[1..] else t
  }

  function EvenBytes(s: seq<byte>): seq<byte>
    requires |s| % 2 == 0
  {
    if s == [] then [] else [s[0]] + EvenBytes(s[2..])
  }

  function OddBytes(s: seq<byte>): seq<byte>
    requires |s| % 2 == 0
  {
    if s == [] then [] else [s[1]] + OddBytes(s[2..])
  }

  function Weave(x: seq<byte>, y: seq<byte>): (r: seq<byte>)
    requires |x| == |y|
    ensures |r| == 2 * |x|
  {
    if x == [] then [] else [x[0], y[0]] + Weave(x[1..], y[1..])
  }

  function ShaInterleave(sha: Sha1, s: seq<byte>): Bytes40 {
    var t := StripToEven(s);
    Weave(sha(EvenBytes(t)), sha(OddBytes(t)))
  }

  lemma {:induction false} StripAt(s: seq<byte>, p: nat)
    requires p <= |s| && (forall i :: 0 <= i < p ==> s[i] == 0)
    requires p == |s| || s[p] != 0
    ensures StripLeadingZeros(s) == s[p..]
  {
    if p > 0 {
      StripAt(s[1..], p - 1);
    }
  }

  lemma {:induction false} SplitAt(s: seq<byte>, i: nat)
    requires |s| % 2 == 0
    ensures |EvenBytes(s)| == |OddBytes(s)| == |s| / 2
    ensures i < |s| / 2 ==> EvenBytes(s)[i] == s[2 * i] && OddBytes(s)[i] == s[2 * i + 1]
  {
    if s != [] {
      SplitAt(s[2..], if i > 0 then i - 1 else 0);
    }
  }

  lemma {:induction false} WeaveAt(x: seq<byte>, y: seq<byte>, i: nat)
    requires |x| == |y| && i < |x|
    ensures Weave(x, y)[2 * i] == x[i] && Weave(x, y)[2 * i + 1] == y[i]
  {
    if i > 0 {
      WeaveAt(x[1..], y[1..], i - 1);
      assert Weave(x, y)[2..] == Weave(x[1..], y[1..]);
    }
  }

  /** Splitting a tail is dropping a prefix of each half. */
  lemma SplitTail(s: Bytes32, start: nat, left: seq<byte>, right: seq<byte>, t: seq<byte>)
    requires start <= 16 && t == s[2 * start..]
    requires |left| == |right| == 16 && forall i :: 0 <= i < 16 ==> left[i] == s[2 * i] && right[i] == s[2 * i + 1]
    ensures EvenBytes(t) == left[start..] && OddBytes(t) == right[start..]
  {
    SplitAt(t, 0);
    forall i | 0 <= i < 16 - start
      ensures EvenBytes(t)[i] == left[start + i] && OddBytes(t)[i] == right[start + i]
    {
      SplitAt(t, i);
      assert t[2 * i] == s[2 * (start + i)] && t[2 * i + 1] == s[2 * (start + i) + 1];
    }
  }

  /** Splitting all 32 bytes and dropping `start` from each half is what strip-then-split produces. */
  lemma SplitThenStrip(s: Bytes32, p: nat, left: seq<byte>, right: seq<byte>)
    requires p <= 32 && (forall i :: 0 <= i < p ==> s[i] == 0) && (p == 32 || s[p] != 0)
    requires |left| == |right| == 16 && forall i :: 0 <= i < 16 ==> left[i] == s[2 * i] && right[i] == s[2 * i + 1]
    ensures var start := (if p < 32 then p + 1 else 32) / 2;
            EvenBytes(StripToEven(s)) == left[start..] && OddBytes(StripToEven(s)) == right[start..]
  {
    var start := (if p < 32 then p + 1 else 32) / 2;
    StripAt(s, p);
    SplitTail(s, start, left, right, StripToEven(s));
  }

  // ---- SHA_Interleave position by position ----

  function LeadingZeros(s: seq<byte>): (z: nat)
    ensures z <= |s|
  {
    if s == [] || s[0] != 0 then 0 else 1 + LeadingZeros(s[1..])
  }

  /** Every second byte from `start` on. */
  function EverySecond(s: Bytes32, start: nat): seq<byte>
    requires start <= 33
  {
    seq((33 - start) / 2, i requires 0 <= i < (33 - start) / 2 => s[start + 2 * i])
  }

  /** The two hashes alternate; they are of the bytes at even and at odd places behind the leading zeros, counted in pairs. */
  function Interleaved(sha: Sha1, s: Bytes32): Bytes40 {
    var start := (LeadingZeros(s) + 1) / 2 * 2;
    InTurn(sha(EverySecond(s, start)), sha(EverySecond(s, start + 1)))
  }

  function InTurn(even: Bytes20, odd: Bytes20): Bytes40 {
    seq(40, i requires 0 <= i < 40 => if i % 2 == 0 then even[i / 2] else odd[i / 2])
  }

  lemma {:induction false} ZerosAt(s: seq<byte>)
    ensures var z := LeadingZeros(s); (forall i :: 0 <= i < z ==> s[i] == 0) && (z == |s| || s[z] != 0)
  {
    if s != [] && s[0] == 0 {
      ZerosAt(s[1..]);
    }
  }

  lemma InterleavedHalves(s: Bytes32, left: seq<byte>, right: seq<byte>, half: nat)
    requires |left| == |right| == 16 && forall i :: 0 <= i < 16 ==> left[i] == s[2 * i] && right[i] == s[2 * i + 1]
    requires half <= 16
    ensures EverySecond(s, 2 * half) == left[half..] && EverySecond(s, 2 * half + 1) == right[half..]
  {
  }

  lemma StrippedHalves(s: Bytes32, half: nat)
    requires half == (LeadingZeros(s) + 1) / 2
    ensures EvenBytes(StripToEven(s)) == EverySecond(s, 2 * half) && OddBytes(StripToEven(s)) == EverySecond(s, 2 * half + 1)
  {
    var left, right := seq(16, i requires 0 <= i < 16 => s[2 * i]), seq(16, i requires 0 <= i < 16 => s[2 * i + 1]);
    ZerosAt(s);
    SplitThenStrip(s, LeadingZeros(s), left, right);
    InterleavedHalves(s, left, right, half);
  }

  lemma InTurnWoven(even: Bytes20, odd: Bytes20)
    ensures InTurn(even, odd) == Weave(even, odd)
  {
    WovenIsWeave(InTurn(even, odd), even, odd);
  }

  /** The wording of RFC 2945, byte by byte. */
  lemma InterleaveExact(sha: Sha1, s: Bytes32)
    ensures ShaInterleave(sha, s) == Interleaved(sha, s)
  {
    StrippedHalves(s, (LeadingZeros(s) + 1) / 2);
    InTurnWoven(sha(EvenBytes(StripToEven(s))), sha(OddBytes(StripToEven(s))));
  }

  /** `derive_session_key`: split into two arrays, skip the same prefix of both, hash, interleave. */
  method DeriveSessionKey(sha: Sha1, premaster: Bytes32) returns (key: Bytes40)
    ensures key == ShaInterleave(sha, premaster)
  {
    var left, right := new byte[16], new byte[16];
    for i := 0 to 16
      invariant forall j :: 0 <= j < i ==> left[j] == premaster[2 * j] && right[j] == premaster[2 * j + 1]
    {
      left[i] := premaster[2 * i];
      right[i] := premaster[2 * i + 1];
    }

    var first := 0;
    while first < 32 && premaster[first] == 0
      invariant 0 <= first <= 32 && forall j :: 0 <= j < first ==> premaster[j] == 0
    {
      first := first + 1;
    }
    var start := (if first < 32 then first + 1 else 32) / 2;
    SplitThenStrip(premaster, first, left[..], right[..]);
    assert left[..][start..] == left[start..] && right[..][start..] == right[start..];

    var leftHash, rightHash := sha(left[start..]), sha(right[start..]);
    var k := new byte[40];
    for i := 0 to 20
      invariant forall j :: 0 <= j < i ==> k[2 * j] == leftHash[j] && k[2 * j + 1] == rightHash[j]
    {
      k[2 * i] := leftHash[i];
      k[2 * i + 1] := rightHash[i];
    }
    key := k[..];
    WovenIsWeave(key, leftHash, rightHash);
  }

  lemma WovenIsWeave(k: Bytes40, x: Bytes20, y: Bytes20)
    requires forall j :: 0 <= j < 20 ==> k[2 * j] == x[j] && k[2 * j + 1] == y[j]
    ensures k == Weave(x, y)
  {
    forall i | 0 <= i < 40
      ensures k[i] == Weave(x, y)[i]
    {
      WeaveAt(x, y, i / 2);
      assert i == 2 * (i / 2) || i == 2 * (i / 2) + 1;
    }
  }

  /** What `verify_challenge_response` answers, with the key derivation of the RFC. */
  function ChallengeResponse(sha: Sha1, server: Server, aPub: Bytes32, clientM: Bytes20): Outcome<Option<Bytes40>> {
    if FromLe(aPub) % N == 0 then Returned(None)
    else match ToArray32(Premaster(sha, server, aPub))
      case Panicked => Panicked
      case Returned(secret) =>
        var key := ShaInterleave(sha, secret);
        if ClientProof(sha, server.identityHash, server.salt, aPub, server.bPub, key) == clientM
        then Returned(Some(key)) else Returned(None)
  }

  method VerifyChallengeResponse(sha: Sha1, server: Server, aPub: Bytes32, clientM: Bytes20)
    returns (r: Outcome<Option<Bytes40>>)
    ensures r == ChallengeResponse(sha, server, aPub, clientM)
  {
    if FromLe(aPub) % N == 0 {
      return Returned(None);
    }
    var u := FromLe(sha(aPub + server.bPub));
    var premaster := ServerSecret(FromLe(aPub), FromLe(server.verifier), u, FromBe(server.b));
    var secret := ToArray32(premaster);
    if secret.Panicked? {
      return Panicked;
    }
    var key := DeriveSessionKey(sha, secret.value);
    var serverM := ClientProof(sha, server.identityHash, server.salt, aPub, server.bPub, key);
    r := Returned(if serverM == clientM then Some(key) else None);
  }

  /** `ConnectToken::accept`. */
  function Accept(sha: Sha1, server: Server, aPub: Bytes32, clientM: Bytes20): Outcome<Result<(Bytes20, Bytes40), LoginFailure>> {
    match ChallengeResponse(sha, server, aPub, clientM)
    case Panicked => Panicked
    case Returned(None) => Returned(Err(IncorrectPassword))
    case Returned(Some(key)) => Returned(Ok((ServerProof(sha, aPub, clientM, key), key)))
  }

  /** `ReconnectToken::accept`. */
  predicate AcceptReconnect(sha: Sha1, token: ReconnectToken, proofData: Bytes16, clientProof: Bytes20) {
    sha(token.username + proofData + token.reconnectProof + token.sessionKey) == clientProof
  }
}
