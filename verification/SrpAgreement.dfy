/** The honest client, from section 2.6 of RFC 5054 and section 3 of RFC 2945 with k = 3 and
    little-endian integers, and what a run of it against the server is worth. */
module SrpAgreement {
  import opened Bytes
  import opened Modular
  import opened Srp

  const G_INVERSE: nat := 0x621147B13DEA16F862E98A87F8BB5DF22A4A5A4164641EF8E806A6608BE393CC

  datatype Client = Client(username: seq<byte>, password: seq<byte>, a: nat)

  lemma GeneratorIsUnit()
    ensures N > 1 && G * G_INVERSE % N == 1
  {
    assert G * G_INVERSE == 1 + 5 * N;
  }

  lemma PowerNonzero(e: nat)
    ensures ModPow(G, e, N) != 0 && ModPow(G, e, N) % N != 0
  {
    GeneratorIsUnit();
    UnitPowerNonzero(G, G_INVERSE, e, N);
    SmallMod(ModPow(G, e, N), N);
  }

  lemma ModulusWidth()
    ensures Span(31) <= N < Span(32)
  {
    WidthValues();
    assert Span(16) == 0x1_0000_0000_0000_0000 * 0x1_0000_0000_0000_0000 by { SpanAdd(8, 8); }
    SpanAdd(16, 8);
    SpanAdd(24, 4);
    SpanAdd(28, 2);
    SpanAdd(30, 1);
    SpanAdd(31, 1);
  }

  lemma MultiplyThree(a: nat, b: nat, c: nat)
    ensures a * (b * c) == (a * b) * c
  {
  }

  lemma {:induction false} SpanAdd(i: nat, j: nat)
    ensures Span(i + j) == Span(i) * Span(j)
  {
    if i > 0 {
      SpanAdd(i - 1, j);
      MultiplyThree(256, Span(i - 1), Span(j));
    }
  }

  /** A = g^a mod N, always sent as 32 bytes. */
  function PublicKey(client: Client): Bytes32 {
    PadLe(ModPow(7, client.a, N), 32)
  }

  /** (B - 3 g^x)^(a + u x) mod N. */
  function ClientSecret(bPub: nat, x: nat, u: nat, a: nat): nat {
    ModPow((bPub - 3 * ModPow(7, x, N)) % N, a + u * x, N)
  }

  /** x = SHA1(s | SHA1(I | ":" | P)) and u = SHA1(A | B). */
  function ClientPremaster(sha: Sha1, client: Client, salt: Bytes32, bPub: Bytes32): nat {
    var x := FromLe(sha(salt + sha(client.username + [0x3A] + client.password)));
    var u := FromLe(sha(PublicKey(client) + bPub));
    ClientSecret(FromLe(bPub), x, u, client.a)
  }

  function ClientKey(sha: Sha1, client: Client, salt: Bytes32, bPub: Bytes32): Bytes40 {
    Interleaved(sha, PadLe(ClientPremaster(sha, client, salt, bPub), 32))
  }

  /** M1 = SHA1(SHA1(N) xor SHA1(g) | SHA1(I) | s | A | B | K). */
  function ClientM1(sha: Sha1, client: Client, salt: Bytes32, bPub: Bytes32): Bytes20 {
    sha(XorDigests(sha(PadLe(N, 32)), sha([7])) + sha(client.username) + salt + PublicKey(client) + bPub
        + ClientKey(sha, client, salt, bPub))
  }

  /** M2 = SHA1(A | M1 | K). */
  function ExpectedM2(sha: Sha1, client: Client, salt: Bytes32, bPub: Bytes32): Bytes20 {
    sha(PublicKey(client) + ClientM1(sha, client, salt, bPub) + ClientKey(sha, client, salt, bPub))
  }

  /** The server was set up with this client's verifier: registration and `new_with_b` both returned. */
  predicate SetUpFor(sha: Sha1, client: Client, salt: Bytes32, b: Bytes32, server: Server) {
    && var v := VerifierFromCredentials(sha, client.username, client.password, salt);
    && v.Returned?
    && NewWithB(sha, client.username, salt, v.value, b) == Returned(server)
  }

  lemma PublicKeyValue(client: Client)
    ensures FromLe(PublicKey(client)) == ModPow(G, client.a, N)
  {
    ModulusWidth();
    PaddedRoundTrip(ModPow(G, client.a, N), 32);
  }

  lemma VerifierValue(sha: Sha1, username: seq<byte>, password: seq<byte>, salt: Bytes32, verifier: Bytes32)
    requires VerifierFromCredentials(sha, username, password, salt) == Returned(verifier)
    ensures FromLe(verifier) == ModPow(G, CredentialExponent(sha, username, password, salt), N)
  {
    ToArray32Exact(ModPow(G, CredentialExponent(sha, username, password, salt), N));
  }

  lemma PublicValue(b: Bytes32, verifier: Bytes32, bPub: Bytes32)
    requires CalculateBPub(b, verifier) == Returned(bPub)
    ensures FromLe(bPub) == BlindedPower(FromBe(b), FromLe(verifier))
  {
    ToArray32Exact(BlindedPower(FromBe(b), FromLe(verifier)));
  }

  lemma SetUpParts(sha: Sha1, client: Client, salt: Bytes32, b: Bytes32, server: Server)
    requires SetUpFor(sha, client, salt, b, server)
    ensures VerifierFromCredentials(sha, client.username, client.password, salt) == Returned(server.verifier)
    ensures CalculateBPub(b, server.verifier) == Returned(server.bPub)
    ensures server.salt == salt && server.b == b && server.identityHash == sha(client.username)
  {
  }

  /** Both formulas for the shared secret are the same power of the generator. */
  lemma SecretsAgree(a: nat, b: nat, u: nat, x: nat, aPub: nat, bPub: nat, v: nat) returns (e: nat)
    requires aPub == ModPow(G, a, N) && v == ModPow(G, x, N) && bPub == BlindedPower(b, v)
    ensures ServerSecret(aPub, v, u, b) == ClientSecret(bPub, x, u, a) == ModPow(G, e, N)
  {
    e := (a + u * x) * b;
    ServerPower(G, N, a, b, u, x);
    ClientPower(G, N, a, b, u, x, MULTIPLIER * v);
  }

  /** The numbers the server holds, in terms of the client's secrets. */
  lemma PublicNumbers(sha: Sha1, client: Client, salt: Bytes32, b: Bytes32, server: Server, x: nat)
    requires SetUpFor(sha, client, salt, b, server)
    requires x == CredentialExponent(sha, client.username, client.password, salt)
    ensures FromLe(PublicKey(client)) == ModPow(G, client.a, N)
    ensures FromLe(server.verifier) == ModPow(G, x, N)
    ensures FromLe(server.bPub) == BlindedPower(FromBe(b), FromLe(server.verifier))
    ensures server.salt == salt && server.b == b && server.identityHash == sha(client.username)
  {
    SetUpParts(sha, client, salt, b, server);
    VerifierValue(sha, client.username, client.password, salt, server.verifier);
    PublicValue(b, server.verifier, server.bPub);
    PublicKeyValue(client);
  }

  /** Both sides compute the same premaster secret, a power of the generator. */
  lemma PremasterAgreement(sha: Sha1, client: Client, salt: Bytes32, b: Bytes32, server: Server) returns (e: nat)
    requires SetUpFor(sha, client, salt, b, server)
    ensures ClientPremaster(sha, client, salt, server.bPub) == Premaster(sha, server, PublicKey(client)) == ModPow(G, e, N)
  {
    var x := CredentialExponent(sha, client.username, client.password, salt);
    var u := Scrambler(sha, PublicKey(client), server.bPub);
    PublicNumbers(sha, client, salt, b, server, x);
    e := SecretsAgree(client.a, FromBe(b), u, x, FromLe(PublicKey(client)), FromLe(server.bPub), FromLe(server.verifier));
  }

  /** The verifier, the client's public value and the premaster secret of an honest run are never zero,
      so the zero check of `verify_challenge_response` never turns an honest client away. */
  lemma HonestValuesNonzero(sha: Sha1, client: Client, salt: Bytes32, b: Bytes32, server: Server)
    requires SetUpFor(sha, client, salt, b, server)
    ensures FromLe(server.verifier) != 0
    ensures FromLe(PublicKey(client)) % N != 0
    ensures Premaster(sha, server, PublicKey(client)) != 0
  {
    var x := CredentialExponent(sha, client.username, client.password, salt);
    PublicNumbers(sha, client, salt, b, server, x);
    var e := PremasterAgreement(sha, client, salt, b, server);
    PowerNonzero(e);
    PowerNonzero(client.a);
    PowerNonzero(x);
  }

  /** Login end to end: an honest client's proof is accepted, and the server ends with the client's own key and
      the M2 the client expects, exactly when the shared secret fills 32 bytes; otherwise the server panics. */
  lemma HonestLogin(sha: Sha1, client: Client, salt: Bytes32, b: Bytes32, server: Server)
    requires SetUpFor(sha, client, salt, b, server)
    ensures Accept(sha, server, PublicKey(client), ClientM1(sha, client, salt, server.bPub))
            == if ClientPremaster(sha, client, salt, server.bPub) >= Span(31)
               then Returned(Ok((ExpectedM2(sha, client, salt, server.bPub), ClientKey(sha, client, salt, server.bPub))))
               else Panicked
  {
    var _ := PremasterAgreement(sha, client, salt, b, server);
    HonestValuesNonzero(sha, client, salt, b, server);
    SetUpParts(sha, client, salt, b, server);
    ModulusWidth();
    AcceptExact(sha, server, PublicKey(client), ClientM1(sha, client, salt, server.bPub));
  }

  lemma ModulusBytes()
    ensures ToLe(N) == PadLe(N, 32) && ToLe(G) == [7]
  {
    ModulusWidth();
    ToArray32Exact(N);
  }

  /** The shared secret as the server computes it: (A v^u)^b mod N with u = SHA1(A | B) and b read from its high end. */
  function SharedSecret(sha: Sha1, server: Server, aPub: Bytes32): nat {
    ModPow(FromLe(aPub) * ModPow(FromLe(server.verifier), FromLe(sha(aPub + server.bPub)), N), FromBe(server.b), N)
  }

  /** The only proof a server takes: SHA1(SHA1(N) xor SHA1(g) | SHA1(I) | s | A | B | K). */
  function RightProof(sha: Sha1, server: Server, aPub: Bytes32): Bytes20 {
    sha(XorDigests(sha(PadLe(N, 32)), sha([7])) + server.identityHash + server.salt + aPub + server.bPub
        + Interleaved(sha, PadLe(SharedSecret(sha, server, aPub), 32)))
  }

  lemma AcceptCases(sha: Sha1, server: Server, aPub: Bytes32, proof: Bytes20)
    ensures var secret, key := SharedSecret(sha, server, aPub), Interleaved(sha, PadLe(SharedSecret(sha, server, aPub), 32));
            Accept(sha, server, aPub, proof)
            == if FromLe(aPub) % N == 0 then Returned(Err(IncorrectPassword))
               else if secret < Span(31) then Panicked
               else if proof != RightProof(sha, server, aPub) then Returned(Err(IncorrectPassword))
               else Returned(Ok((sha(aPub + proof + key), key)))
  {
    var secret := SharedSecret(sha, server, aPub);
    assert secret == Premaster(sha, server, aPub);
    ModulusBytes();
    ModulusWidth();
    ToArray32Exact(secret);
    InterleaveExact(sha, PadLe(secret, 32));
  }

  /** What a proof is answered with, for every server, public value and proof: accepted with M2 and the key if it is the
      right one, a panic if the secret is too short for 32 bytes, and a wrong password in every other case, a public value
      of zero included. */
  lemma AcceptExact(sha: Sha1, server: Server, aPub: Bytes32, proof: Bytes20)
    ensures var secret, key := SharedSecret(sha, server, aPub), Interleaved(sha, PadLe(SharedSecret(sha, server, aPub), 32));
            && (Accept(sha, server, aPub, proof) == Returned(Ok((sha(aPub + proof + key), key)))
                <==> FromLe(aPub) % N != 0 && secret >= Span(31) && proof == RightProof(sha, server, aPub))
            && (Accept(sha, server, aPub, proof) == Panicked <==> FromLe(aPub) % N != 0 && secret < Span(31))
            && (Accept(sha, server, aPub, proof) == Returned(Err(IncorrectPassword))
                <==> FromLe(aPub) % N == 0 || (secret >= Span(31) && proof != RightProof(sha, server, aPub)))
  {
    AcceptCases(sha, server, aPub, proof);
  }

  /** Registration and set-up return exactly when the verifier and the server's public value fill 32 bytes. */
  lemma SetUpExact(sha: Sha1, client: Client, salt: Bytes32, b: Bytes32)
    ensures var v := ModPow(G, CredentialExponent(sha, client.username, client.password, salt), N);
            (exists server :: SetUpFor(sha, client, salt, b, server))
            <==> v >= Span(31) && BlindedPower(FromBe(b), v) >= Span(31)
  {
    var v := ModPow(G, CredentialExponent(sha, client.username, client.password, salt), N);
    ModulusWidth();
    ToArray32Exact(v);
    ToArray32Exact(BlindedPower(FromBe(b), v));
    if v >= Span(31) && BlindedPower(FromBe(b), v) >= Span(31) {
      var verifier := ToArray32(v).value;
      assert SetUpFor(sha, client, salt, b, NewWithB(sha, client.username, salt, verifier, b).value);
    }
  }

  /** After an honest login, the same client can resume: with the key both sides now hold, its answer to any
      reconnect challenge is accepted. */
  lemma HonestReconnect(sha: Sha1, client: Client, salt: Bytes32, b: Bytes32, server: Server,
                        key: Bytes40, m2: Bytes20, challenge: Bytes16, proofData: Bytes16)
    requires SetUpFor(sha, client, salt, b, server)
    requires Accept(sha, server, PublicKey(client), ClientM1(sha, client, salt, server.bPub)) == Returned(Ok((m2, key)))
    ensures var answer := sha(client.username + proofData + challenge + ClientKey(sha, client, salt, server.bPub));
            AcceptReconnect(sha, ReconnectToken(challenge, client.username, key), proofData, answer)
  {
    HonestLogin(sha, client, salt, b, server);
  }

  // ---- such logins exist ----

  /** A hash that gives the exponent `e` for a salted password and zero for everything else. */
  function ShortHash(e: byte): Sha1 {
    s => if |s| == 52 then [e] + seq(19, _ => 0) else seq(20, _ => 0)
  }

  lemma {:induction false} FromLeZeros(n: nat)
    ensures FromLe(seq(n, _ => 0)) == 0
  {
    if n > 0 {
      var s := seq(n, _ => 0);
      assert s[1..] == seq(n - 1, _ => 0);
      FromLeZeros(n - 1);
    }
  }

  lemma FromBeOne(b: Bytes32)
    requires b == seq(31, _ => 0) + [1]
    ensures FromBe(b) == 1
  {
    var zeros: seq<byte> := seq(31, _ => 0);
    assert b[..31] == zeros;
    FromBeZeros(31);
  }

  lemma {:induction false} FromBeZeros(n: nat)
    ensures FromBe(seq(n, _ => 0)) == 0
  {
    if n > 0 {
      var s: seq<byte> := seq(n, _ => 0);
      assert s[..n - 1] == seq(n - 1, _ => 0);
      FromBeZeros(n - 1);
    }
  }

  lemma SpanNumeral()
    ensures Span(31) == 0x100000000000000000000000000000000000000000000000000000000000000
  {
    WidthValues();
    SpanAdd(8, 8);
    SpanAdd(16, 8);
    SpanAdd(24, 4);
    SpanAdd(28, 2);
    SpanAdd(30, 1);
  }

  lemma Power89()
    ensures Pow(G, 89) == 0x39dd1f19a0696bba997a9fa8fd1398c5e98b92e39aca36623146c2f14c6c7c7
  {
    PowAdd(G, 44, 45);
    PowAdd(G, 22, 22);
    PowAdd(G, 22, 23);
    PowAdd(G, 11, 11);
    PowAdd(G, 11, 12);
  }

  lemma HashValues(e: byte, s: seq<byte>)
    ensures FromLe(ShortHash(e)(s)) == if |s| == 52 then e else 0
  {
    FromLeZeros(19);
    FromLeZeros(20);
    assert ([e] + seq(19, _ => 0))[1..] == seq(19, _ => 0);
  }

  /** The exponent gives a verifier and a public value of 32 bytes without reduction. */
  predicate Unreduced(e: nat) {
    Span(31) <= Pow(G, e) && G + MULTIPLIER * Pow(G, e) < N
  }

  lemma Unreduced89()
    ensures Unreduced(89)
  {
    Power89();
    SpanNumeral();
  }

  lemma UnreducedValues(e: nat, v: nat)
    requires Unreduced(e) && v == Pow(G, e)
    ensures ModPow(G, e, N) == v && BlindedPower(1, v) == G + MULTIPLIER * v
    ensures ClientSecret(G + MULTIPLIER * v, e, 0, e) == v
  {
    assert Pow(G, 1) == G * Pow(G, 0);
    SmallMod(v, N);
    SmallMod(G, N);
    SmallMod(G + MULTIPLIER * v, N);
    assert e + 0 * e == e;
  }

  lemma SetUpWith(sha: Sha1, e: nat, v: nat, client: Client, salt: Bytes32, b: Bytes32) returns (server: Server)
    requires Unreduced(e) && v == Pow(G, e) && FromBe(b) == 1
    requires CredentialExponent(sha, client.username, client.password, salt) == e
    ensures SetUpFor(sha, client, salt, b, server) && FromLe(server.bPub) == G + MULTIPLIER * v
  {
    UnreducedValues(e, v);
    SetUpExact(sha, client, salt, b);
    server :| SetUpFor(sha, client, salt, b, server);
    PublicNumbers(sha, client, salt, b, server, e);
  }

  lemma SecretWith(sha: Sha1, e: nat, v: nat, client: Client, aPub: Bytes32, salt: Bytes32, bPub: Bytes32)
    requires Unreduced(e) && v == Pow(G, e) && client.a == e && aPub == PublicKey(client)
    requires FromLe(bPub) == G + MULTIPLIER * v && FromLe(sha(aPub + bPub)) == 0
    requires CredentialExponent(sha, client.username, client.password, salt) == e
    ensures ClientPremaster(sha, client, salt, bPub) == v
  {
    UnreducedValues(e, v);
  }

  lemma LoginWith(e: byte, v: nat, client: Client, salt: Bytes32, b: Bytes32) returns (server: Server)
    requires Unreduced(e) && v == Pow(G, e) && client.a == e && FromBe(b) == 1
    ensures SetUpFor(ShortHash(e), client, salt, b, server)
    ensures ClientPremaster(ShortHash(e), client, salt, server.bPub) >= Span(31)
  {
    HashValues(e, salt + ShortHash(e)(client.username + [COLON] + client.password));
    server := SetUpWith(ShortHash(e), e, v, client, salt, b);
    HashValues(e, PublicKey(client) + server.bPub);
    SecretWith(ShortHash(e), e, v, client, PublicKey(client), salt, server.bPub);
  }

  /** The conditions of the theorems above can be met: there is a login that sets up and whose secret fills 32 bytes. */
  lemma HonestLoginExists() returns (sha: Sha1, client: Client, salt: Bytes32, b: Bytes32, server: Server)
    ensures SetUpFor(sha, client, salt, b, server)
    ensures ClientPremaster(sha, client, salt, server.bPub) >= Span(31)
  {
    var e: byte :| e == 89;
    salt, b := seq(32, _ => 0), seq(31, _ => 0) + [1];
    sha, client := ShortHash(e), Client([], [], e);
    Unreduced89();
    FromBeOne(b);
    server := LoginWith(e, Pow(G, e), client, salt, b);
  }

  /** The other case is real too: an honest client whose set-up succeeds and whose correct proof makes the server panic,
      because the shared secret is 1. */
  lemma HonestLoginMayPanic() returns (sha: Sha1, client: Client, salt: Bytes32, b: Bytes32, server: Server)
    ensures SetUpFor(sha, client, salt, b, server)
    ensures Accept(sha, server, PublicKey(client), ClientM1(sha, client, salt, server.bPub)) == Panicked
  {
    var e: byte :| e == 89;
    salt, b := seq(32, _ => 0), seq(31, _ => 0) + [1];
    sha, client := ShortHash(e), Client([], [], 0);
    Unreduced89();
    FromBeOne(b);
    HashValues(e, salt + sha(client.username + [COLON] + client.password));
    server := SetUpWith(sha, e, Pow(G, e), client, salt, b);
    HashValues(e, PublicKey(client) + server.bPub);
    ZeroExponents(sha, client, salt, server.bPub);
    SpanNumeral();
    HonestLogin(sha, client, salt, b, server);
  }

  /** With private key and scrambler zero, the shared secret is 1. */
  lemma ZeroExponents(sha: Sha1, client: Client, salt: Bytes32, bPub: Bytes32)
    requires client.a == 0 && FromLe(sha(PublicKey(client) + bPub)) == 0
    ensures ClientPremaster(sha, client, salt, bPub) == 1
  {
    var x := CredentialExponent(sha, client.username, client.password, salt);
    assert 0 + 0 * x == 0;
    SmallMod(1, N);
  }
}
