/**
 The ccache writer of tests/ccache_fixtures.py: its steps, the bytes they come to, and what
 read_ccache makes of them.
 */
module CcacheFixtures {
  import opened Options
  import opened Bytes
  import opened CcacheInfos
  import opened Utf8
  import opened Ccache

  // ---------------------------------------------------------------------------------------
  // The writer of ccache_fixtures.py
  // ---------------------------------------------------------------------------------------

  method WritePrincipal(realm: Name, components: seq<Name>) returns (out: seq<byte>)
    requires FitsPrincipal(Principal(1, realm, components))
    ensures out == PackPrincipal(Principal(1, realm, components))
  {
    out := Pack32(1);
    out := out + Pack32(|components|);
    out := out + PackData(realm);
    ghost var head := out;
    for i := 0 to |components|
      invariant out + PackAll(components[i..]) == head + PackAll(components)
    {
      assert components[i..][1..] == components[i + 1..];
      out := out + PackData(components[i]);
    }
    assert PackAll(components[|components|..]) == [];
    assert out == head + PackAll(components);
    Group4(Pack32(1), Pack32(|components|), PackData(realm), PackAll(components));
  }

  function Zeros(n: nat): (zeros: seq<byte>)
    ensures |zeros| == n && forall b :: b in zeros ==> b == 0
  {
    if n == 0 then [] else [0] + Zeros(n - 1)
  }

  const DUMMY_KEY := Key(18, Zeros(32))

  /** What the fixture puts in a credential. */
  function Fixture(clientRealm: Name, client: seq<Name>, serverRealm: Name, server: seq<Name>,
                   times: Times, ticket: seq<byte>): Credential {
    Credential(Principal(1, clientRealm, client), Principal(1, serverRealm, server), DUMMY_KEY, times,
               0, 0, [], [], ticket, [])
  }

  method WriteCredential(clientRealm: Name, client: seq<Name>, serverRealm: Name, server: seq<Name>,
                         times: Times, ticket: seq<byte>) returns (out: seq<byte>)
    requires FitsCredential(Fixture(clientRealm, client, serverRealm, server, times, ticket))
    ensures out == PackCredential(Fixture(clientRealm, client, serverRealm, server, times, ticket))
  {
    out := WritePrincipal(clientRealm, client);
    var packed := WritePrincipal(serverRealm, server);
    out := out + packed;
    var keyblock := Pack16(18) + PackData(DUMMY_KEY.contents);
    out := out + keyblock;
    out := out + PackTimes(times);
    out := out + [0];
    out := out + Pack32(0);
    out := out + Pack32(0);
    out := out + Pack32(0);
    out := out + PackData(ticket);
    out := out + PackData([]);
    CredentialFlat(clientRealm, client, serverRealm, server, times, ticket);
  }

  lemma CredentialFlat(clientRealm: Name, client: seq<Name>, serverRealm: Name, server: seq<Name>,
                       times: Times, ticket: seq<byte>)
    requires FitsCredential(Fixture(clientRealm, client, serverRealm, server, times, ticket))
    ensures PackCredential(Fixture(clientRealm, client, serverRealm, server, times, ticket))
         == PackPrincipal(Principal(1, clientRealm, client)) + PackPrincipal(Principal(1, serverRealm, server)) +
            (Pack16(18) + PackData(Zeros(32))) + PackTimes(times) +
            [0] + Pack32(0) + Pack32(0) + Pack32(0) + PackData(ticket) + PackData([])
  {
    Group10(PackPrincipal(Principal(1, clientRealm, client)), PackPrincipal(Principal(1, serverRealm, server)),
            Pack16(18) + PackData(Zeros(32)), PackTimes(times),
            [0], Pack32(0), Pack32(0), Pack32(0), PackData(ticket), PackData([]));
    FixtureTail(clientRealm, client, serverRealm, server, times, ticket);
    Group3(Pack16(18), PackData(Zeros(32)), PackTimes(times) +
           PackTail(Fixture(clientRealm, client, serverRealm, server, times, ticket)));
  }

  lemma FixtureTail(clientRealm: Name, client: seq<Name>, serverRealm: Name, server: seq<Name>,
                    times: Times, ticket: seq<byte>)
    requires FitsCredential(Fixture(clientRealm, client, serverRealm, server, times, ticket))
    ensures PackTail(Fixture(clientRealm, client, serverRealm, server, times, ticket))
         == [0] + (Pack32(0) + (Pack32(0) + (Pack32(0) + (PackData(ticket) + PackData([])))))
  {
    var end := PackData(ticket) + PackData([]);
    assert [] + end == end && [] + (Pack32(0) + end) == Pack32(0) + end;
  }

  const CONFIG_SERVER := [Ascii("krb5_ccache_conf_data"), Ascii("pa_type")]
  const CONFIG_TICKET: seq<byte> := [49]

  function ConfigEntry(username: Name, realm: Name): Credential {
    Fixture(realm, [username], CONFIG_REALM, CONFIG_SERVER, Times(0, 0, 0, 0), CONFIG_TICKET)
  }

  function TgtEntry(username: Name, realm: Name, authtime: nat, endtime: nat, renewTill: nat): Credential {
    Fixture(realm, [username], realm, [KRBTGT, realm], Times(authtime, authtime, endtime, renewTill), [])
  }

  function FixtureCache(username: Name, realm: Name, authtime: nat, endtime: nat, renewTill: nat,
                        includeTgt: bool): Cache {
    Cache(Principal(1, realm, [username]),
          [ConfigEntry(username, realm)] +
          if includeTgt then [TgtEntry(username, realm, authtime, endtime, renewTill)] else [])
  }

  /** The layout of the fixture's cache. */
  function Built(username: Name, realm: Name, authtime: nat, endtime: nat, renewTill: nat, includeTgt: bool): seq<byte>
    requires |username| < U32 && |realm| < U32 && authtime < U32 && endtime < U32 && renewTill < U32
  {
    FixtureFits(username, realm, authtime, endtime, renewTill, includeTgt);
    PackCache(FixtureCache(username, realm, authtime, endtime, renewTill, includeTgt))
  }

  lemma FixtureFits(username: Name, realm: Name, authtime: nat, endtime: nat, renewTill: nat, includeTgt: bool)
    requires |username| < U32 && |realm| < U32 && authtime < U32 && endtime < U32 && renewTill < U32
    ensures FitsPrincipal(FixtureCache(username, realm, authtime, endtime, renewTill, includeTgt).principal)
    ensures FitsCredentials(FixtureCache(username, realm, authtime, endtime, renewTill, includeTgt).credentials)
  {
    PackCons(TgtEntry(username, realm, authtime, endtime, renewTill), []);
    PackCons(ConfigEntry(username, realm), []);
    PackCons(ConfigEntry(username, realm), [TgtEntry(username, realm, authtime, endtime, renewTill)]);
    assert [TgtEntry(username, realm, authtime, endtime, renewTill)] + []
        == [TgtEntry(username, realm, authtime, endtime, renewTill)];
  }

  method BuildCcache(username: Name, realm: Name, authtime: nat, endtime: nat, renewTill: nat, includeTgt: bool)
    returns (out: seq<byte>)
    requires |username| < U32 && |realm| < U32 && authtime < U32 && endtime < U32 && renewTill < U32
    ensures out == Built(username, realm, authtime, endtime, renewTill, includeTgt)
  {
    var principal := WritePrincipal(realm, [username]);
    var config := WriteCredential(realm, [username], CONFIG_REALM, CONFIG_SERVER, Times(0, 0, 0, 0), CONFIG_TICKET);
    out := VERSION + Pack16(0) + principal + config;
    if includeTgt {
      var tgt := WriteCredential(realm, [username], realm, [KRBTGT, realm],
                                 Times(authtime, authtime, endtime, renewTill), []);
      out := out + tgt;
    }
    FixtureBytes(username, realm, authtime, endtime, renewTill, includeTgt);
  }

  /** The bytes of a cache with one credential, and with one more. */
  lemma CacheBytes(p: Principal, c: Credential, last: Credential)
    requires FitsPrincipal(p) && FitsCredential(c) && FitsCredential(last)
    ensures FitsCredentials([c] + []) && FitsCredentials([c] + [last])
    ensures var start := VERSION + Pack16(0) + PackPrincipal(p) + PackCredential(c);
            && PackCache(Cache(p, [c] + [])) == start
            && PackCache(Cache(p, [c] + [last])) == start + PackCredential(last)
  {
    var packed, tail := PackCredential(c), PackCredential(last);
    OneCredential(last);
    PackCons(c, [last]);
    PackCons(c, []);
    assert packed + [] == packed;
    Group4(VERSION, Pack16(0), PackPrincipal(p), packed);
    Group4(VERSION, Pack16(0), PackPrincipal(p), packed + tail);
    Group3(VERSION + Pack16(0) + PackPrincipal(p), packed, tail);
  }

  lemma FixtureBytes(username: Name, realm: Name, authtime: nat, endtime: nat, renewTill: nat, includeTgt: bool)
    requires |username| < U32 && |realm| < U32 && authtime < U32 && endtime < U32 && renewTill < U32
    ensures var start := VERSION + Pack16(0) + PackPrincipal(Principal(1, realm, [username])) +
                         PackCredential(ConfigEntry(username, realm));
            Built(username, realm, authtime, endtime, renewTill, includeTgt) ==
               if includeTgt then start + PackCredential(TgtEntry(username, realm, authtime, endtime, renewTill))
               else start
  {
    CacheBytes(Principal(1, realm, [username]), ConfigEntry(username, realm),
               TgtEntry(username, realm, authtime, endtime, renewTill));
  }

  // ---------------------------------------------------------------------------------------
  // The bytes themselves
  // ---------------------------------------------------------------------------------------

  /** Four octets, the most significant first. */
  function BigEndian(n: nat): seq<byte>
    requires n < U32
  {
    [(n / 0x100_0000) as byte, (n / 0x1_0000 % 256) as byte, (n / 256 % 256) as byte, (n % 256) as byte]
  }

  /** A length and as many octets. */
  function Counted(s: seq<byte>): seq<byte>
    requires |s| < U32
  {
    BigEndian(|s|) + s
  }

  /** The digits of a number in base 256, taken one by one or two by two. */
  lemma Octets(a: nat, b: nat, c: nat, d: nat)
    requires b < 256 && c < 256 && d < 256
    ensures var n := a * 0x100_0000 + b * 0x1_0000 + c * 256 + d;
            && n / 0x100_0000 == a && n / 0x1_0000 % 256 == b && n / 256 % 256 == c && n % 256 == d
            && n / U16 == a * 256 + b && n % U16 == c * 256 + d
  {
    var n := a * 0x100_0000 + b * 0x1_0000 + c * 256 + d;
    assert n / 256 == a * 0x1_0000 + b * 256 + c;
    assert n / U16 == a * 256 + b;
  }

  lemma Pack32Is(n: nat)
    requires n < U32
    ensures Pack32(n) == BigEndian(n)
  {
    var d, n1 := n % 256, n / 256;
    var c, n2 := n1 % 256, n1 / 256;
    var b, a := n2 % 256, n2 / 256;
    assert n == a * 0x100_0000 + b * 0x1_0000 + c * 256 + d;
    Octets(a, b, c, d);
  }

  lemma PackOne(a: Name)
    requires |a| < U32
    ensures PackAll([a]) == PackData(a)
  {
    assert [a][1..] == [] && PackData(a) + [] == PackData(a);
  }

  lemma OneName(realm: Name, a: Name)
    requires |realm| < U32 && |a| < U32
    ensures PackPrincipal(Principal(1, realm, [a])) == [0, 0, 0, 1] + [0, 0, 0, 1] + Counted(realm) + Counted(a)
  {
    Pack32Is(1);
    Pack32Is(|realm|);
    Pack32Is(|a|);
    PackOne(a);
    Group4([0, 0, 0, 1], [0, 0, 0, 1], Counted(realm), Counted(a));
  }

  lemma TwoNames(realm: Name, a: Name, b: Name)
    requires |realm| < U32 && |a| < U32 && |b| < U32
    ensures PackPrincipal(Principal(1, realm, [a, b]))
         == [0, 0, 0, 1] + [0, 0, 0, 2] + Counted(realm) + Counted(a) + Counted(b)
  {
    Pack32Is(1);
    Pack32Is(2);
    Pack32Is(|realm|);
    Pack32Is(|a|);
    Pack32Is(|b|);
    PackOne(b);
    assert [a, b][1..] == [b];
    Group4([0, 0, 0, 1], [0, 0, 0, 2], Counted(realm), Counted(a) + Counted(b));
    Group3([0, 0, 0, 1] + [0, 0, 0, 2] + Counted(realm), Counted(a), Counted(b));
  }

  /** The bytes of a credential of the fixture, from the first to the last. */
  lemma CredentialLayout(realm: Name, client: Name, serverRealm: Name, a: Name, b: Name, times: Times,
                         ticket: seq<byte>)
    requires |realm| < U32 && |client| < U32 && |serverRealm| < U32 && |a| < U32 && |b| < U32
    requires FitsTimes(times) && |ticket| < U32
    ensures FitsCredential(Fixture(realm, [client], serverRealm, [a, b], times, ticket))
    ensures PackCredential(Fixture(realm, [client], serverRealm, [a, b], times, ticket))
         == ([0, 0, 0, 1] + [0, 0, 0, 1] + Counted(realm) + Counted(client)) +
            ([0, 0, 0, 1] + [0, 0, 0, 2] + Counted(serverRealm) + Counted(a) + Counted(b)) +
            ([0, 18] + Counted(Zeros(32))) +
            (BigEndian(times.auth) + BigEndian(times.start) + BigEndian(times.end) + BigEndian(times.renewTill)) +
            [0] + [0, 0, 0, 0] + [0, 0, 0, 0] + [0, 0, 0, 0] + Counted(ticket) + [0, 0, 0, 0]
  {
    CredentialFlat(realm, [client], serverRealm, [a, b], times, ticket);
    OneName(realm, client);
    TwoNames(serverRealm, a, b);
    TimesLayout(times);
    FixedPieces();
    Pack32Is(|ticket|);
  }

  lemma FixedPieces()
    ensures Pack16(18) + PackData(Zeros(32)) == [0, 18] + Counted(Zeros(32))
    ensures Pack32(0) == [0, 0, 0, 0] && PackData([]) == [0, 0, 0, 0]
  {
    Pack32Is(32);
    Pack32Is(0);
    assert [0, 0, 0, 0] + [] == [0, 0, 0, 0];
  }

  lemma TimesLayout(times: Times)
    requires FitsTimes(times)
    ensures PackTimes(times)
         == BigEndian(times.auth) + BigEndian(times.start) + BigEndian(times.end) + BigEndian(times.renewTill)
  {
    Pack32Is(times.auth);
    Pack32Is(times.start);
    Pack32Is(times.end);
    Pack32Is(times.renewTill);
    Group4(BigEndian(times.auth), BigEndian(times.start), BigEndian(times.end), BigEndian(times.renewTill));
  }

  /**
   The bytes of the fixture: version 5.4, no header fields, the default principal, the config entry
   with its one-octet ticket and no times, and, if included, the ticket-granting ticket with its.
   */
  lemma FixtureLayout(username: Name, realm: Name, authtime: nat, endtime: nat, renewTill: nat, includeTgt: bool)
    requires |username| < U32 && |realm| < U32 && authtime < U32 && endtime < U32 && renewTill < U32
    ensures var owner := [0, 0, 0, 1] + [0, 0, 0, 1] + Counted(realm) + Counted(username);
            var key := [0, 18] + Counted(Zeros(32));
            var config := owner +
                          ([0, 0, 0, 1] + [0, 0, 0, 2] + Counted(Ascii("X-CACHECONF:")) +
                           Counted(Ascii("krb5_ccache_conf_data")) + Counted(Ascii("pa_type"))) +
                          key + ([0, 0, 0, 0] + [0, 0, 0, 0] + [0, 0, 0, 0] + [0, 0, 0, 0]) +
                          [0] + [0, 0, 0, 0] + [0, 0, 0, 0] + [0, 0, 0, 0] + Counted([49]) + [0, 0, 0, 0];
            var tgt := owner +
                       ([0, 0, 0, 1] + [0, 0, 0, 2] + Counted(realm) + Counted(Ascii("krbtgt")) + Counted(realm)) +
                       key + (BigEndian(authtime) + BigEndian(authtime) + BigEndian(endtime) + BigEndian(renewTill)) +
                       [0] + [0, 0, 0, 0] + [0, 0, 0, 0] + [0, 0, 0, 0] + Counted([]) + [0, 0, 0, 0];
            Built(username, realm, authtime, endtime, renewTill, includeTgt)
            == [5, 4] + [0, 0] + owner + config + if includeTgt then tgt else []
  {
    FixtureBytes(username, realm, authtime, endtime, renewTill, includeTgt);
    OneName(realm, username);
    CredentialLayout(realm, username, CONFIG_REALM, CONFIG_SERVER[0], CONFIG_SERVER[1], Times(0, 0, 0, 0),
                     CONFIG_TICKET);
    CredentialLayout(realm, username, realm, KRBTGT, realm, Times(authtime, authtime, endtime, renewTill), []);
  }

  lemma TgtText(text: Principal -> Name, realm: Name)
    requires Renders(text) && Plain(realm)
    ensures text(Principal(1, realm, [KRBTGT, realm])) == TgtServer(realm)
  {
    assert [KRBTGT, realm][1..] == [realm] && Join([realm]) == realm;
    assert KRBTGT == [107, 114, 98, 116, 103, 116];
    assert PlainPrincipal(Principal(1, realm, [KRBTGT, realm]));
  }

  lemma FixtureScan(text: Principal -> Name, username: Name, realm: Name, authtime: nat, endtime: nat,
                    renewTill: nat, includeTgt: bool)
    requires Renders(text) && Plain(realm)
    ensures var cache := FixtureCache(username, realm, authtime, endtime, renewTill, includeTgt);
            FirstTgt(text, realm, cache.credentials) ==
            if includeTgt && realm != CONFIG_REALM
            then Some(TgtEntry(username, realm, authtime, endtime, renewTill)) else None
  {
    var config, tgt := ConfigEntry(username, realm), TgtEntry(username, realm, authtime, endtime, renewTill);
    TgtText(text, realm);
    assert [tgt][1..] == [];
    assert FirstTgt(text, realm, [tgt]) == if realm != CONFIG_REALM then Some(tgt) else None;
    assert ([config] + [tgt])[1..] == [tgt] && ([config] + [])[1..] == [];
  }

  lemma FixtureFacts(text: Principal -> Name, username: Name, realm: Name, authtime: nat, endtime: nat, renewTill: nat)
    requires Renders(text) && Plain(username) && Plain(realm)
    requires authtime < U32 && endtime < U32 && renewTill < U32
    ensures InfoOf(text, Principal(1, realm, [username]), Times(authtime, authtime, endtime, renewTill))
         == CcacheInfo(username + [AT] + realm, realm, Signed(endtime),
                       if renewTill == 0 then None else Some(Signed(renewTill)))
  {
    assert PlainPrincipal(Principal(1, realm, [username]));
    assert Join([username]) == username;
  }

  /**
   The scan over the bytes BuildCcache writes: it passes over the config entry written first, and
   reports username@realm and the ticket's times as signed numbers, with no renewal time exactly when
   that is 0; it finds nothing exactly when the ticket is omitted or the realm is the config entries'
   own, and a realm that is not UTF-8 stops it before that.
   */
  lemma FixtureRoundTrip(text: Principal -> Name, username: Name, realm: Name, authtime: nat, endtime: nat,
                         renewTill: nat, includeTgt: bool)
    requires Renders(text) && Plain(username) && Plain(realm) && |username| < U32 && |realm| < U32
    requires authtime < U32 && endtime < U32 && renewTill < U32
    ensures Info(text, Built(username, realm, authtime, endtime, renewTill, includeTgt)) ==
            if !ValidUtf8(realm) then Undecodable
            else if includeTgt && realm != CONFIG_REALM
            then Readable(CcacheInfo(username + [AT] + realm, realm, Signed(endtime),
                                     if renewTill == 0 then None else Some(Signed(renewTill))))
            else Unreadable
  {
    var cache := FixtureCache(username, realm, authtime, endtime, renewTill, includeTgt);
    FixtureFits(username, realm, authtime, endtime, renewTill, includeTgt);
    InfoOfPacked(text, cache);
    FixtureScan(text, username, realm, authtime, endtime, renewTill, includeTgt);
    FixtureFacts(text, username, realm, authtime, endtime, renewTill);
  }
}
