/**
 The FILE credential cache, version 4: its layout, a decoder, and the scan of ccache.py for the
 ticket-granting ticket.

 Names are their UTF-8 bytes. How libkrb5 turns a principal into text is a parameter: all that is
 assumed of it is that it joins names that hold no separator, backslash or control character.
 */
module Ccache {
  import opened Options
  import opened Bytes
  import opened CcacheInfos
  import opened Utf8

  type Name = seq<byte>

  datatype Principal = Principal(nameType: nat, realm: Name, components: seq<Name>)
  datatype Key = Key(enctype: nat, contents: seq<byte>)
  datatype Times = Times(auth: nat, start: nat, end: nat, renewTill: nat)

  /** An address or an authorization datum. */
  datatype Typed = Typed(kind: nat, contents: seq<byte>)

  datatype Credential = Credential(
    client: Principal, server: Principal, key: Key, times: Times, isSkey: byte, flags: nat,
    addresses: seq<Typed>, authdata: seq<Typed>, ticket: seq<byte>, secondTicket: seq<byte>)

  datatype Cache = Cache(principal: Principal, credentials: seq<Credential>)

  const U16 := 0x1_0000
  const U32 := 0x1_0000_0000

  // ---------------------------------------------------------------------------------------
  // The layout
  // ---------------------------------------------------------------------------------------

  function Pack16(n: nat): seq<byte>
    requires n < U16
  {
    [(n / 256) as byte, (n % 256) as byte]
  }

  function Pack32(n: nat): seq<byte>
    requires n < U32
  {
    Pack16(n / U16) + Pack16(n % U16)
  }

  function PackData(value: seq<byte>): seq<byte>
    requires |value| < U32
  {
    Pack32(|value|) + value
  }

  predicate FitsAll(values: seq<seq<byte>>) {
    forall i :: 0 <= i < |values| ==> |values[i]| < U32
  }

  function PackAll(values: seq<seq<byte>>): seq<byte>
    requires FitsAll(values)
  {
    if values == [] then [] else PackData(values[0]) + PackAll(values[1..])
  }

  predicate FitsPrincipal(p: Principal) {
    p.nameType < U32 && |p.realm| < U32 && |p.components| < U32 && FitsAll(p.components)
  }

  function PackPrincipal(p: Principal): seq<byte>
    requires FitsPrincipal(p)
  {
    Pack32(p.nameType) + (Pack32(|p.components|) + (PackData(p.realm) + PackAll(p.components)))
  }

  predicate FitsTyped(values: seq<Typed>) {
    |values| < U32 && forall i :: 0 <= i < |values| ==> values[i].kind < U16 && |values[i].contents| < U32
  }

  function PackTyped(values: seq<Typed>): seq<byte>
    requires FitsTyped(values)
  {
    if values == [] then [] else Pack16(values[0].kind) + (PackData(values[0].contents) + PackTyped(values[1..]))
  }

  predicate FitsTimes(t: Times) {
    t.auth < U32 && t.start < U32 && t.end < U32 && t.renewTill < U32
  }

  function PackTimes(t: Times): seq<byte>
    requires FitsTimes(t)
  {
    Pack32(t.auth) + (Pack32(t.start) + (Pack32(t.end) + Pack32(t.renewTill)))
  }

  predicate FitsCredential(c: Credential) {
    && FitsPrincipal(c.client) && FitsPrincipal(c.server)
    && c.key.enctype < U16 && |c.key.contents| < U32 && FitsTimes(c.times) && c.flags < U32
    && FitsTyped(c.addresses) && FitsTyped(c.authdata) && |c.ticket| < U32 && |c.secondTicket| < U32
  }

  function PackTail(c: Credential): seq<byte>
    requires FitsCredential(c)
  {
    [c.isSkey] + (Pack32(c.flags) +
    (Pack32(|c.addresses|) + (PackTyped(c.addresses) +
    (Pack32(|c.authdata|) + (PackTyped(c.authdata) +
    (PackData(c.ticket) + PackData(c.secondTicket)))))))
  }

  function PackCredential(c: Credential): seq<byte>
    requires FitsCredential(c)
  {
    PackPrincipal(c.client) + (PackPrincipal(c.server) +
    (Pack16(c.key.enctype) + (PackData(c.key.contents) +
    (PackTimes(c.times) + PackTail(c)))))
  }

  predicate FitsCredentials(cs: seq<Credential>) {
    cs == [] || (FitsCredential(cs[0]) && FitsCredentials(cs[1..]))
  }

  function PackCredentials(cs: seq<Credential>): seq<byte>
    requires FitsCredentials(cs)
  {
    if cs == [] then [] else PackCredential(cs[0]) + PackCredentials(cs[1..])
  }

  const VERSION: seq<byte> := [5, 4]

  function PackCache(cache: Cache): seq<byte>
    requires FitsPrincipal(cache.principal) && FitsCredentials(cache.credentials)
  {
    VERSION + (Pack16(0) + (PackPrincipal(cache.principal) + PackCredentials(cache.credentials)))
  }

  // ---------------------------------------------------------------------------------------
  // The decoder: each reader gives what it read and the bytes after it
  // ---------------------------------------------------------------------------------------

  datatype Read<T> = Bad | Got(value: T, rest: seq<byte>) {
    predicate IsFailure() {
      Bad?
    }

    function PropagateFailure<U>(): Read<U>
      requires Bad?
    {
      Bad
    }

    function Extract(): (T, seq<byte>)
      requires Got?
    {
      (value, rest)
    }
  }

  function ReadByte(s: seq<byte>): (r: Read<byte>)
    ensures r.Got? ==> |r.rest| < |s|
  {
    if s == [] then Bad else Got(s[0], s[1..])
  }

  function Read16(s: seq<byte>): (r: Read<nat>)
    ensures r.Got? ==> |r.rest| < |s| && r.value < U16
  {
    if |s| < 2 then Bad else Got(s[0] as nat * 256 + s[1] as nat, s[2..])
  }

  function Read32(s: seq<byte>): (r: Read<nat>)
    ensures r.Got? ==> |r.rest| < |s|
  {
    var (high, s1) :- Read16(s);
    var (low, s2) :- Read16(s1);
    Got(high * U16 + low, s2)
  }

  function ReadData(s: seq<byte>): (r: Read<seq<byte>>)
    ensures r.Got? ==> |r.rest| < |s|
  {
    var (n, s1) :- Read32(s);
    if n > |s1| then Bad else Got(s1[..n], s1[n..])
  }

  function ReadAll(n: nat, s: seq<byte>): (r: Read<seq<seq<byte>>>)
    ensures r.Got? ==> |r.rest| <= |s|
    decreases n
  {
    if n == 0 then Got([], s)
    else
      var (first, s1) :- ReadData(s);
      var (others, s2) :- ReadAll(n - 1, s1);
      Got([first] + others, s2)
  }

  function ReadPrincipal(s: seq<byte>): (r: Read<Principal>)
    ensures r.Got? ==> |r.rest| < |s|
  {
    var (nameType, s1) :- Read32(s);
    var (count, s2) :- Read32(s1);
    var (realm, s3) :- ReadData(s2);
    var (components, s4) :- ReadAll(count, s3);
    Got(Principal(nameType, realm, components), s4)
  }

  function ReadOneTyped(s: seq<byte>): (r: Read<Typed>)
    ensures r.Got? ==> |r.rest| < |s|
  {
    var (kind, s1) :- Read16(s);
    var (contents, s2) :- ReadData(s1);
    Got(Typed(kind, contents), s2)
  }

  function ReadTyped(n: nat, s: seq<byte>): (r: Read<seq<Typed>>)
    ensures r.Got? ==> |r.rest| <= |s|
    decreases n
  {
    if n == 0 then Got([], s)
    else
      match ReadOneTyped(s)
      case Bad => Bad
      case Got(first, s1) =>
        match ReadTyped(n - 1, s1)
        case Bad => Bad
        case Got(others, s2) => Got([first] + others, s2)
  }

  /** A count and as many. */
  function ReadList(s: seq<byte>): (r: Read<seq<Typed>>)
    ensures r.Got? ==> |r.rest| < |s|
  {
    var (count, s1) :- Read32(s);
    ReadTyped(count, s1)
  }

  /** Addresses and authorization data. */
  function ReadLists(s: seq<byte>): (r: Read<(seq<Typed>, seq<Typed>)>)
    ensures r.Got? ==> |r.rest| < |s|
  {
    var (addresses, s1) :- ReadList(s);
    var (authdata, s2) :- ReadList(s1);
    Got((addresses, authdata), s2)
  }

  /** The ticket and the second ticket. */
  function ReadTickets(s: seq<byte>): (r: Read<(seq<byte>, seq<byte>)>)
    ensures r.Got? ==> |r.rest| < |s|
  {
    var (ticket, s1) :- ReadData(s);
    var (secondTicket, s2) :- ReadData(s1);
    Got((ticket, secondTicket), s2)
  }

  function ReadTimes(s: seq<byte>): (r: Read<Times>)
    ensures r.Got? ==> |r.rest| <= |s|
  {
    var (auth, s1) :- Read32(s);
    var (start, s2) :- Read32(s1);
    var (end, s3) :- Read32(s2);
    var (renewTill, s4) :- Read32(s3);
    Got(Times(auth, start, end, renewTill), s4)
  }

  function ReadTail(client: Principal, server: Principal, key: Key, times: Times, s: seq<byte>): (r: Read<Credential>)
    ensures r.Got? ==> |r.rest| <= |s|
  {
    var (isSkey, s1) :- ReadByte(s);
    var (flags, s2) :- Read32(s1);
    var ((addresses, authdata), s3) :- ReadLists(s2);
    var ((ticket, secondTicket), s4) :- ReadTickets(s3);
    Got(Credential(client, server, key, times, isSkey, flags, addresses, authdata, ticket, secondTicket), s4)
  }

  function ReadCredential(s: seq<byte>): (r: Read<Credential>)
    ensures r.Got? ==> |r.rest| < |s|
  {
    var (client, s1) :- ReadPrincipal(s);
    var (server, s2) :- ReadPrincipal(s1);
    var (enctype, s3) :- Read16(s2);
    var (contents, s4) :- ReadData(s3);
    var (times, s5) :- ReadTimes(s4);
    ReadTail(client, server, Key(enctype, contents), times, s5)
  }

  /** Credentials up to the end of the file. */
  function ReadCredentials(s: seq<byte>): Option<seq<Credential>>
    decreases |s|
  {
    if s == [] then Some([])
    else
      match ReadCredential(s)
      case Bad => None
      case Got(first, rest) =>
        match ReadCredentials(rest)
        case None => None
        case Some(others) => Some([first] + others)
  }

  /** The version and the length of the header fields, which are passed over. */
  function PassFields(s: seq<byte>): Read<nat> {
    if |s| < 2 || s[..2] != VERSION then Bad
    else
      var (n, s1) :- Read16(s[2..]);
      if n > |s1| then Bad else Got(n, s1[n..])
  }

  /** The default principal after them. */
  function ReadHeader(s: seq<byte>): Read<Principal> {
    var (_, s1) :- PassFields(s);
    ReadPrincipal(s1)
  }

  function ReadCache(s: seq<byte>): Option<Cache> {
    match ReadHeader(s)
    case Bad => None
    case Got(principal, rest) =>
      match ReadCredentials(rest)
      case None => None
      case Some(credentials) => Some(Cache(principal, credentials))
  }

  // ---------------------------------------------------------------------------------------
  // The scan of ccache.py
  // ---------------------------------------------------------------------------------------

  function Ascii(s: string): Name
    requires forall i :: 0 <= i < |s| ==> s[i] as int < 128
  {
    seq(|s|, i requires 0 <= i < |s| => s[i] as int as byte)
  }

  const CONFIG_REALM := Ascii("X-CACHECONF:")
  const KRBTGT := Ascii("krbtgt")
  const SLASH: byte := 47
  const AT: byte := 64

  /** The text of the ticket-granting server, as ccache.py writes it. */
  function TgtServer(realm: Name): Name {
    KRBTGT + [SLASH] + realm + [AT] + realm
  }

  /** A krb5_timestamp is a signed 32-bit number. */
  function Signed(n: nat): (t: int)
    ensures t % U32 == n % U32
    ensures n < U32 ==> -0x8000_0000 <= t < 0x8000_0000
  {
    if n < 0x8000_0000 then n else n - U32
  }

  function InfoOf(text: Principal -> Name, principal: Principal, times: Times): CcacheInfo<Name> {
    CcacheInfo(text(principal), principal.realm, Signed(times.end),
               if times.renewTill == 0 then None else Some(Signed(times.renewTill)))
  }

  predicate IsTgt(text: Principal -> Name, realm: Name, c: Credential) {
    c.server.realm != CONFIG_REALM && text(c.server) == TgtServer(realm)
  }

  /**
   read_ccache: the facts of the first ticket-granting ticket. The default principal is read and its
   realm decoded before any credential, and no credential after that ticket is read.
   */
  method ReadInfo(text: Principal -> Name, bytes: seq<byte>) returns (info: Parse<Name>)
    ensures info == Info(text, bytes)
  {
    var header := ReadHeader(bytes);
    if header.Bad? {
      return Unreadable;
    }
    var principal, rest := header.value, header.rest;
    if !ValidUtf8(principal.realm) {
      return Undecodable;
    }
    while rest != []
      invariant Scan(text, principal, header.rest) == Scan(text, principal, rest)
      decreases |rest|
    {
      var next := ReadCredential(rest);
      if next.Bad? {
        return Unreadable;
      }
      rest := next.rest;
      if next.value.server.realm == CONFIG_REALM {
        continue;
      }
      if text(next.value.server) == TgtServer(principal.realm) {
        return Readable(InfoOf(text, principal, next.value.times));
      }
    }
    return Unreadable;
  }

  function Scan(text: Principal -> Name, principal: Principal, s: seq<byte>): Parse<Name>
    decreases |s|
  {
    if s == [] then Unreadable
    else
      match ReadCredential(s)
      case Bad => Unreadable
      case Got(c, rest) =>
        if IsTgt(text, principal.realm, c) then Readable(InfoOf(text, principal, c.times))
        else Scan(text, principal, rest)
  }

  function Info(text: Principal -> Name, bytes: seq<byte>): Parse<Name> {
    match ReadHeader(bytes)
    case Bad => Unreadable
    case Got(principal, rest) =>
      if !ValidUtf8(principal.realm) then Undecodable else Scan(text, principal, rest)
  }

  function FirstTgt(text: Principal -> Name, realm: Name, cs: seq<Credential>): Option<Credential> {
    if cs == [] then None
    else if IsTgt(text, realm, cs[0]) then Some(cs[0])
    else FirstTgt(text, realm, cs[1..])
  }

  /** On a file that can be read to its end, the scan finds the first ticket-granting ticket in it. */
  lemma {:induction false} ScanFindsFirst(text: Principal -> Name, principal: Principal, s: seq<byte>)
    ensures ReadCredentials(s).Some? ==>
              Scan(text, principal, s) == match FirstTgt(text, principal.realm, ReadCredentials(s).value)
                                          case None => Unreadable
                                          case Some(c) => Readable(InfoOf(text, principal, c.times))
    decreases |s|
  {
    if s != [] && ReadCredentials(s).Some? {
      var next := ReadCredential(s);
      ScanFindsFirst(text, principal, next.rest);
      var others := ReadCredentials(next.rest).value;
      assert ([next.value] + others)[1..] == others;
    }
  }

  /** What the whole file holds decides the answer, when it can be read to its end. */
  lemma InfoOfCache(text: Principal -> Name, bytes: seq<byte>, cache: Cache)
    ensures ReadCache(bytes) == Some(cache) ==>
              Info(text, bytes) ==
              if !ValidUtf8(cache.principal.realm) then Undecodable
              else match FirstTgt(text, cache.principal.realm, cache.credentials)
                   case None => Unreadable
                   case Some(c) => Readable(InfoOf(text, cache.principal, c.times))
  {
    if ReadCache(bytes) == Some(cache) {
      ScanFindsFirst(text, cache.principal, ReadHeader(bytes).rest);
    }
  }

  lemma {:induction false} FirstTgtAt(text: Principal -> Name, realm: Name, cs: seq<Credential>) returns (i: nat)
    ensures i <= |cs| && forall j :: 0 <= j < i ==> !IsTgt(text, realm, cs[j])
    ensures i < |cs| ==> IsTgt(text, realm, cs[i]) && FirstTgt(text, realm, cs) == Some(cs[i])
    ensures i == |cs| ==> FirstTgt(text, realm, cs) == None
  {
    if cs == [] || IsTgt(text, realm, cs[0]) {
      i := 0;
    } else {
      var rest := FirstTgtAt(text, realm, cs[1..]);
      i := rest + 1;
    }
  }

  lemma TgtServerIs(realm: Name)
    ensures TgtServer(realm) == [107, 114, 98, 116, 103, 116, 47] + realm + [64] + realm
    ensures CONFIG_REALM == [88, 45, 67, 65, 67, 72, 69, 67, 79, 78, 70, 58]
  {
    assert KRBTGT + [SLASH] == [107, 114, 98, 116, 103, 116, 47];
  }

  lemma FirstDecides(text: Principal -> Name, principal: Principal, cs: seq<Credential>, info: CcacheInfo<Name>,
                     server: Name, config: Name)
    requires server == TgtServer(principal.realm) && config == CONFIG_REALM
    ensures (FirstTgt(text, principal.realm, cs).Some? &&
             info == InfoOf(text, principal, FirstTgt(text, principal.realm, cs).value.times))
       <==> exists i :: 0 <= i < |cs|
              && cs[i].server.realm != config && text(cs[i].server) == server
              && (forall j :: 0 <= j < i ==> cs[j].server.realm == config || text(cs[j].server) != server)
              && info == InfoOf(text, principal, cs[i].times)
  {
    var first := FirstTgtAt(text, principal.realm, cs);
    assert forall i :: 0 <= i < |cs| ==>
             (IsTgt(text, principal.realm, cs[i]) <==> cs[i].server.realm != config && text(cs[i].server) == server);
  }

  /**
   What is reported of a file that can be read to its end: the default principal, its realm, and the
   times of the first credential whose server is krbtgt/REALM@REALM and that is no config entry, as
   signed 32-bit numbers, without a renewal time when that is 0.
   */
  lemma ReadableIff(text: Principal -> Name, bytes: seq<byte>, cache: Cache, info: CcacheInfo<Name>,
                    server: Name, config: Name)
    requires server == var realm := cache.principal.realm;
                       [107, 114, 98, 116, 103, 116, 47] + realm + [64] + realm  // krbtgt/REALM@REALM
    requires config == [88, 45, 67, 65, 67, 72, 69, 67, 79, 78, 70, 58]  // X-CACHECONF:
    ensures ReadCache(bytes) == Some(cache) ==>
              var Cache(principal, cs) := cache;
              Info(text, bytes) == Readable(info) <==>
              && ValidUtf8(principal.realm)
              && exists i :: 0 <= i < |cs|
                   && cs[i].server.realm != config && text(cs[i].server) == server
                   && (forall j :: 0 <= j < i ==> cs[j].server.realm == config || text(cs[j].server) != server)
                   && info == CcacheInfo(
                        text(principal), principal.realm, Signed(cs[i].times.end),
                        if cs[i].times.renewTill == 0 then None else Some(Signed(cs[i].times.renewTill)))
  {
    InfoOfCache(text, bytes, cache);
    TgtServerIs(cache.principal.realm);
    FirstDecides(text, cache.principal, cache.credentials, info, server, config);
  }

  // ---------------------------------------------------------------------------------------
  // Appending step by step and nesting to the right give the same bytes
  // ---------------------------------------------------------------------------------------

  lemma Group3(a: seq<byte>, b: seq<byte>, c: seq<byte>)
    ensures a + b + c == a + (b + c)
  {
  }

  lemma Group4(a: seq<byte>, b: seq<byte>, c: seq<byte>, d: seq<byte>)
    ensures a + b + c + d == a + (b + (c + d))
  {
    Group3(a + b, c, d);
    Group3(a, b, c + d);
  }

  lemma Group10(a: seq<byte>, b: seq<byte>, c: seq<byte>, d: seq<byte>, e: seq<byte>, f: seq<byte>, g: seq<byte>,
                h: seq<byte>, i: seq<byte>, j: seq<byte>)
    ensures a + b + c + d + e + f + g + h + i + j == a + (b + (c + (d + (e + (f + (g + (h + (i + j))))))))
  {
    Group4(a + b + c + d + e + f, g, h, i + j);
    Group3(a + b + c + d + e + f + g + h, i, j);
    Group4(a + b + c, d, e, f + (g + (h + (i + j))));
    Group3(a + b + c + d + e, f, g + (h + (i + j)));
    Group4(a, b, c, d + (e + (f + (g + (h + (i + j))))));
  }

  lemma PackCons(c: Credential, cs: seq<Credential>)
    requires FitsCredential(c) && FitsCredentials(cs)
    ensures FitsCredentials([c] + cs)
    ensures PackCredentials([c] + cs) == PackCredential(c) + PackCredentials(cs)
  {
    assert ([c] + cs)[1..] == cs;
  }

  lemma OneCredential(c: Credential)
    requires FitsCredential(c)
    ensures FitsCredentials([c]) && PackCredentials([c]) == PackCredential(c)
  {
    PackCons(c, []);
    assert [c] + [] == [c] && PackCredential(c) + [] == PackCredential(c);
  }

  // ---------------------------------------------------------------------------------------
  // Round trips
  // ---------------------------------------------------------------------------------------

  lemma Read16Packed(n: nat, rest: seq<byte>)
    requires n < U16
    ensures Read16(Pack16(n) + rest) == Got(n, rest)
  {
    assert (Pack16(n) + rest)[2..] == rest;
  }

  lemma Read32Packed(n: nat, rest: seq<byte>)
    requires n < U32
    ensures Read32(Pack32(n) + rest) == Got(n, rest)
  {
    assert Pack32(n) + rest == Pack16(n / U16) + (Pack16(n % U16) + rest);
    Read16Packed(n / U16, Pack16(n % U16) + rest);
    Read16Packed(n % U16, rest);
  }

  lemma ReadDataPacked(value: seq<byte>, rest: seq<byte>)
    requires |value| < U32
    ensures ReadData(PackData(value) + rest) == Got(value, rest)
  {
    assert PackData(value) + rest == Pack32(|value|) + (value + rest);
    Read32Packed(|value|, value + rest);
    assert (value + rest)[..|value|] == value && (value + rest)[|value|..] == rest;
  }

  lemma ReadAllStep(n: nat, s: seq<byte>, first: seq<byte>, s1: seq<byte>, others: seq<seq<byte>>, s2: seq<byte>)
    requires n > 0 && ReadData(s) == Got(first, s1) && ReadAll(n - 1, s1) == Got(others, s2)
    ensures ReadAll(n, s) == Got([first] + others, s2)
  {
  }

  lemma {:induction false} ReadAllPacked(values: seq<seq<byte>>, rest: seq<byte>)
    requires FitsAll(values)
    ensures ReadAll(|values|, PackAll(values) + rest) == Got(values, rest)
  {
    if values == [] {
      assert PackAll(values) + rest == rest;
    } else {
      var first, others := PackData(values[0]), PackAll(values[1..]);
      Group3(first, others, rest);
      ReadDataPacked(values[0], others + rest);
      ReadAllPacked(values[1..], rest);
      ReadAllStep(|values|, first + (others + rest), values[0], others + rest, values[1..], rest);
      assert values == [values[0]] + values[1..];
    }
  }

  lemma ReadPrincipalPacked(p: Principal, rest: seq<byte>)
    requires FitsPrincipal(p)
    ensures ReadPrincipal(PackPrincipal(p) + rest) == Got(p, rest)
  {
    var s3 := PackAll(p.components) + rest;
    var s2 := PackData(p.realm) + s3;
    var s1 := Pack32(|p.components|) + s2;
    assert PackPrincipal(p) + rest == Pack32(p.nameType) + s1;
    Read32Packed(p.nameType, s1);
    Read32Packed(|p.components|, s2);
    ReadDataPacked(p.realm, s3);
    ReadAllPacked(p.components, rest);
  }

  lemma ReadOneTypedPacked(t: Typed, rest: seq<byte>)
    requires t.kind < U16 && |t.contents| < U32
    ensures ReadOneTyped(Pack16(t.kind) + (PackData(t.contents) + rest)) == Got(t, rest)
  {
    Read16Packed(t.kind, PackData(t.contents) + rest);
    ReadDataPacked(t.contents, rest);
  }

  lemma ReadTypedStep(n: nat, s: seq<byte>, first: Typed, s1: seq<byte>, others: seq<Typed>, s2: seq<byte>)
    requires n > 0 && ReadOneTyped(s) == Got(first, s1) && ReadTyped(n - 1, s1) == Got(others, s2)
    ensures ReadTyped(n, s) == Got([first] + others, s2)
  {
  }

  lemma {:induction false} ReadTypedPacked(values: seq<Typed>, rest: seq<byte>)
    requires FitsTyped(values)
    ensures ReadTyped(|values|, PackTyped(values) + rest) == Got(values, rest)
  {
    if values == [] {
      assert PackTyped(values) + rest == rest;
    } else {
      var kind, contents, others := Pack16(values[0].kind), PackData(values[0].contents), PackTyped(values[1..]);
      Group4(kind, contents, others, rest);
      Group3(kind, contents, others);
      ReadOneTypedPacked(values[0], others + rest);
      ReadTypedPacked(values[1..], rest);
      ReadTypedStep(|values|, kind + (contents + (others + rest)), values[0], others + rest, values[1..], rest);
      assert values == [values[0]] + values[1..];
    }
  }

  lemma ReadListPacked(values: seq<Typed>, rest: seq<byte>)
    requires FitsTyped(values)
    ensures ReadList(Pack32(|values|) + (PackTyped(values) + rest)) == Got(values, rest)
  {
    Read32Packed(|values|, PackTyped(values) + rest);
    ReadTypedPacked(values, rest);
  }

  lemma ReadTimesPacked(t: Times, rest: seq<byte>)
    requires FitsTimes(t)
    ensures ReadTimes(PackTimes(t) + rest) == Got(t, rest)
  {
    var s3 := Pack32(t.renewTill) + rest;
    var s2 := Pack32(t.end) + s3;
    var s1 := Pack32(t.start) + s2;
    assert PackTimes(t) + rest == Pack32(t.auth) + s1;
    Read32Packed(t.auth, s1);
    Read32Packed(t.start, s2);
    Read32Packed(t.end, s3);
    Read32Packed(t.renewTill, rest);
  }

  lemma ReadTailStep(c: Credential, s: seq<byte>, s1: seq<byte>, s2: seq<byte>, s3: seq<byte>, rest: seq<byte>)
    ensures && ReadByte(s) == Got(c.isSkey, s1) && Read32(s1) == Got(c.flags, s2)
            && ReadLists(s2) == Got((c.addresses, c.authdata), s3)
            && ReadTickets(s3) == Got((c.ticket, c.secondTicket), rest)
            ==> ReadTail(c.client, c.server, c.key, c.times, s) == Got(c, rest)
  {
  }

  /** Bytes after a nest of eight pieces go to the innermost one. */
  lemma Nest8(a: seq<byte>, b: seq<byte>, c: seq<byte>, d: seq<byte>, e: seq<byte>, f: seq<byte>, g: seq<byte>,
              h: seq<byte>, rest: seq<byte>)
    ensures a + (b + (c + (d + (e + (f + (g + h)))))) + rest == a + (b + (c + (d + (e + (f + (g + (h + rest)))))))
  {
  }

  lemma ReadListsPacked(c: Credential, rest: seq<byte>)
    requires FitsTyped(c.addresses) && FitsTyped(c.authdata)
    ensures ReadLists(Pack32(|c.addresses|) + (PackTyped(c.addresses) +
                      (Pack32(|c.authdata|) + (PackTyped(c.authdata) + rest))))
         == Got((c.addresses, c.authdata), rest)
  {
    ReadListPacked(c.addresses, Pack32(|c.authdata|) + (PackTyped(c.authdata) + rest));
    ReadListPacked(c.authdata, rest);
  }

  lemma ReadTicketsPacked(ticket: seq<byte>, secondTicket: seq<byte>, rest: seq<byte>)
    requires |ticket| < U32 && |secondTicket| < U32
    ensures ReadTickets(PackData(ticket) + (PackData(secondTicket) + rest)) == Got((ticket, secondTicket), rest)
  {
    ReadDataPacked(ticket, PackData(secondTicket) + rest);
    ReadDataPacked(secondTicket, rest);
  }

  lemma ReadTailPacked(c: Credential, rest: seq<byte>)
    requires FitsCredential(c)
    ensures ReadTail(c.client, c.server, c.key, c.times, PackTail(c) + rest) == Got(c, rest)
  {
    var s3 := PackData(c.ticket) + (PackData(c.secondTicket) + rest);
    var s2 := Pack32(|c.addresses|) + (PackTyped(c.addresses) + (Pack32(|c.authdata|) + (PackTyped(c.authdata) + s3)));
    var s1 := Pack32(c.flags) + s2;
    Nest8([c.isSkey], Pack32(c.flags), Pack32(|c.addresses|), PackTyped(c.addresses), Pack32(|c.authdata|),
          PackTyped(c.authdata), PackData(c.ticket), PackData(c.secondTicket), rest);
    ByteFirst(c.isSkey, s1);
    Read32Packed(c.flags, s2);
    ReadListsPacked(c, s3);
    ReadTicketsPacked(c.ticket, c.secondTicket, rest);
    ReadTailStep(c, [c.isSkey] + s1, s1, s2, s3, rest);
  }

  lemma ByteFirst(b: byte, rest: seq<byte>)
    ensures ReadByte([b] + rest) == Got(b, rest)
  {
    assert ([b] + rest)[1..] == rest;
  }

  lemma ReadCredentialPacked(c: Credential, rest: seq<byte>)
    requires FitsCredential(c)
    ensures ReadCredential(PackCredential(c) + rest) == Got(c, rest)
  {
    var s5 := PackTail(c) + rest;
    var s4 := PackTimes(c.times) + s5;
    var s3 := PackData(c.key.contents) + s4;
    var s2 := Pack16(c.key.enctype) + s3;
    var s1 := PackPrincipal(c.server) + s2;
    assert PackCredential(c) + rest == PackPrincipal(c.client) + s1;
    ReadPrincipalPacked(c.client, s1);
    ReadPrincipalPacked(c.server, s2);
    Read16Packed(c.key.enctype, s3);
    ReadDataPacked(c.key.contents, s4);
    ReadTimesPacked(c.times, s5);
    ReadTailPacked(c, rest);
  }

  lemma ReadCredentialsStep(s: seq<byte>, first: Credential, rest: seq<byte>, others: seq<Credential>)
    ensures ReadCredential(s) == Got(first, rest) && ReadCredentials(rest) == Some(others) ==>
              ReadCredentials(s) == Some([first] + others)
  {
    assert ReadCredential(s) == Got(first, rest) ==> s != [];
  }

  lemma ReadCredentialsCons(c: Credential, cs: seq<Credential>)
    requires FitsCredential(c) && FitsCredentials(cs)
    ensures FitsCredentials([c] + cs)
    ensures ReadCredentials(PackCredentials(cs)) == Some(cs) ==>
              ReadCredentials(PackCredentials([c] + cs)) == Some([c] + cs)
  {
    PackCons(c, cs);
    ReadCredentialPacked(c, PackCredentials(cs));
    ReadCredentialsStep(PackCredential(c) + PackCredentials(cs), c, PackCredentials(cs), cs);
  }

  lemma {:induction false} ReadCredentialsPacked(cs: seq<Credential>)
    requires FitsCredentials(cs)
    ensures ReadCredentials(PackCredentials(cs)) == Some(cs)
  {
    if cs != [] {
      var c, others := cs[0], cs[1..];
      assert [c] + others == cs;
      ReadCredentialsPacked(others);
      ReadCredentialsCons(c, others);
    }
  }

  lemma ReadCacheStep(s: seq<byte>, s1: seq<byte>, principal: Principal, s2: seq<byte>, cs: seq<Credential>)
    requires |s| >= 2 && s[..2] == VERSION && Read16(s[2..]) == Got(0, s1)
    requires ReadPrincipal(s1) == Got(principal, s2) && ReadCredentials(s2) == Some(cs)
    ensures ReadCache(s) == Some(Cache(principal, cs))
  {
    assert s1[0..] == s1;
  }

  /** The layout round trip, for every cache whose lengths and numbers fit their fields. */
  lemma ReadCachePacked(cache: Cache)
    requires FitsPrincipal(cache.principal) && FitsCredentials(cache.credentials)
    ensures ReadCache(PackCache(cache)) == Some(cache)
  {
    var s2 := PackCredentials(cache.credentials);
    var s1 := PackPrincipal(cache.principal) + s2;
    var s := VERSION + (Pack16(0) + s1);
    assert s[..2] == VERSION && s[2..] == Pack16(0) + s1;
    Read16Packed(0, s1);
    ReadPrincipalPacked(cache.principal, s2);
    ReadCredentialsPacked(cache.credentials);
    ReadCacheStep(s, s1, cache.principal, s2, cache.credentials);
  }

  // ---------------------------------------------------------------------------------------
  // Header fields, foreign bytes, and bytes after the ticket
  // ---------------------------------------------------------------------------------------

  lemma SameHeader(text: Principal -> Name, s: seq<byte>, t: seq<byte>)
    ensures ReadHeader(s) == ReadHeader(t) ==> Info(text, s) == Info(text, t)
  {
  }

  /** The header fields a real cache may carry are passed over, whatever they hold. */
  lemma HeaderFieldsIgnored(text: Principal -> Name, fields: seq<byte>, cache: Cache)
    requires |fields| < U16 && FitsPrincipal(cache.principal) && FitsCredentials(cache.credentials)
    ensures var rest := PackPrincipal(cache.principal) + PackCredentials(cache.credentials);
            Info(text, [5, 4] + (Pack16(|fields|) + (fields + rest))) == Info(text, PackCache(cache))
  {
    var credentials := PackCredentials(cache.credentials);
    var rest := PackPrincipal(cache.principal) + credentials;
    HeaderRead(fields, cache.principal, credentials);
    HeaderRead([], cache.principal, credentials);
    assert [] + rest == rest;
    SameHeader(text, [5, 4] + (Pack16(|fields|) + (fields + rest)), PackCache(cache));
  }

  lemma HeaderRead(fields: seq<byte>, principal: Principal, credentials: seq<byte>)
    requires |fields| < U16 && FitsPrincipal(principal)
    ensures ReadHeader([5, 4] + (Pack16(|fields|) + (fields + (PackPrincipal(principal) + credentials))))
         == Got(principal, credentials)
  {
    var rest := PackPrincipal(principal) + credentials;
    var s := [5, 4] + (Pack16(|fields|) + (fields + rest));
    assert s[..2] == VERSION && s[2..] == Pack16(|fields|) + (fields + rest);
    Read16Packed(|fields|, fields + rest);
    assert (fields + rest)[|fields|..] == rest;
    ReadPrincipalPacked(principal, credentials);
  }

  /** Bytes without the version, or with less than the header they announce, are no ccache. */
  lemma NoCcache(text: Principal -> Name, bytes: seq<byte>)
    requires |bytes| < 4 || bytes[0] != 5 || bytes[1] != 4 || bytes[2] as int * 256 + bytes[3] as int + 4 > |bytes|
    ensures Info(text, bytes) == Unreadable
  {
    if |bytes| >= 2 {
      assert bytes[..2] == [bytes[0], bytes[1]];
    }
  }

  lemma {:induction false} ScanPacked(
    text: Principal -> Name, principal: Principal, cs: seq<Credential>, junk: seq<byte>)
    requires FitsCredentials(cs) && FirstTgt(text, principal.realm, cs).Some?
    ensures Scan(text, principal, PackCredentials(cs) + junk)
         == Readable(InfoOf(text, principal, FirstTgt(text, principal.realm, cs).value.times))
  {
    var first, rest := PackCredential(cs[0]), PackCredentials(cs[1..]);
    Group3(first, rest, junk);
    ReadCredentialPacked(cs[0], rest + junk);
    ScanStep(text, principal, first + (rest + junk), cs[0], rest + junk);
    if !IsTgt(text, principal.realm, cs[0]) {
      ScanPacked(text, principal, cs[1..], junk);
    }
  }

  lemma ScanStep(text: Principal -> Name, principal: Principal, s: seq<byte>, c: Credential, rest: seq<byte>)
    ensures ReadCredential(s) == Got(c, rest) ==>
              Scan(text, principal, s) == if IsTgt(text, principal.realm, c)
                                          then Readable(InfoOf(text, principal, c.times))
                                          else Scan(text, principal, rest)
  {
    assert ReadCredential(s) == Got(c, rest) ==> s != [];
  }

  lemma CacheThen(cache: Cache, junk: seq<byte>)
    requires FitsPrincipal(cache.principal) && FitsCredentials(cache.credentials)
    ensures ReadHeader(PackCache(cache) + junk) == Got(cache.principal, PackCredentials(cache.credentials) + junk)
  {
    var head, credentials := PackPrincipal(cache.principal), PackCredentials(cache.credentials);
    Group3(VERSION, Pack16(0) + (head + credentials), junk);
    Group3(Pack16(0), head + credentials, junk);
    Group3(head, credentials, junk);
    NothingBefore(head + (credentials + junk));
    HeaderRead([], cache.principal, credentials + junk);
  }

  lemma NothingBefore(s: seq<byte>)
    ensures [] + s == s
  {
  }

  lemma InfoAfter(text: Principal -> Name, s: seq<byte>, principal: Principal, rest: seq<byte>)
    requires ReadHeader(s) == Got(principal, rest)
    ensures Info(text, s) == if !ValidUtf8(principal.realm) then Undecodable else Scan(text, principal, rest)
  {
  }

  /** What follows a ticket-granting ticket is never read, whatever it is. */
  lemma JunkIgnored(text: Principal -> Name, cache: Cache, junk: seq<byte>)
    requires FitsPrincipal(cache.principal) && FitsCredentials(cache.credentials)
    requires FirstTgt(text, cache.principal.realm, cache.credentials).Some?
    ensures Info(text, PackCache(cache) + junk) == Info(text, PackCache(cache))
  {
    CacheThen(cache, junk);
    InfoAfter(text, PackCache(cache) + junk, cache.principal, PackCredentials(cache.credentials) + junk);
    ScanPacked(text, cache.principal, cache.credentials, junk);
    InfoOfPacked(text, cache);
  }

  /** What the scan says of any cache laid out in bytes. */
  lemma InfoOfPacked(text: Principal -> Name, cache: Cache)
    requires FitsPrincipal(cache.principal) && FitsCredentials(cache.credentials)
    ensures Info(text, PackCache(cache)) ==
            if !ValidUtf8(cache.principal.realm) then Undecodable
            else match FirstTgt(text, cache.principal.realm, cache.credentials)
                 case None => Unreadable
                 case Some(c) => Readable(InfoOf(text, cache.principal, c.times))
  {
    ReadCachePacked(cache);
    InfoOfCache(text, PackCache(cache), cache);
  }

  // ---------------------------------------------------------------------------------------
  // Servers, and the text libkrb5 gives them
  // ---------------------------------------------------------------------------------------

  /** No separator, backslash or control character, which libkrb5 would escape. */
  predicate Plain(name: Name) {
    forall i :: 0 <= i < |name| ==> name[i] >= 32 && name[i] != SLASH && name[i] != AT && name[i] != 92
  }

  function Join(components: seq<Name>): Name {
    if components == [] then []
    else if |components| == 1 then components[0]
    else components[0] + [SLASH] + Join(components[1..])
  }

  ghost predicate PlainPrincipal(p: Principal) {
    Plain(p.realm) && PlainAll(p.components)
  }

  /** A rendering of principals that joins plain names with the separators and adds nothing. */
  ghost predicate Renders(text: Principal -> Name) {
    forall p :: PlainPrincipal(p) ==> text(p) == Join(p.components) + [AT] + p.realm
  }

  /** Two ways to cut a name at a separator that neither first part holds are the same. */
  lemma CutOnce(a: Name, b: Name, c: Name, d: Name, separator: byte)
    requires a + [separator] + b == c + [separator] + d && separator !in a && separator !in c
    ensures a == c && b == d
  {
    var s := a + [separator] + b;
    assert s[|a|] == separator && s[|c|] == separator;
    assert a == s[..|a|] && c == s[..|c|] && b == s[|a| + 1..] && d == s[|c| + 1..];
  }

  ghost predicate PlainAll(names: seq<Name>) {
    forall i :: 0 <= i < |names| ==> Plain(names[i])
  }

  lemma {:induction false} JoinHoldsNoAt(components: seq<Name>)
    requires PlainAll(components)
    ensures AT !in Join(components)
  {
    if |components| == 1 {
      assert Plain(components[0]);
    } else if components != [] {
      assert Plain(components[0]);
      JoinHoldsNoAt(components[1..]);
    }
  }

  lemma LongJoinHoldsSlash(components: seq<Name>)
    ensures |components| > 1 ==> SLASH in Join(components)
  {
    if |components| > 1 {
      assert Join(components)[|components[0]|] == SLASH;
    }
  }

  /** Joined plain names show whether they were two. */
  lemma JoinsTwo(components: seq<Name>, x: Name, y: Name)
    requires PlainAll(components) && Plain(x) && Plain(y) && Join(components) == x + [SLASH] + y
    ensures components == [x, y]
  {
    assert Join(components)[|x|] == SLASH;
    assert components != [] ==> Plain(components[0]);
    if |components| > 1 {
      var others := components[1..];
      CutOnce(components[0], Join(others), x, y, SLASH);
      LongJoinHoldsSlash(others);
    }
  }

  /** A plain server reads as the ticket-granting server of a realm exactly when it is that. */
  lemma TgtTextIff(text: Principal -> Name, server: Principal, realm: Name)
    requires Renders(text) && PlainPrincipal(server) && Plain(realm)
    ensures text(server) == TgtServer(realm) <==> server.realm == realm && server.components == [KRBTGT, realm]
  {
    assert KRBTGT == [107, 114, 98, 116, 103, 116];
    var name := KRBTGT + [SLASH] + realm;
    assert TgtServer(realm) == name + [AT] + realm;
    JoinHoldsNoAt(server.components);
    if text(server) == TgtServer(realm) {
      CutOnce(Join(server.components), server.realm, name, realm, AT);
      JoinsTwo(server.components, KRBTGT, realm);
    }
    if server.components == [KRBTGT, realm] {
      assert server.components[1..] == [realm];
    }
  }

  lemma {:induction false} SkipOne(text: Principal -> Name, realm: Name, before: seq<Credential>, c: Credential,
                                   after: seq<Credential>)
    requires !IsTgt(text, realm, c)
    ensures FirstTgt(text, realm, before + [c] + after) == FirstTgt(text, realm, before + after)
  {
    if before == [] {
      assert (before + [c] + after)[1..] == after && before + after == after;
    } else {
      SkipOne(text, realm, before[1..], c, after);
      assert (before + [c] + after)[1..] == before[1..] + [c] + after;
      assert (before + after)[1..] == before[1..] + after;
    }
  }

  lemma {:induction false} FitsJoined(a: seq<Credential>, b: seq<Credential>)
    ensures FitsCredentials(a + b) <==> FitsCredentials(a) && FitsCredentials(b)
  {
    if a == [] {
      assert a + b == b;
    } else {
      FitsJoined(a[1..], b);
      assert (a + b)[1..] == a[1..] + b;
    }
  }

  lemma FitsInserted(before: seq<Credential>, c: Credential, after: seq<Credential>)
    requires FitsCredentials(before) && FitsCredential(c) && FitsCredentials(after)
    ensures FitsCredentials(before + [c] + after) && FitsCredentials(before + after)
  {
    OneCredential(c);
    FitsJoined(before, [c]);
    FitsJoined(before + [c], after);
    FitsJoined(before, after);
  }

  /** A credential for any other server, wherever it stands in the file, changes nothing. */
  lemma OthersIgnored(text: Principal -> Name, p: Principal, before: seq<Credential>, c: Credential,
                      after: seq<Credential>)
    requires FitsPrincipal(p) && FitsCredentials(before) && FitsCredential(c) && FitsCredentials(after)
    requires Renders(text) && Plain(p.realm) && PlainPrincipal(c.server)
    requires c.server.realm != p.realm || c.server.components != [Ascii("krbtgt"), p.realm]
    ensures FitsCredentials(before + [c] + after) && FitsCredentials(before + after)
    ensures Info(text, PackCache(Cache(p, before + [c] + after))) == Info(text, PackCache(Cache(p, before + after)))
  {
    FitsInserted(before, c, after);
    TgtTextIff(text, c.server, p.realm);
    SkipOne(text, p.realm, before, c, after);
    InfoOfPacked(text, Cache(p, before + [c] + after));
    InfoOfPacked(text, Cache(p, before + after));
  }
}
