/** The two ends of name resolution joined: what the control plane's tables hold is what the agent's
    responder answers. */
module Resolver {
  import opened Prelude
  import opened Decimal
  import opened Names
  import opened Control
  import opened Dns
  import ControlRuns

  /** The record list an agent receives, in whatever order: exactly the rows of the table. */
  ghost predicate Lists(records: seq<DnsRecord>, dns: map<DeviceId, Record>)
  {
    && (forall r :: r in records ==> exists d :: d in dns && r == DnsRecord(dns[d].name, "A", dns[d].value))
    && (forall d :: d in dns ==> DnsRecord(dns[d].name, "A", dns[d].value) in records)
  }

  // ---------------------------------------------------------------- addresses as text

  lemma {:induction false} SplitHead(head: string, tail: string)
    requires '.' !in head
    ensures SplitDots(head + "." + tail) == [head] + SplitDots(tail)
  {
    var s := head + "." + tail;
    if head == [] {
      assert s[1..] == tail;
    } else {
      SplitHead(head[1..], tail);
      assert s[1..] == head[1..] + "." + tail;
      assert [head[0]] + head[1..] == head;
    }
  }

  lemma {:induction false} SplitNone(s: string)
    requires '.' !in s
    ensures SplitDots(s) == [s]
  {
    if s != [] {
      SplitNone(s[1..]);
      assert [s[0]] + s[1..] == s;
    }
  }

  lemma {:induction false} DigitsShape(n: nat)
    requires n < 1000
    ensures |Digits(n)| <= 3 && (|Digits(n)| > 1 ==> Digits(n)[0] != '0')
  {
    if n >= 10 {
      assert n / 10 < 10 || n / 10 / 10 < 10;
      assert Digits(n % 10) == [('0' as int + n % 10) as char];
      if n >= 100 {
        assert Digits(n / 10) == Digits(n / 10 / 10) + Digits(n / 10 % 10);
      }
    }
  }

  lemma OctetRoundTrip(n: nat)
    requires n < 256
    ensures ParseOctet(Digits(n)) == Some(n) && '.' !in Digits(n)
  {
    DigitsShape(n);
    ValueOfDigits(n);
    assert forall i :: 0 <= i < |Digits(n)| ==> IsDigit(Digits(n)[i]);
  }

  /** Dotted decimal. */
  function Dotted4(ip: Ipv4): (s: string)
  {
    Digits(ip.a) + "." + (Digits(ip.b) + "." + (Digits(ip.c) + "." + Digits(ip.d)))
  }

  /** A digit string without a needless zero in front is the numeral of the number it denotes. */
  lemma {:induction false} NumeralOfValue(s: string)
    requires s != [] && AllDigits(s) && (|s| > 1 ==> s[0] != '0')
    ensures ValueOf(s).Some? && Digits(ValueOf(s).value) == s
    ensures s[0] != '0' ==> ValueOf(s).value > 0
  {
    var n := |s| - 1;
    var c := s[n];
    assert s == s[..n] + [c];
    if n == 0 {
      assert s[..0] == [] && ValueOf(s[..0]) == Some(0);
      assert s == [c];
    } else {
      assert s[..n][0] == s[0];
      NumeralOfValue(s[..n]);
      var high, low := ValueOf(s[..n]).value, c as int - '0' as int;
      var v := 10 * high + low;
      assert ValueOf(s) == Some(v) && v / 10 == high && v % 10 == low;
      assert Digits(v) == Digits(high) + Digits(low);
      assert Digits(low) == [c];
    }
  }

  lemma OctetExactlyWhen(s: string, n: byte)
    ensures ParseOctet(s) == Some(n) <==> s == Digits(n)
  {
    if s == Digits(n) {
      OctetRoundTrip(n);
    }
    if ParseOctet(s) == Some(n) {
      NumeralOfValue(s);
    }
  }

  lemma SplitDotted(ip: Ipv4)
    ensures SplitDots(Dotted4(ip)) == [Digits(ip.a), Digits(ip.b), Digits(ip.c), Digits(ip.d)]
  {
    var a, b, c, d := Digits(ip.a), Digits(ip.b), Digits(ip.c), Digits(ip.d);
    OctetRoundTrip(ip.a);
    OctetRoundTrip(ip.b);
    OctetRoundTrip(ip.c);
    OctetRoundTrip(ip.d);
    hide SplitDots, Digits, ParseOctet;
    SplitHead(a, b + "." + (c + "." + d));
    SplitHead(b, c + "." + d);
    SplitHead(c, d);
    SplitNone(d);
  }

  /** An address is read from exactly one text: its dotted decimal form. */
  lemma AddressExactlyWhen(s: string, ip: Ipv4)
    ensures ParseIpv4(s) == Some(ip) <==> s == Dotted4(ip)
  {
    SplitDotted(ip);
    var parts := SplitDots(s);
    if |parts| == 4 {
      OctetExactlyWhen(parts[0], ip.a);
      OctetExactlyWhen(parts[1], ip.b);
      OctetExactlyWhen(parts[2], ip.c);
      OctetExactlyWhen(parts[3], ip.d);
    }
    JoinSplit(s);
    JoinSplit(Dotted4(ip));
    hide SplitDots, Digits, ParseOctet, Join;
    if ParseIpv4(s) == Some(ip) {
      assert parts == [Digits(ip.a), Digits(ip.b), Digits(ip.c), Digits(ip.d)];
    }
  }

  /** The address text the control plane writes is read back as that address. */
  lemma AddressParses(octet: nat)
    requires octet < 256
    ensures ParseIpv4(Address(octet)) == Some(Ipv4(100, 64, 0, octet))
  {
    var ip := Ipv4(100, 64, 0, octet);
    assert Digits(100) == "100" && Digits(64) == "64" && Digits(0) == "0";
    assert Address(octet) == Dotted4(ip);
    AddressExactlyWhen(Address(octet), ip);
  }

  lemma DeviceOctet(db: Db, d: DeviceId) returns (octet: nat)
    requires AllocationsOk(db) && d in db.devices
    ensures 2 <= octet <= 254 && db.devices[d].ipv4 == Address(octet)
    ensures ParseIpv4(db.devices[d].ipv4) == Some(Ipv4(100, 64, 0, octet))
  {
    var i :| 0 <= i < |db.allocations| && db.allocations[i].device == d;
    octet := i + 2;
    AddressParses(octet);
  }

  // ---------------------------------------------------------------- lookup

  lemma {:induction false} FirstMatchFinds(records: seq<DnsRecord>, name: string)
    ensures FirstMatch(records, name).Some? ==>
              var r := FirstMatch(records, name).value;
              r in records && NormalizeName(r.name) == name
    ensures FirstMatch(records, name).None? ==>
              forall r :: r in records && r.recordType == "A" ==> NormalizeName(r.name) != name
  {
    if records != [] {
      FirstMatchFinds(records[1..], name);
      assert records == [records[0]] + records[1..];
    }
  }

  /** An A record, in either case, of this name. */
  predicate Answers(r: DnsRecord, name: string)
  {
    (r.recordType == "A" || r.recordType == "a") && NormalizeName(r.name) == name
  }

  lemma RecordTypeA(t: string)
    ensures Lower(t) == Lower("A") <==> t == "A" || t == "a"
  {
    FoldsCase(t, "A");
    hide Lower;
    if |t| == 1 {
      assert t == [t[0]];
    }
  }

  lemma {:induction false} FirstMatchExactly(records: seq<DnsRecord>, name: string, i: nat)
    requires i < |records| && Answers(records[i], name)
    requires forall j :: 0 <= j < i ==> !Answers(records[j], name)
    ensures FirstMatch(records, name) == Some(records[i])
  {
    RecordTypeA(records[0].recordType);
    hide Lower, NormalizeName;
    if i > 0 {
      FirstMatchExactly(records[1..], name, i - 1);
    }
  }

  /** For any records: a name under the suffix resolves to the address that the first A record of that name
      spells, and to nothing if that record spells none or there is none; a name elsewhere resolves to
      nothing. */
  lemma ResolvesExactlyWhen(records: seq<DnsRecord>, query: string, suffix: string, ip: Ipv4)
    ensures ResolveA(records, query, suffix) == Some(ip) <==>
            && (exists x: string :: NormalizeName(query) == x + "." + NormalizeSuffix(suffix))
            && exists i :: && 0 <= i < |records| && Answers(records[i], NormalizeName(query))
                           && (forall j :: 0 <= j < i ==> !Answers(records[j], NormalizeName(query)))
                           && records[i].value == Dotted4(ip)
  {
    var name, tail := NormalizeName(query), "." + NormalizeSuffix(suffix);
    if EndsWith(name, tail) {
      assert name == name[..|name| - |tail|] + "." + NormalizeSuffix(suffix);
    }
    if x: string :| name == x + "." + NormalizeSuffix(suffix) {
      assert name == x + tail && name[|name| - |tail|..] == tail;
    }
    hide NormalizeName, NormalizeSuffix, Dotted4, ParseIpv4, EndsWith;
    if FirstMatch(records, name).Some? {
      var i := FirstAnswer(records, name);
      FirstMatchExactly(records, name, i);
      AddressExactlyWhen(records[i].value, ip);
    } else if i :| 0 <= i < |records| && Answers(records[i], name)
                   && (forall j :: 0 <= j < i ==> !Answers(records[j], name)) {
      FirstMatchExactly(records, name, i);
    }
  }

  /** The first record that matches. */
  lemma {:induction false} FirstAnswer(records: seq<DnsRecord>, name: string) returns (i: nat)
    requires FirstMatch(records, name).Some?
    ensures i < |records| && Answers(records[i], name) && forall j :: 0 <= j < i ==> !Answers(records[j], name)
  {
    RecordTypeA(records[0].recordType);
    hide Lower, NormalizeName;
    if Answers(records[0], name) {
      i := 0;
    } else {
      i := FirstAnswer(records[1..], name);
      i := i + 1;
      forall j | 0 <= j < i ensures !Answers(records[j], name) {
        assert j > 0 ==> records[j] == records[1..][j - 1];
      }
    }
  }

  lemma MeshNameEnds(name: string)
    requires InMesh(name)
    ensures EndsWith(Lower(name), ".mesh")
  {
    var low := Lower(name);
    forall i | 0 <= i < 5 ensures low[|name| - 5 + i] == ".mesh"[i] {
      assert name[|name| - 5 + i] == name[|name| - 5..][i] == DNS_SUFFIX[i];
    }
    assert low[|name| - 5..] == ".mesh";
  }

  /** For one table in good order: a query that normalizes to a device's folded name resolves to that
      device's address, a query that normalizes to no device's folded name resolves to nothing. */
  lemma TableResolves(db: Db, records: seq<DnsRecord>, query: string, suffix: string)
    requires RecordsOk(db) && Lists(records, db.dns) && NormalizeSuffix(suffix) == "mesh"
    ensures forall d :: d in db.dns && Lower(db.dns[d].name) == NormalizeName(query) ==>
              ResolveA(records, query, suffix) == ParseIpv4(db.devices[d].ipv4)
    ensures (forall d :: d in db.dns ==> Lower(db.dns[d].name) != NormalizeName(query)) ==>
              ResolveA(records, query, suffix) == None
  {
    hide Lower, NormalizeName, ParseIpv4, NormalizeSuffix, InMesh;
    var name := NormalizeName(query);
    FirstMatchFinds(records, name);
    assert "." + NormalizeSuffix(suffix) == ".mesh";
    forall d | d in db.dns ensures NormalizeName(db.dns[d].name) == Lower(db.dns[d].name) {
      NormalizeMeshName(db.dns[d].name);
    }
    forall d | d in db.dns && Lower(db.dns[d].name) == name
      ensures ResolveA(records, query, suffix) == ParseIpv4(db.devices[d].ipv4)
    {
      MeshNameEnds(db.dns[d].name);
      assert DnsRecord(db.dns[d].name, "A", db.dns[d].value) in records;
      var r := FirstMatch(records, name).value;
      var e :| e in db.dns && r == DnsRecord(db.dns[e].name, "A", db.dns[e].value);
      assert e == d;
    }
  }

  /** Control plane and resolver agree. After any interleaving of registrations, renames and deletions
      from an empty database, with the records in any order and the name queried in any case and with
      any number of trailing dots: a live device's name resolves to that device's own address, one of
      100.64.0.2 to 100.64.0.254 that no other device has, and a name that no live device holds
      resolves to nothing. */
  lemma LiveNamesResolve(steps: seq<ControlRuns.Step>, records: seq<DnsRecord>, query: string, suffix: string)
    requires var db := ControlRuns.Exec(ControlRuns.EMPTY_SYSTEM, steps).db;
             Lists(records, db.dns) && NormalizeSuffix(suffix) == "mesh"
    ensures var db := ControlRuns.Exec(ControlRuns.EMPTY_SYSTEM, steps).db;
            && (forall d :: d in db.dns <==> Live(db, d))
            && (forall d :: Live(db, d) && Lower(db.dns[d].name) == NormalizeName(query) ==>
                  exists octet: nat ::
                    && 2 <= octet <= 254 && db.devices[d].ipv4 == Address(octet)
                    && ResolveA(records, query, suffix) == Some(Ipv4(100, 64, 0, octet)))
            && ((forall d :: Live(db, d) ==> Lower(db.dns[d].name) != NormalizeName(query)) ==>
                  ResolveA(records, query, suffix) == None)
  {
    hide ResolveA, Lists, Lower, NormalizeName, NormalizeSuffix, ControlRuns.Exec, Address, AllocationsOk, ParseIpv4;
    ControlRuns.ReachableInv(steps);
    var db := ControlRuns.Exec(ControlRuns.EMPTY_SYSTEM, steps).db;
    TableResolves(db, records, query, suffix);
    forall d | Live(db, d) && Lower(db.dns[d].name) == NormalizeName(query)
      ensures exists octet: nat ::
                && 2 <= octet <= 254 && db.devices[d].ipv4 == Address(octet)
                && ResolveA(records, query, suffix) == Some(Ipv4(100, 64, 0, octet))
    {
      var octet := DeviceOctet(db, d);
    }
  }

  /** What a response to an A query of class IN says. */
  lemma ResponseSays(utf8: Bytes -> Option<string>, request: Bytes, records: seq<DnsRecord>, suffix: string)
    requires ParseQuery(utf8, request).Ok?
    requires ParseQuery(utf8, request).value.qtype == 1 && ParseQuery(utf8, request).value.qclass == 1
    ensures var query := ParseQuery(utf8, request).value;
            var response := ResponseFor(request, query, AnswerTo(records, query, suffix));
            var ip := ResolveA(records, query.qname, suffix);
            && |response| >= 12 && |request| >= 2 && response[..2] == request[..2]
            && (ip.Some? ==> response[3] == 0x80 && response[6..8] == [0, 1]
                             && response[|response| - 4..] == [ip.value.a, ip.value.b, ip.value.c, ip.value.d])
            && (ip.None? ==> response[3] == 0x83 && response[6..8] == [0, 0] && |response| == query.questionEnd)
  {
    ResponseReparses(utf8, request, records, suffix);
    IdBytes(utf8, request);
    var query := ParseQuery(utf8, request).value;
    var response := ResponseFor(request, query, AnswerTo(records, query, suffix));
    hide ResolveA, ResponseFor, ParseQuery;
    assert response[2..4][1] == response[3] && response[4..12][2..4] == response[6..8];
    var tail := response[query.questionEnd..];
    assert |tail| >= 4 ==> response[|response| - 4..] == tail[|tail| - 4..];
  }

  /** On the wire. After any run of the control plane, a request that writes a live device's name, in any case,
      as type A and class IN, is answered under its own id with code 0 and one record that ends in that
      device's own address; a request that writes a name no live device holds, with code 3 and no record. */
  lemma WireAnswer(utf8: Bytes -> Option<string>, encode: string -> Bytes, steps: seq<ControlRuns.Step>,
                   records: seq<DnsRecord>, suffix: string, id: u16, flags: Bytes, counts: Bytes,
                   name: string, rest: Bytes)
    requires var db := ControlRuns.Exec(ControlRuns.EMPTY_SYSTEM, steps).db;
             Lists(records, db.dns) && NormalizeSuffix(suffix) == "mesh"
    requires |flags| == 2 && |counts| == 6 && Encodes(utf8, encode, SplitDots(name))
    ensures var db := ControlRuns.Exec(ControlRuns.EMPTY_SYSTEM, steps).db;
            var request := WriteRequest(encode, id, flags, counts, name, 1, 1) + rest;
            && ParseQuery(utf8, request).Ok?
            && var query := ParseQuery(utf8, request).value;
               var response := ResponseFor(request, query, AnswerTo(records, query, suffix));
               && |response| >= 12 && response[..2] == [id / 256, id % 256]
               && (forall d :: Live(db, d) && d in db.dns && Lower(db.dns[d].name) == Lower(name) ==>
                     exists octet: byte ::
                       && db.devices[d].ipv4 == Address(octet)
                       && response[3] == 0x80 && response[6..8] == [0, 1]
                       && response[|response| - 4..] == [100, 64, 0, octet])
               && ((forall d :: Live(db, d) && d in db.dns ==> Lower(db.dns[d].name) != NormalizeName(name)) ==>
                     response[3] == 0x83 && response[6..8] == [0, 0] && |response| == query.questionEnd)
  {
    hide ResolveA, Lists, Lower, NormalizeName, NormalizeSuffix, ControlRuns.Exec, Address, ParseLabels, Join;
    hide SplitDots;
    hide WriteLabels;
    var db := ControlRuns.Exec(ControlRuns.EMPTY_SYSTEM, steps).db;
    var request := WriteRequest(encode, id, flags, counts, name, 1, 1) + rest;
    WrittenRequestParses(utf8, encode, id, flags, counts, name, 1, 1, rest);
    var query := ParseQuery(utf8, request).value;
    LiveNamesResolve(steps, records, name, suffix);
    ResponseSays(utf8, request, records, suffix);
    assert request[..2] == [id / 256, id % 256];
    var response := ResponseFor(request, query, AnswerTo(records, query, suffix));
    hide ResponseFor, ParseQuery, WriteRequest, AnswerTo;
    forall d | Live(db, d) && d in db.dns && Lower(db.dns[d].name) == Lower(name)
      ensures exists octet: byte ::
                && db.devices[d].ipv4 == Address(octet)
                && response[3] == 0x80 && response[6..8] == [0, 1]
                && response[|response| - 4..] == [100, 64, 0, octet]
    {
      ReachableInMesh(steps, d);
      PlainVariant(db.dns[d].name, name);
      var octet: nat :| 2 <= octet <= 254 && db.devices[d].ipv4 == Address(octet)
                        && ResolveA(records, name, suffix) == Some(Ipv4(100, 64, 0, octet));
      var o: byte := octet;
      assert response[|response| - 4..] == [100, 64, 0, o];
    }
  }

  lemma ReachableInMesh(steps: seq<ControlRuns.Step>, d: DeviceId)
    requires d in ControlRuns.Exec(ControlRuns.EMPTY_SYSTEM, steps).db.dns
    ensures InMesh(ControlRuns.Exec(ControlRuns.EMPTY_SYSTEM, steps).db.dns[d].name)
  {
    hide ControlRuns.Exec;
    ControlRuns.ReachableInv(steps);
  }

  lemma PlainVariant(name: string, query: string)
    requires InMesh(name) && Lower(query) == Lower(name)
    ensures NormalizeName(query) == Lower(name)
  {
    NormalizeVariant(name, query, 0);
    assert query + seq(0, _ => '.') == query;
  }
}
