/** Endpoints of a peer and the order in which they are tried. */
module Transport {
  import opened Prelude

  datatype IpAddr =
    | V4(a: byte, b: byte, c: byte, d: byte)
    | V6(segments: seq<u16>)

  datatype EndpointKind = Lan | Public | Ipv6 | Relay

  datatype Protocol = Udp | Tcp

  datatype Endpoint = Endpoint(kind: EndpointKind, address: IpAddr, port: u16, protocol: Protocol)

  datatype SocketAddr = SocketAddr(ip: IpAddr, port: u16)

  predicate IsPrivateLan(address: IpAddr)
  {
    match address
    case V4(a, b, _, _) =>
      || a == 10 || (a == 172 && 16 <= b <= 31) || (a == 192 && b == 168)  // private
      || (a == 169 && b == 254)                                            // link-local
      || (a == 100 && 64 <= b <= 127)                                      // carrier-grade NAT
    case V6(segments) =>
      segments != [] && (0xfc00 <= segments[0] < 0xfe00 || 0xfe80 <= segments[0] < 0xfec0)
  }

  /** An IPv4 address as a 32-bit number. */
  function Ipv4Number(a: byte, b: byte, c: byte, d: byte): (n: nat)
  {
    0x100_0000 * (a as nat) + 0x1_0000 * (b as nat) + 0x100 * (c as nat) + d as nat
  }

  /** The private addresses: 10.0.0.0/8, 172.16.0.0/12, 192.168.0.0/16, 169.254.0.0/16, 100.64.0.0/10, fc00::/7
      and fe80::/10. */
  lemma PrivateRanges(address: IpAddr)
    ensures address.V4? ==>
              var n := Ipv4Number(address.a, address.b, address.c, address.d);
              IsPrivateLan(address) <==>
              || 0x0A00_0000 <= n <= 0x0AFF_FFFF || 0xAC10_0000 <= n <= 0xAC1F_FFFF || 0xC0A8_0000 <= n <= 0xC0A8_FFFF
              || 0xA9FE_0000 <= n <= 0xA9FE_FFFF || 0x6440_0000 <= n <= 0x647F_FFFF
    ensures address.V6? && |address.segments| == 8 ==>
              (IsPrivateLan(address) <==> address.segments[0] / 0x200 == 0x7E || address.segments[0] / 0x40 == 0x3FA)
  {
  }

  function EndpointRank(e: Endpoint): (rank: nat)
    ensures rank <= 4
  {
    match e.kind
    case Lan => if IsPrivateLan(e.address) then 0 else 3
    case Ipv6 => 1
    case Public => 2
    case Relay => 4
  }

  function EndpointSocketAddr(e: Endpoint): (r: Option<SocketAddr>)
  {
    if e.protocol.Udp? then Some(SocketAddr(e.address, e.port)) else None
  }

  function UdpOnly(endpoints: seq<Endpoint>): (r: seq<Endpoint>)
    ensures forall e :: e in r <==> e in endpoints && e.protocol.Udp?
  {
    if endpoints == [] then []
    else
      var rest, last := UdpOnly(endpoints[..|endpoints| - 1]), endpoints[|endpoints| - 1];
      assert endpoints == endpoints[..|endpoints| - 1] + [last];
      if last.protocol.Udp? then rest + [last] else rest
  }

  /** Order and number of the UDP endpoints stay as they are. */
  lemma {:induction false} UdpOnlyConcat(s: seq<Endpoint>, t: seq<Endpoint>)
    ensures UdpOnly(s + t) == UdpOnly(s) + UdpOnly(t)
  {
    if t == [] {
      assert s + t == s;
    } else {
      UdpOnlyConcat(s, t[..|t| - 1]);
      assert (s + t)[..|s + t| - 1] == s + t[..|t| - 1];
    }
  }

  lemma UdpOnlySingle(e: Endpoint)
    ensures UdpOnly([e]) == if e.protocol.Udp? then [e] else []
    ensures EndpointSocketAddr(e) == if e.protocol.Udp? then Some(SocketAddr(e.address, e.port)) else None
  {
    assert [e][..0] == [];
  }

  /** The first of the lowest-ranked endpoints. */
  function FirstLowest(endpoints: seq<Endpoint>): (r: Option<Endpoint>)
  {
    if endpoints == [] then None
    else
      var last := endpoints[|endpoints| - 1];
      match FirstLowest(endpoints[..|endpoints| - 1])
      case None => Some(last)
      case Some(e) => if EndpointRank(last) < EndpointRank(e) then Some(last) else Some(e)
  }

  function SelectUdpEndpoint(endpoints: seq<Endpoint>): (r: Option<Endpoint>)
  {
    FirstLowest(UdpOnly(endpoints))
  }

  // ---------------------------------------------------------------- stable sorting

  ghost predicate RankOrdered(s: seq<Endpoint>)
  {
    forall i, j :: 0 <= i < j < |s| ==> EndpointRank(s[i]) <= EndpointRank(s[j])
  }

  /** The endpoints of one rank, in their order of appearance. */
  function OfRank(s: seq<Endpoint>, rank: nat): (r: seq<Endpoint>)
  {
    if s == [] then []
    else
      var rest, last := OfRank(s[..|s| - 1], rank), s[|s| - 1];
      if EndpointRank(last) == rank then rest + [last] else rest
  }

  /** Rank-ordered, and endpoints of equal rank keep their order: this leaves one sequence only. */
  ghost predicate IsStableSort(s: seq<Endpoint>, sorted: seq<Endpoint>)
  {
    RankOrdered(sorted) && forall rank: nat :: OfRank(sorted, rank) == OfRank(s, rank)
  }

  lemma {:induction false} OfRankConcat(s: seq<Endpoint>, t: seq<Endpoint>, rank: nat)
    ensures OfRank(s + t, rank) == OfRank(s, rank) + OfRank(t, rank)
  {
    if t == [] {
      assert s + t == s;
    } else {
      OfRankConcat(s, t[..|t| - 1], rank);
      assert (s + t)[..|s + t| - 1] == s + t[..|t| - 1];
    }
  }

  lemma {:induction false} OfRankMember(s: seq<Endpoint>, rank: nat, e: Endpoint)
    ensures e in OfRank(s, rank) <==> e in s && EndpointRank(e) == rank
  {
    if s != [] {
      OfRankMember(s[..|s| - 1], rank, e);
      assert s == s[..|s| - 1] + [s[|s| - 1]];
    }
  }

  lemma OfRankSingle(e: Endpoint, rank: nat)
    ensures OfRank([e], rank) == if EndpointRank(e) == rank then [e] else []
  {
    assert [e][..0] == [];
  }

  /** The position just behind the last endpoint whose rank does not exceed the given one. */
  method InsertionPoint(s: seq<Endpoint>, e: Endpoint) returns (at: nat)
    requires RankOrdered(s)
    ensures at <= |s|
    ensures forall i :: 0 <= i < at ==> EndpointRank(s[i]) <= EndpointRank(e)
    ensures forall i :: at <= i < |s| ==> EndpointRank(s[i]) > EndpointRank(e)
  {
    at := |s|;
    while at > 0 && EndpointRank(s[at - 1]) > EndpointRank(e)
      invariant at <= |s|
      invariant forall i :: at <= i < |s| ==> EndpointRank(s[i]) > EndpointRank(e)
    {
      at := at - 1;
    }
  }

  lemma InsertKeepsOrder(s: seq<Endpoint>, sorted: seq<Endpoint>, at: nat, e: Endpoint)
    requires IsStableSort(s, sorted) && at <= |sorted|
    requires forall i :: 0 <= i < at ==> EndpointRank(sorted[i]) <= EndpointRank(e)
    requires forall i :: at <= i < |sorted| ==> EndpointRank(sorted[i]) > EndpointRank(e)
    ensures IsStableSort(s + [e], sorted[..at] + [e] + sorted[at..])
  {
    hide OfRank, EndpointRank;
    var before, after := sorted[..at], sorted[at..];
    forall rank: nat ensures OfRank(before + [e] + after, rank) == OfRank(s + [e], rank) {
      assert sorted == before + after;
      InsertKeepsRank(s, before, after, e, rank);
    }
  }

  lemma InsertKeepsRank(s: seq<Endpoint>, before: seq<Endpoint>, after: seq<Endpoint>, e: Endpoint, rank: nat)
    requires OfRank(before + after, rank) == OfRank(s, rank)
    requires forall i :: 0 <= i < |after| ==> EndpointRank(after[i]) > EndpointRank(e)
    ensures OfRank(before + [e] + after, rank) == OfRank(s + [e], rank)
  {
    hide OfRank, EndpointRank;
    OfRankConcat(before + [e], after, rank);
    OfRankConcat(before, [e], rank);
    OfRankConcat(s, [e], rank);
    OfRankConcat(before, after, rank);
    OfRankSingle(e, rank);
    var b, x, a := OfRank(before, rank), OfRank([e], rank), OfRank(after, rank);
    if rank == EndpointRank(e) {
      if a != [] {
        OfRankMember(after, rank, a[0]);
      }
      assert b + x + [] == b + x && b + [] == b;
    } else {
      assert b + [] + a == b + a && OfRank(s, rank) + [] == OfRank(s, rank);
    }
  }

  /** The endpoints of the first n ranks, rank by rank. */
  function OfRanks(s: seq<Endpoint>, n: nat): (r: seq<Endpoint>)
  {
    if n == 0 then [] else OfRanks(s, n - 1) + OfRank(s, n - 1)
  }

  /** All five ranks: the one stable sort, written down directly. */
  function ByRank(s: seq<Endpoint>): (r: seq<Endpoint>)
  {
    OfRanks(s, 5)
  }

  lemma {:induction false} OfOtherRank(s: seq<Endpoint>, rank: nat, other: nat)
    ensures OfRank(OfRank(s, rank), other) == if rank == other then OfRank(s, rank) else []
  {
    if s != [] {
      var rest, last := OfRank(s[..|s| - 1], rank), s[|s| - 1];
      OfOtherRank(s[..|s| - 1], rank, other);
      OfRankConcat(rest, [last], other);
      OfRankSingle(last, other);
    }
  }

  lemma {:induction false} OfRanksKeepsRanks(s: seq<Endpoint>, n: nat, rank: nat)
    ensures OfRank(OfRanks(s, n), rank) == if rank < n then OfRank(s, rank) else []
  {
    if n > 0 {
      OfRanksKeepsRanks(s, n - 1, rank);
      OfRankConcat(OfRanks(s, n - 1), OfRank(s, n - 1), rank);
      OfOtherRank(s, n - 1, rank);
    }
  }

  lemma {:induction false} OfRanksOrdered(s: seq<Endpoint>, n: nat)
    ensures RankOrdered(OfRanks(s, n)) && forall e :: e in OfRanks(s, n) ==> EndpointRank(e) < n
  {
    if n > 0 {
      OfRanksOrdered(s, n - 1);
      forall e ensures e in OfRank(s, n - 1) ==> EndpointRank(e) == n - 1 {
        OfRankMember(s, n - 1, e);
      }
    }
  }

  lemma ByRankIsStableSort(s: seq<Endpoint>)
    ensures IsStableSort(s, ByRank(s))
  {
    forall rank: nat ensures OfRank(ByRank(s), rank) == OfRank(s, rank) {
      OfRanksKeepsRanks(s, 5, rank);
      if rank > 4 && OfRank(s, rank) != [] {
        OfRankMember(s, rank, OfRank(s, rank)[0]);
      }
    }
    OfRanksOrdered(s, 5);
  }

  /** `sorted_udp_endpoints`: the UDP endpoints, stably sorted by rank. */
  method SortedUdpEndpoints(endpoints: seq<Endpoint>) returns (sorted: seq<Endpoint>)
    ensures IsStableSort(UdpOnly(endpoints), sorted)
    ensures multiset(sorted) == multiset(UdpOnly(endpoints))
    ensures sorted == ByRank(UdpOnly(endpoints))
  {
    var udp := UdpOnly(endpoints);
    sorted := [];
    for n := 0 to |udp|
      invariant IsStableSort(udp[..n], sorted)
    {
      var at := InsertionPoint(sorted, udp[n]);
      InsertKeepsOrder(udp[..n], sorted, at, udp[n]);
      assert udp[..n + 1] == udp[..n] + [udp[n]];
      sorted := sorted[..at] + [udp[n]] + sorted[at..];
    }
    assert udp[..|udp|] == udp;
    StableSortPermutes(udp, sorted);
    ByRankIsStableSort(udp);
    StableSortUnique(udp, sorted, ByRank(udp));
  }

  lemma {:induction false} FirstLowestIsFirstOfRank(s: seq<Endpoint>)
    requires s != []
    ensures FirstLowest(s).Some?
    ensures var e := FirstLowest(s).value;
            && (forall x :: x in s ==> EndpointRank(e) <= EndpointRank(x))
            && OfRank(s, EndpointRank(e)) != [] && OfRank(s, EndpointRank(e))[0] == e
  {
    var init, last := s[..|s| - 1], s[|s| - 1];
    assert s == init + [last];
    var e := FirstLowest(s).value;
    if init != [] {
      FirstLowestIsFirstOfRank(init);
      if EndpointRank(last) < EndpointRank(FirstLowest(init).value) {
        if OfRank(init, EndpointRank(last)) != [] {
          OfRankMember(init, EndpointRank(last), OfRank(init, EndpointRank(last))[0]);
        }
      }
    }
  }

  /** In a stable sort the head is the first of the lowest rank. */
  lemma StableSortHead(s: seq<Endpoint>, sorted: seq<Endpoint>)
    requires IsStableSort(s, sorted)
    ensures s == [] <==> sorted == []
    ensures s != [] ==> FirstLowest(s) == Some(sorted[0])
  {
    if s != [] {
      FirstLowestIsFirstOfRank(s);
      var e := FirstLowest(s).value;
      OfRankMember(sorted, EndpointRank(e), e);
      OfRankMember(s, EndpointRank(sorted[0]), sorted[0]);
      OfRankMember(sorted, EndpointRank(sorted[0]), sorted[0]);
      assert EndpointRank(sorted[0]) == EndpointRank(e);
      OfRankConcat([sorted[0]], sorted[1..], EndpointRank(e));
      assert sorted == [sorted[0]] + sorted[1..];
      OfRankSingle(sorted[0], EndpointRank(e));
    } else if sorted != [] {
      OfRankMember(sorted, EndpointRank(sorted[0]), sorted[0]);
    }
  }

  lemma {:induction false} DropHead(s: seq<Endpoint>, rank: nat)
    requires s != []
    ensures OfRank(s, rank) == OfRank([s[0]], rank) + OfRank(s[1..], rank)
  {
    OfRankConcat([s[0]], s[1..], rank);
    assert s == [s[0]] + s[1..];
  }

  lemma {:induction false} CountInRank(s: seq<Endpoint>, e: Endpoint)
    ensures multiset(s)[e] == multiset(OfRank(s, EndpointRank(e)))[e]
  {
    if s != [] {
      CountInRank(s[..|s| - 1], e);
      assert s == s[..|s| - 1] + [s[|s| - 1]];
    }
  }

  /** A stable sort is a permutation. */
  lemma StableSortPermutes(s: seq<Endpoint>, sorted: seq<Endpoint>)
    requires IsStableSort(s, sorted)
    ensures multiset(sorted) == multiset(s)
  {
    forall e: Endpoint ensures multiset(sorted)[e] == multiset(s)[e] {
      CountInRank(s, e);
      CountInRank(sorted, e);
    }
  }

  /** There is only one stable sort of a sequence. */
  lemma {:induction false} StableSortUnique(s: seq<Endpoint>, t: seq<Endpoint>, u: seq<Endpoint>)
    requires IsStableSort(s, t) && IsStableSort(s, u)
    ensures t == u
    decreases |t|
  {
    StableSortHead(s, t);
    StableSortHead(s, u);
    if t != [] {
      assert IsStableSort(t[1..], t[1..]);
      forall rank: nat ensures OfRank(u[1..], rank) == OfRank(t[1..], rank) {
        DropHead(t, rank);
        DropHead(u, rank);
        var n := |OfRank([t[0]], rank)|;
        assert OfRank(t, rank)[n..] == OfRank(t[1..], rank) && OfRank(u, rank)[n..] == OfRank(u[1..], rank);
      }
      StableSortUnique(t[1..], t[1..], u[1..]);
      assert t == [t[0]] + t[1..] && u == [u[0]] + u[1..];
    }
  }

  /** `select_udp_endpoint` picks the head of that sort, or nothing exactly when there is no UDP endpoint. */
  lemma SelectIsHeadOfSort(endpoints: seq<Endpoint>, sorted: seq<Endpoint>)
    requires IsStableSort(UdpOnly(endpoints), sorted)
    ensures SelectUdpEndpoint(endpoints) == (if sorted == [] then None else Some(sorted[0]))
    ensures SelectUdpEndpoint(endpoints).None? <==> forall e :: e in endpoints ==> !e.protocol.Udp?
    ensures SelectUdpEndpoint(endpoints).Some? ==> SelectUdpEndpoint(endpoints).value in UdpOnly(endpoints)
  {
    StableSortHead(UdpOnly(endpoints), sorted);
    if UdpOnly(endpoints) != [] {
      assert UdpOnly(endpoints)[0] in UdpOnly(endpoints);
      FirstLowestIsFirstOfRank(UdpOnly(endpoints));
      var e := SelectUdpEndpoint(endpoints).value;
      OfRankMember(UdpOnly(endpoints), EndpointRank(e), e);
    }
  }

  // ---------------------------------------------------------------- the documented preference

  /** The endpoints of one kind, in their order of appearance. */
  function OfKind(s: seq<Endpoint>, kind: EndpointKind): (r: seq<Endpoint>)
    ensures forall e :: e in r <==> e in s && e.kind == kind
  {
    if s == [] then []
    else
      var rest, last := OfKind(s[..|s| - 1], kind), s[|s| - 1];
      assert s == s[..|s| - 1] + [last];
      if last.kind == kind then rest + [last] else rest
  }

  /** What the documentation says is preferred: the first LAN endpoint, else the first public one, else
      the first IPv6 one, else the relay. */
  function DocumentedChoice(endpoints: seq<Endpoint>): (r: Option<Endpoint>)
  {
    var udp := UdpOnly(endpoints);
    if OfKind(udp, Lan) != [] then Some(OfKind(udp, Lan)[0])
    else if OfKind(udp, Public) != [] then Some(OfKind(udp, Public)[0])
    else if OfKind(udp, Ipv6) != [] then Some(OfKind(udp, Ipv6)[0])
    else if OfKind(udp, EndpointKind.Relay) != [] then Some(OfKind(udp, EndpointKind.Relay)[0])
    else None
  }

  /** Where LAN endpoints are offered, the first is in a private range, or none is and nothing but a
      relay competes; where none is offered, public and IPv6 endpoints are not both. */
  predicate PreferenceIsUndisputed(udp: seq<Endpoint>)
  {
    var lan := OfKind(udp, Lan);
    if lan != [] then
      || IsPrivateLan(lan[0].address)
      || ((forall e :: e in lan ==> !IsPrivateLan(e.address)) && OfKind(udp, Public) == [] && OfKind(udp, Ipv6) == [])
    else OfKind(udp, Public) == [] || OfKind(udp, Ipv6) == []
  }

  /** Ranks and kinds correspond, except that LAN endpoints are of rank 0 or 3. */
  lemma {:induction false} RanksOfKinds(s: seq<Endpoint>)
    ensures OfRank(s, 1) == OfKind(s, Ipv6) && OfRank(s, 2) == OfKind(s, Public)
    ensures OfRank(s, 4) == OfKind(s, EndpointKind.Relay)
    ensures OfKind(s, Lan) == [] ==> OfRank(s, 0) == []
    ensures OfRank(s, 0) == [] ==> OfRank(s, 3) == OfKind(s, Lan)
    ensures OfKind(s, Lan) != [] && IsPrivateLan(OfKind(s, Lan)[0].address) ==>
              OfRank(s, 0) != [] && OfRank(s, 0)[0] == OfKind(s, Lan)[0]
  {
    if s != [] {
      RanksOfKinds(s[..|s| - 1]);
    }
  }

  /** The choice of the code is the first endpoint of the lowest rank there is. */
  lemma SelectByRank(endpoints: seq<Endpoint>)
    ensures var udp, r := UdpOnly(endpoints), SelectUdpEndpoint(endpoints);
            if OfRank(udp, 0) != [] then r == Some(OfRank(udp, 0)[0])
            else if OfRank(udp, 1) != [] then r == Some(OfRank(udp, 1)[0])
            else if OfRank(udp, 2) != [] then r == Some(OfRank(udp, 2)[0])
            else if OfRank(udp, 3) != [] then r == Some(OfRank(udp, 3)[0])
            else if OfRank(udp, 4) != [] then r == Some(OfRank(udp, 4)[0])
            else r == None
  {
    var udp := UdpOnly(endpoints);
    forall rank: nat | OfRank(udp, rank) != []
      ensures OfRank(udp, rank)[0] in udp && EndpointRank(OfRank(udp, rank)[0]) == rank
    {
      OfRankMember(udp, rank, OfRank(udp, rank)[0]);
    }
    if udp != [] {
      FirstLowestIsFirstOfRank(udp);
    }
    hide OfRank;
  }

  /** The choice of the code is the documented one if and only if the preference is undisputed. */
  lemma ChoiceIsDocumentedExactlyWhen(endpoints: seq<Endpoint>)
    ensures SelectUdpEndpoint(endpoints) == DocumentedChoice(endpoints) <==> PreferenceIsUndisputed(UdpOnly(endpoints))
  {
    var udp := UdpOnly(endpoints);
    SelectByRank(endpoints);
    RanksOfKinds(udp);
    if OfRank(udp, 0) != [] {
      OfRankMember(udp, 0, OfRank(udp, 0)[0]);
      assert OfRank(udp, 0)[0] in OfKind(udp, Lan);
    }
    forall e | e in OfKind(udp, Lan) && IsPrivateLan(e.address) ensures OfRank(udp, 0) != [] {
      OfRankMember(udp, 0, e);
    }
    hide OfRank, SelectUdpEndpoint, UdpOnly;
  }

  /** The two ways to differ: IPv6 goes before public, and a LAN endpoint outside the private ranges
      goes after both. */
  lemma ChoiceIsNotAlwaysDocumented(a: IpAddr, b: IpAddr, port: u16)
    ensures var public, v6 := Endpoint(Public, a, port, Udp), Endpoint(Ipv6, b, port, Udp);
            SelectUdpEndpoint([public, v6]) == Some(v6) && DocumentedChoice([public, v6]) == Some(public)
    ensures var lan, public := Endpoint(Lan, V4(8, 8, 8, 8), port, Udp), Endpoint(Public, a, port, Udp);
            SelectUdpEndpoint([lan, public]) == Some(public) && DocumentedChoice([lan, public]) == Some(lan)
  {
    var public, v6 := Endpoint(Public, a, port, Udp), Endpoint(Ipv6, b, port, Udp);
    var lan := Endpoint(Lan, V4(8, 8, 8, 8), port, Udp);
    TwoEndpoints(public, v6);
    TwoEndpoints(lan, public);
  }

  lemma TwoEndpoints(x: Endpoint, y: Endpoint)
    requires x.protocol.Udp? && y.protocol.Udp?
    ensures UdpOnly([x, y]) == [x, y]
    ensures FirstLowest([x, y]) == Some(if EndpointRank(y) < EndpointRank(x) then y else x)
    ensures forall kind ::
              OfKind([x, y], kind)
              == (if x.kind == kind then [x] else []) + (if y.kind == kind then [y] else [])
  {
    assert [x, y][..1] == [x] && [x][..0] == [];
    assert UdpOnly([x]) == [x] && FirstLowest([x]) == Some(x);
    assert forall kind :: OfKind([x], kind) == if x.kind == kind then [x] else [];
  }
}
