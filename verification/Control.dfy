/** The control plane's tables: devices, address allocations and DNS records of the one network, with
    the unique constraints of the schema, and the transactions that change them. */
module Control {
  import opened Prelude
  import opened Decimal
  import opened Names

  datatype Device = Device(hostname: string, machineKey: string, credential: Bytes, ipv4: string, deleted: bool)

  datatype Allocation = Allocation(device: DeviceId, ip: string)

  datatype Record = Record(name: string, value: string)

  /** `dns` is keyed by device: all records are of type A, and (device, type) is unique. */
  datatype Db = Db(devices: map<DeviceId, Device>, allocations: seq<Allocation>, dns: map<DeviceId, Record>)

  const EMPTY_DB := Db(map[], [], map[])

  datatype ApiError = BadRequest | Unauthorized | NotFound | Conflict | PoolExhausted | ConstraintViolated

  predicate Live(db: Db, id: DeviceId)
  {
    id in db.devices && !db.devices[id].deleted
  }

  function Address(octet: nat): (ip: string)
  {
    "100.64.0." + Digits(octet)
  }

  lemma AddressInjective(a: nat, b: nat)
    requires Address(a) == Address(b)
    ensures a == b
  {
    assert Address(a)[9..] == Digits(a) && Address(b)[9..] == Digits(b);
    DigitsInjective(a, b);
  }

  // ---------------------------------------------------------------- name search

  predicate NameAvailable(dns: map<DeviceId, Record>, id: DeviceId, name: string)
  {
    forall d :: d in dns && d != id ==> Lower(dns[d].name) != Lower(name)
  }

  /** The first available candidate from the k-th on. */
  function FirstAvailable(dns: map<DeviceId, Record>, id: DeviceId, hostname: string, k: nat): (name: Option<string>)
    requires k <= CANDIDATES
    decreases CANDIDATES - k
  {
    if k == CANDIDATES then None
    else if NameAvailable(dns, id, Candidate(hostname, id, k)) then Some(Candidate(hostname, id, k))
    else FirstAvailable(dns, id, hostname, k + 1)
  }

  /** `available_dns_name` as it runs. */
  method AvailableDnsName(dns: map<DeviceId, Record>, id: DeviceId, hostname: string)
    returns (r: Result<string, ApiError>)
    ensures r == (match FirstAvailable(dns, id, hostname, 0) case Some(name) => Ok(name) case None => Err(Conflict))
  {
    var base := DnsName(hostname);
    if NameAvailable(dns, id, base) {
      return Ok(base);
    }
    var suffix := DeviceDnsSuffix(id);
    var suffixed := DnsName(hostname + "-" + suffix);
    if NameAvailable(dns, id, suffixed) {
      return Ok(suffixed);
    }
    for attempt := 2 to CANDIDATES
      invariant FirstAvailable(dns, id, hostname, attempt) == FirstAvailable(dns, id, hostname, 0)
    {
      var candidate := DnsName(hostname + "-" + suffix + "-" + Digits(attempt));
      if NameAvailable(dns, id, candidate) {
        return Ok(candidate);
      }
    }
    r := Err(Conflict);
  }

  /** A name that is found is a candidate and no other device holds it in any case. */
  lemma {:induction false} FoundNameIsFree(dns: map<DeviceId, Record>, id: DeviceId, hostname: string, k: nat)
    requires k <= CANDIDATES && FirstAvailable(dns, id, hostname, k).Some?
    ensures var name := FirstAvailable(dns, id, hostname, k).value;
            NameAvailable(dns, id, name) && InMesh(name)
    decreases CANDIDATES - k
  {
    if NameAvailable(dns, id, Candidate(hostname, id, k)) {
      CandidateInMesh(hostname, id, k);
    } else {
      FoundNameIsFree(dns, id, hostname, k + 1);
    }
  }

  /** The devices that hold the first n candidates, one each. */
  lemma {:induction false} Holders(dns: map<DeviceId, Record>, id: DeviceId, hostname: string, n: nat)
    returns (holders: set<DeviceId>)
    requires forall k :: 0 <= k < n ==> !NameAvailable(dns, id, Candidate(hostname, id, k))
    ensures holders <= dns.Keys - {id} && |holders| == n
    ensures forall d :: d in holders ==>
              exists k :: 0 <= k < n && Lower(dns[d].name) == Lower(Candidate(hostname, id, k))
  {
    hide Lower, Candidate;
    if n == 0 {
      holders := {};
    } else {
      var rest := Holders(dns, id, hostname, n - 1);
      assert !NameAvailable(dns, id, Candidate(hostname, id, n - 1));
      var d :| d in dns && d != id && Lower(dns[d].name) == Lower(Candidate(hostname, id, n - 1));
      if d in rest {
        var k :| 0 <= k < n - 1 && Lower(dns[d].name) == Lower(Candidate(hostname, id, k));
        CandidatesDistinct(hostname, id, k, n - 1);
      }
      holders := rest + {d};
    }
  }

  lemma {:induction false} NoneAvailable(dns: map<DeviceId, Record>, id: DeviceId, hostname: string, k: nat)
    requires k <= CANDIDATES && FirstAvailable(dns, id, hostname, k).None?
    ensures forall j :: k <= j < CANDIDATES ==> !NameAvailable(dns, id, Candidate(hostname, id, j))
    decreases CANDIDATES - k
  {
    hide NameAvailable, Candidate;
    if k < CANDIDATES {
      NoneAvailable(dns, id, hostname, k + 1);
    }
  }

  /** The first free candidate wins. */
  lemma {:induction false} FirstFreeWins(dns: map<DeviceId, Record>, id: DeviceId, hostname: string, from: nat, k: nat)
    requires from <= k < 100 && NameAvailable(dns, id, Candidate(hostname, id, k))
    requires forall j :: from <= j < k ==> !NameAvailable(dns, id, Candidate(hostname, id, j))
    ensures FirstAvailable(dns, id, hostname, from) == Some(Candidate(hostname, id, k))
    decreases k - from
  {
    hide NameAvailable, Candidate;
    if from < k {
      FirstFreeWins(dns, id, hostname, from + 1, k);
    }
  }

  /** A name is free exactly if no other device's record is spelled the same up to case. */
  lemma FreeExactlyWhen(dns: map<DeviceId, Record>, id: DeviceId, name: string)
    ensures NameAvailable(dns, id, name) <==>
            forall d :: d in dns && d != id ==>
              !(|dns[d].name| == |name| && forall i :: 0 <= i < |name| ==> SameLetter(dns[d].name[i], name[i]))
  {
    forall d | d in dns
      ensures Lower(dns[d].name) == Lower(name) <==>
              |dns[d].name| == |name| && forall i :: 0 <= i < |name| ==> SameLetter(dns[d].name[i], name[i])
    {
      FoldsCase(dns[d].name, name);
    }
    hide Lower;
  }

  /** A host name whose plain name is free becomes exactly that name. */
  lemma FreeHostnameBecomesName(dns: map<DeviceId, Record>, id: DeviceId, hostname: string)
    requires NameAvailable(dns, id, hostname + ".mesh")
    ensures FirstAvailable(dns, id, hostname, 0) == Some(hostname + ".mesh")
  {
    hide NameAvailable;
    assert Candidate(hostname, id, 0) == hostname + ".mesh";
    FirstFreeWins(dns, id, hostname, 0, 0);
  }

  /** Pigeonhole: the search fails only when at least 100 other devices hold A records. */
  lemma ConflictNeedsHundredDevices(dns: map<DeviceId, Record>, id: DeviceId, hostname: string)
    requires FirstAvailable(dns, id, hostname, 0).None?
    ensures |dns.Keys - {id}| >= CANDIDATES
  {
    NoneAvailable(dns, id, hostname, 0);
    var holders := Holders(dns, id, hostname, CANDIDATES);
    SubsetSize(holders, dns.Keys - {id});
  }

  lemma {:induction false} SubsetSize<T>(a: set<T>, b: set<T>)
    requires a <= b
    ensures |a| <= |b|
  {
    if a != {} {
      var x :| x in a;
      SubsetSize(a - {x}, b - {x});
    }
  }

  // ---------------------------------------------------------------- transactions

  /** `find_existing_device` finds something. */
  predicate Registered(db: Db, machineKey: string)
  {
    exists d :: d in db.devices && !db.devices[d].deleted && db.devices[d].machineKey == machineKey
  }

  function UpsertDnsRecord(db: Db, id: DeviceId, hostname: string, ipv4: string): (r: Result<Db, ApiError>)
  {
    match FirstAvailable(db.dns, id, hostname, 0)
    case None => Err(Conflict)
    case Some(name) => Ok(db.(dns := db.dns[id := Record(name, ipv4)]))
  }

  /** The registration transaction: all of it or nothing. `ipv4` was computed before it began. */
  function RegisterTx(db: Db, id: DeviceId, hostname: string, machineKey: string, credential: Bytes, ipv4: string)
    : (r: Result<Db, ApiError>)
  {
    if id in db.devices then Err(ConstraintViolated)
    else if exists d :: d in db.devices && db.devices[d].machineKey == machineKey then Err(ConstraintViolated)
    else if exists d :: d in db.devices && db.devices[d].ipv4 == ipv4 then Err(ConstraintViolated)
    else
      var inserted := db.(devices := db.devices[id := Device(hostname, machineKey, credential, ipv4, false)]);
      match UpsertDnsRecord(inserted, id, hostname, ipv4)
      case Err(e) => Err(e)
      case Ok(named) =>
        if exists a :: a in named.allocations && a.ip == ipv4 then Err(ConstraintViolated)
        else Ok(named.(allocations := named.allocations + [Allocation(id, ipv4)]))
  }

  function RenameTx(db: Db, id: DeviceId, rawHostname: string): (r: Result<Db, ApiError>)
  {
    match NormalizeHostname(rawHostname)
    case None => Err(BadRequest)
    case Some(hostname) =>
      if !Live(db, id) then Err(NotFound)
      else
        var renamed := db.(devices := db.devices[id := db.devices[id].(hostname := hostname)]);
        UpsertDnsRecord(renamed, id, hostname, db.devices[id].ipv4)
  }

  function DeleteTx(db: Db, id: DeviceId): (r: Result<Db, ApiError>)
  {
    if !Live(db, id) then Err(NotFound)
    else Ok(db.(devices := db.devices[id := db.devices[id].(deleted := true)], dns := db.dns - {id}))
  }

  /** `allocate_ipv4`: a plain read, outside the transaction that will use its result. */
  function AllocateIpv4(db: Db): (octet: Result<nat, ApiError>)
  {
    var octet := |db.allocations| + 2;
    if octet > 254 then Err(PoolExhausted) else Ok(octet)
  }

  // ---------------------------------------------------------------- invariant

  /** The i-th allocation is address i + 2, and it is the address of the device it names. */
  ghost predicate AllocationsOk(db: Db)
  {
    && |db.allocations| <= 253
    && (forall i :: 0 <= i < |db.allocations| ==>
          && db.allocations[i].ip == Address(i + 2)
          && db.allocations[i].device in db.devices
          && db.devices[db.allocations[i].device].ipv4 == db.allocations[i].ip)
    && (forall d :: d in db.devices ==> exists i :: 0 <= i < |db.allocations| && db.allocations[i].device == d)
  }

  /** Live devices and A records correspond, with equal addresses; case-folded names are distinct. */
  ghost predicate RecordsOk(db: Db)
  {
    && (forall d: DeviceId :: d in db.dns <==> Live(db, d))
    && (forall d :: d in db.dns ==> db.dns[d].value == db.devices[d].ipv4 && InMesh(db.dns[d].name))
    && (forall d, e :: d in db.dns && e in db.dns && d != e ==> Lower(db.dns[d].name) != Lower(db.dns[e].name))
  }

  /** Machine keys are unique over all devices ever registered. */
  ghost predicate KeysOk(db: Db)
  {
    forall d, e :: d in db.devices && e in db.devices && d != e ==> db.devices[d].machineKey != db.devices[e].machineKey
  }

  ghost predicate DbOk(db: Db)
  {
    AllocationsOk(db) && RecordsOk(db) && KeysOk(db)
  }

  lemma DbOkParts(db: Db)
    requires DbOk(db)
    ensures AllocationsOk(db) && RecordsOk(db) && KeysOk(db)
  {
  }

  lemma DeviceAddresses(db: Db, d: DeviceId, e: DeviceId)
    requires AllocationsOk(db) && d in db.devices && e in db.devices && d != e
    ensures db.devices[d].ipv4 != db.devices[e].ipv4
  {
    var i :| 0 <= i < |db.allocations| && db.allocations[i].device == d;
    var j :| 0 <= j < |db.allocations| && db.allocations[j].device == e;
    if db.devices[d].ipv4 == db.devices[e].ipv4 {
      AddressInjective(i + 2, j + 2);
    }
  }

  /** The rows of the device table are never removed and never change their address, machine key or
      credential. */
  ghost predicate Extends(db: Db, db': Db)
  {
    && |db.allocations| <= |db'.allocations|
    && forall d :: d in db.devices ==>
         && d in db'.devices && db'.devices[d].ipv4 == db.devices[d].ipv4
         && db'.devices[d].machineKey == db.devices[d].machineKey
         && db'.devices[d].credential == db.devices[d].credential
         && (db.devices[d].deleted ==> db'.devices[d].deleted)
  }

  lemma UpsertRecordsOk(db: Db, base: Db, id: DeviceId, hostname: string, ipv4: string)
    requires UpsertDnsRecord(base, id, hostname, ipv4).Ok? && RecordsOk(db)
    requires base.dns == db.dns && Live(base, id) && base.devices[id].ipv4 == ipv4
    requires forall d: DeviceId :: d != id ==> (d in base.devices <==> d in db.devices)
    requires forall d :: d != id && d in base.devices ==> base.devices[d] == db.devices[d]
    ensures RecordsOk(UpsertDnsRecord(base, id, hostname, ipv4).value)
  {
    FoundNameIsFree(base.dns, id, hostname, 0);
    var name := FirstAvailable(base.dns, id, hostname, 0).value;
    var db' := UpsertDnsRecord(base, id, hostname, ipv4).value;
    forall d: DeviceId ensures d in db'.dns <==> Live(db', d) {
      assert d == id || (d in db.dns <==> Live(db, d));
    }
    forall d | d in db'.dns && d != id ensures Lower(db'.dns[d].name) != Lower(name) {
      assert d in base.dns;
    }
  }

  /** A registration that read a stale count cannot commit: its address is taken. */
  lemma StaleReadFails(db: Db, id: DeviceId, hostname: string, machineKey: string, credential: Bytes, octet: nat)
    requires AllocationsOk(db) && 2 <= octet < |db.allocations| + 2
    ensures RegisterTx(db, id, hostname, machineKey, credential, Address(octet)) == Err(ConstraintViolated)
  {
    var d := db.allocations[octet - 2].device;
    assert d in db.devices && db.devices[d].ipv4 == Address(octet);
  }

  /** Given the count as it now is, registration succeeds exactly when the device id and the machine key
      are new and a name is found. */
  lemma CurrentReadCommitsExactlyWhen(db: Db, id: DeviceId, hostname: string, machineKey: string, credential: Bytes)
    requires AllocationsOk(db)
    ensures RegisterTx(db, id, hostname, machineKey, credential, Address(|db.allocations| + 2)).Ok? <==>
            && id !in db.devices
            && (forall d :: d in db.devices ==> db.devices[d].machineKey != machineKey)
            && FirstAvailable(db.dns, id, hostname, 0).Some?
  {
    hide FirstAvailable, AllocationsOk, Address;
    NextAddressIsFree(db);
  }

  /** The address of the next allocation is held by no device and no allocation. */
  lemma NextAddressIsFree(db: Db)
    requires AllocationsOk(db)
    ensures forall d :: d in db.devices ==> db.devices[d].ipv4 != Address(|db.allocations| + 2)
    ensures forall a :: a in db.allocations ==> a.ip != Address(|db.allocations| + 2)
  {
    hide Address;
    var next := |db.allocations| + 2;
    forall d | d in db.devices ensures db.devices[d].ipv4 != Address(next) {
      var i :| 0 <= i < |db.allocations| && db.allocations[i].device == d;
      if Address(i + 2) == Address(next) {
        AddressInjective(i + 2, next);
      }
    }
    forall a | a in db.allocations ensures a.ip != Address(next) {
      var i :| 0 <= i < |db.allocations| && db.allocations[i] == a;
      assert db.devices[db.allocations[i].device].ipv4 == a.ip;
    }
  }

  lemma RegisterOk(db: Db, id: DeviceId, hostname: string, machineKey: string, credential: Bytes, octet: nat)
    requires DbOk(db) && 2 <= octet <= 254 && octet <= |db.allocations| + 2
    requires RegisterTx(db, id, hostname, machineKey, credential, Address(octet)).Ok?
    ensures var db' := RegisterTx(db, id, hostname, machineKey, credential, Address(octet)).value;
            && octet == |db.allocations| + 2 && |db'.allocations| == |db.allocations| + 1
            && DbOk(db') && Extends(db, db')
            && db'.devices == db.devices[id := Device(hostname, machineKey, credential, Address(octet), false)]
            && id !in db.devices && FirstAvailable(db.dns, id, hostname, 0).Some?
            && db'.dns == db.dns[id := Record(FirstAvailable(db.dns, id, hostname, 0).value, Address(octet))]
            && db'.allocations == db.allocations + [Allocation(id, Address(octet))]
  {
    hide FirstAvailable, AllocationsOk, RecordsOk, Address;
    if octet < |db.allocations| + 2 {
      StaleReadFails(db, id, hostname, machineKey, credential, octet);
    }
    var base := db.(devices := db.devices[id := Device(hostname, machineKey, credential, Address(octet), false)]);
    var db' := RegisterTx(db, id, hostname, machineKey, credential, Address(octet)).value;
    UpsertRecordsOk(db, base, id, hostname, Address(octet));
    SameRecords(UpsertDnsRecord(base, id, hostname, Address(octet)).value, db');
    AllocationsBound(db);
    AppendAllocation(db, db', id, octet);
  }

  lemma SameRecords(db: Db, db': Db)
    requires RecordsOk(db) && db'.devices == db.devices && db'.dns == db.dns
    ensures RecordsOk(db')
  {
    forall d: DeviceId ensures d in db'.dns <==> Live(db', d) {
      assert d in db.dns <==> Live(db, d);
    }
  }

  lemma AllocationsBound(db: Db)
    requires AllocationsOk(db)
    ensures |db.allocations| <= 253
  {
  }

  lemma AppendAllocation(db: Db, db': Db, id: DeviceId, octet: nat)
    requires AllocationsOk(db) && id !in db.devices && octet == |db.allocations| + 2 <= 254
    requires db'.devices.Keys == db.devices.Keys + {id} && db'.devices[id].ipv4 == Address(octet)
    requires forall d :: d in db.devices ==> db'.devices[d] == db.devices[d]
    requires db'.allocations == db.allocations + [Allocation(id, Address(octet))]
    ensures AllocationsOk(db')
  {
    hide Address;
    forall i | 0 <= i < |db'.allocations|
      ensures db'.allocations[i].ip == Address(i + 2) && db'.allocations[i].device in db'.devices
      ensures db'.devices[db'.allocations[i].device].ipv4 == db'.allocations[i].ip
    {
      if i < |db.allocations| {
        assert db'.allocations[i] == db.allocations[i];
      }
    }
    forall d | d in db'.devices ensures exists i :: 0 <= i < |db'.allocations| && db'.allocations[i].device == d {
      if d == id {
        assert db'.allocations[|db.allocations|].device == d;
      } else {
        var i :| 0 <= i < |db.allocations| && db.allocations[i].device == d;
        assert db'.allocations[i].device == d;
      }
    }
  }

  lemma SameAllocations(db: Db, db': Db)
    requires AllocationsOk(db) && db'.allocations == db.allocations && db'.devices.Keys == db.devices.Keys
    requires forall d :: d in db.devices ==> db'.devices[d].ipv4 == db.devices[d].ipv4
    ensures AllocationsOk(db')
  {
  }

  lemma SameKeys(db: Db, db': Db)
    requires KeysOk(db) && db'.devices.Keys == db.devices.Keys
    requires forall d :: d in db.devices ==> db'.devices[d].machineKey == db.devices[d].machineKey
    ensures KeysOk(db')
  {
  }

  lemma RenameOk(db: Db, id: DeviceId, rawHostname: string)
    requires DbOk(db) && RenameTx(db, id, rawHostname).Ok?
    ensures var db' := RenameTx(db, id, rawHostname).value;
            && DbOk(db') && Extends(db, db') && db'.allocations == db.allocations
  {
    hide FirstAvailable, AllocationsOk, RecordsOk, NormalizeHostname, KeysOk;
    SameKeys(db, RenameTx(db, id, rawHostname).value);
    var hostname := NormalizeHostname(rawHostname).value;
    var base := db.(devices := db.devices[id := db.devices[id].(hostname := hostname)]);
    UpsertRecordsOk(db, base, id, hostname, db.devices[id].ipv4);
    SameAllocations(db, RenameTx(db, id, rawHostname).value);
  }

  /** Renaming succeeds exactly for a valid host name, a live device and when a name is found; the first of
      these that fails is reported. The row then has the lower-case host name and the record the name found
      for it, and nothing else has changed. */
  lemma RenameExactlyWhen(db: Db, id: DeviceId, rawHostname: string)
    ensures var r, hostname := RenameTx(db, id, rawHostname), NormalizeHostname(rawHostname);
            && (hostname.None? <==> r == Err(BadRequest))
            && (hostname.Some? && !(id in db.devices && !db.devices[id].deleted) <==> r == Err(NotFound))
            && (hostname.Some? && Live(db, id) ==>
                  && (r.Ok? <==> FirstAvailable(db.dns, id, hostname.value, 0).Some?)
                  && (r.Err? ==> r.error == Conflict)
                  && (r.Ok? ==>
                        && id in r.value.devices && id in r.value.dns
                        && r.value.devices[id] == db.devices[id].(hostname := hostname.value)
                        && Some(r.value.dns[id].name) == FirstAvailable(db.dns, id, hostname.value, 0)
                        && r.value.dns[id].value == db.devices[id].ipv4
                        && r.value.devices - {id} == db.devices - {id} && r.value.dns - {id} == db.dns - {id}))
  {
    hide FirstAvailable, NormalizeHostname;
  }

  /** Deleting succeeds exactly for a live device. It is then neither live nor in the records, and nothing else
      has changed. */
  lemma DeleteExactlyWhen(db: Db, id: DeviceId)
    ensures var r := DeleteTx(db, id);
            && (r.Ok? <==> id in db.devices && !db.devices[id].deleted)
            && (r.Err? ==> r.error == NotFound)
            && (r.Ok? ==>
                  && id in r.value.devices && r.value.devices[id] == db.devices[id].(deleted := true)
                  && id !in r.value.dns && r.value.dns - {id} == db.dns - {id}
                  && r.value.devices - {id} == db.devices - {id} && r.value.allocations == db.allocations)
  {
  }

  lemma DeleteRecordsOk(db: Db, id: DeviceId)
    requires RecordsOk(db) && DeleteTx(db, id).Ok?
    ensures RecordsOk(DeleteTx(db, id).value)
  {
    hide Lower, InMesh;
    var db' := DeleteTx(db, id).value;
    forall d: DeviceId ensures d in db'.dns <==> Live(db', d) {
      assert d in db.dns <==> Live(db, d);
    }
  }

  lemma DeleteOk(db: Db, id: DeviceId)
    requires DbOk(db) && DeleteTx(db, id).Ok?
    ensures var db' := DeleteTx(db, id).value;
            DbOk(db') && Extends(db, db') && db'.allocations == db.allocations
  {
    hide AllocationsOk, RecordsOk, KeysOk;
    SameKeys(db, DeleteTx(db, id).value);
    SameAllocations(db, DeleteTx(db, id).value);
    DeleteRecordsOk(db, id);
  }

  /** The host name is valid, an address and a name are left, and the id and the machine key are new. */
  ghost predicate CanRegister(db: Db, id: DeviceId, rawHostname: string, machineKey: string)
  {
    && NormalizeHostname(rawHostname).Some? && |db.allocations| < 253 && id !in db.devices
    && (forall d :: d in db.devices ==> db.devices[d].machineKey != machineKey)
    && FirstAvailable(db.dns, id, NormalizeHostname(rawHostname).value, 0).Some?
  }

  // ---------------------------------------------------------------- the tables as an object

  /** The database. A transaction works on a copy of the tables and installs it only when it commits. */
  class ControlPlane {
    var devices: map<DeviceId, Device>
    var allocations: seq<Allocation>
    var dns: map<DeviceId, Record>

    function Value(): (db: Db)
      reads this
    {
      Db(devices, allocations, dns)
    }

    /** What every method keeps: the invariant of the tables. */
    ghost predicate Valid()
      reads this
    {
      DbOk(Value())
    }

    constructor ()
      ensures Valid() && Value() == EMPTY_DB
    {
      devices, allocations, dns := map[], [], map[];
    }

    method FindExisting(machineKey: string) returns (found: Option<DeviceId>)
      requires Valid()
      ensures found.Some? <==> Registered(Value(), machineKey)
      ensures found.Some? ==> Live(Value(), found.value) && devices[found.value].machineKey == machineKey
      ensures forall d :: Live(Value(), d) && devices[d].machineKey == machineKey ==> found == Some(d)
    {
      if d :| d in devices && !devices[d].deleted && devices[d].machineKey == machineKey {
        return Some(d);
      }
      return None;
    }

    method AllocateOctet() returns (r: Result<nat, ApiError>)
      ensures r == AllocateIpv4(Value())
      ensures r.Ok? ==> 2 <= r.value == |allocations| + 2 <= 254
    {
      var octet := |allocations| + 2;
      if octet > 254 {
        return Err(PoolExhausted);
      }
      r := Ok(octet);
    }

    /** `octet` was allocated earlier, so it is at most the next one now. */
    method CommitRegistration(id: DeviceId, hostname: string, machineKey: string, credential: Bytes, octet: nat)
      returns (r: Result<(), ApiError>)
      requires Valid() && 2 <= octet <= 254 && octet <= |allocations| + 2
      modifies this
      ensures Valid()
      ensures r.Ok? ==> RegisterTx(old(Value()), id, hostname, machineKey, credential, Address(octet)) == Ok(Value())
      ensures r.Ok? ==> octet == |old(allocations)| + 2
      ensures r.Err? ==> Value() == old(Value())
                         && RegisterTx(old(Value()), id, hostname, machineKey, credential, Address(octet))
                            == Err(r.error)
    {
      hide FirstAvailable, DbOk, Address;
      var ipv4 := Address(octet);
      if RegisterTx(Value(), id, hostname, machineKey, credential, ipv4).Ok? {
        RegisterOk(Value(), id, hostname, machineKey, credential, octet);
      }
      if id in devices
         || (exists d :: d in devices && devices[d].machineKey == machineKey)
         || (exists d :: d in devices && devices[d].ipv4 == ipv4) {
        return Err(ConstraintViolated);
      }
      var devices' := devices[id := Device(hostname, machineKey, credential, ipv4, false)];
      var name := AvailableDnsName(dns, id, hostname);
      if name.Err? {
        return Err(name.error);
      }
      var dns' := dns[id := Record(name.value, ipv4)];
      if exists a :: a in allocations && a.ip == ipv4 {
        return Err(ConstraintViolated);
      }
      devices, dns, allocations := devices', dns', allocations + [Allocation(id, ipv4)];
      r := Ok(());
    }

    /** `register_device` when nothing comes between its steps: a machine that is registered gets the
        device it has; otherwise it gets the next address, or the first thing that is wrong. */
    method Register(id: DeviceId, rawHostname: string, machineKey: string, credential: Bytes, authorized: bool)
      returns (r: Result<DeviceId, ApiError>)
      requires Valid()
      modifies this
      ensures Valid()
      ensures r.Err? || Registered(old(Value()), machineKey) ==> Value() == old(Value())
      ensures r.Ok? ==> Live(Value(), r.value) && devices[r.value].machineKey == machineKey
      ensures Registered(old(Value()), machineKey) ==> r.Ok?
      ensures !Registered(old(Value()), machineKey) ==>
                (r.Ok? <==> authorized && CanRegister(old(Value()), id, rawHostname, machineKey))
      ensures r.Ok? && !Registered(old(Value()), machineKey) ==>
                && r.value == id && devices[id].ipv4 == Address(|old(allocations)| + 2)
                && devices[id].credential == credential && Some(devices[id].hostname) == NormalizeHostname(rawHostname)
    {
      hide DbOk, Address, FirstAvailable, NormalizeHostname;
      var existing := FindExisting(machineKey);
      if existing.Some? {
        return Ok(existing.value);
      }
      if !authorized {
        return Err(Unauthorized);
      }
      var hostname := NormalizeHostname(rawHostname);
      if hostname.None? {
        return Err(BadRequest);
      }
      var octet := AllocateOctet();
      if octet.Err? {
        return Err(octet.error);
      }
      assert AllocationsOk(Value()) by { DbOkParts(Value()); }
      hide AllocationsOk;
      CurrentReadCommitsExactlyWhen(Value(), id, hostname.value, machineKey, credential);
      var committed := CommitRegistration(id, hostname.value, machineKey, credential, octet.value);
      if committed.Err? {
        return Err(committed.error);
      }
      r := Ok(id);
    }

    method Rename(id: DeviceId, rawHostname: string) returns (r: Result<(), ApiError>)
      requires Valid()
      modifies this`devices, this`dns
      ensures Valid()
      ensures r.Ok? ==> RenameTx(old(Value()), id, rawHostname) == Ok(Value())
      ensures r.Err? ==> Value() == old(Value()) && RenameTx(old(Value()), id, rawHostname) == Err(r.error)
      ensures r.Ok? ==> Live(Value(), id) && Some(devices[id].hostname) == NormalizeHostname(rawHostname)
      ensures forall d :: d in old(devices) && d != id ==> d in devices && devices[d] == old(devices)[d]
    {
      hide FirstAvailable, DbOk;
      if RenameTx(Value(), id, rawHostname).Ok? {
        RenameOk(Value(), id, rawHostname);
      }
      var hostname := NormalizeHostname(rawHostname);
      if hostname.None? {
        return Err(BadRequest);
      }
      if id !in devices || devices[id].deleted {
        return Err(NotFound);
      }
      var name := AvailableDnsName(dns, id, hostname.value);
      if name.Err? {
        return Err(name.error);
      }
      dns := dns[id := Record(name.value, devices[id].ipv4)];
      devices := devices[id := devices[id].(hostname := hostname.value)];
      r := Ok(());
    }

    method Delete(id: DeviceId) returns (r: Result<(), ApiError>)
      requires Valid()
      modifies this`devices, this`dns
      ensures Valid()
      ensures r.Ok? ==> DeleteTx(old(Value()), id) == Ok(Value())
      ensures r.Err? ==> Value() == old(Value()) && DeleteTx(old(Value()), id) == Err(r.error)
      ensures r.Ok? <==> Live(old(Value()), id)
      ensures r.Ok? ==> !Live(Value(), id) && id !in dns && dns == old(dns) - {id}
      ensures forall d :: d in old(devices) && d != id ==> d in devices && devices[d] == old(devices)[d]
    {
      hide DbOk;
      if id !in devices || devices[id].deleted {
        return Err(NotFound);
      }
      DeleteOk(Value(), id);
      devices := devices[id := devices[id].(deleted := true)];
      dns := dns - {id};
      r := Ok(());
    }
  }
}
