/** Concurrent use of the control plane. A registration is three database steps that others may come
    between: the look-up of its machine key, the read of the allocation count, and the transaction.
    Rename and delete are one transaction each. */
module ControlRuns {
  import opened Prelude
  import opened Names
  import opened Control

  /** A registration in flight. */
  datatype Task =
    | Looked(id: DeviceId, hostname: string, machineKey: string, credential: Bytes)
    | Counted(id: DeviceId, hostname: string, machineKey: string, credential: Bytes, octet: nat)

  datatype System = System(db: Db, tasks: map<nat, Task>)

  const EMPTY_SYSTEM := System(EMPTY_DB, map[])

  datatype Step =
    | Begin(task: nat, id: DeviceId, rawHostname: string, machineKey: string, credential: Bytes, authorized: bool)
    | ReadCount(task: nat)
    | Commit(task: nat)
    | Rename(id: DeviceId, rawHostname: string)
    | Delete(id: DeviceId)

  function OrUnchanged(r: Result<Db, ApiError>, db: Db): (db': Db)
  {
    match r case Ok(db') => db' case Err(_) => db
  }

  function Next(sys: System, step: Step): (sys': System)
  {
    match step
    case Begin(t, id, rawHostname, machineKey, credential, authorized) =>
      if Registered(sys.db, machineKey) || !authorized then sys
      else (match NormalizeHostname(rawHostname)
            case None => sys
            case Some(hostname) => sys.(tasks := sys.tasks[t := Looked(id, hostname, machineKey, credential)]))
    case ReadCount(t) =>
      if t !in sys.tasks || !sys.tasks[t].Looked? then sys
      else
        var task := sys.tasks[t];
        (match AllocateIpv4(sys.db)
         case Err(_) => sys.(tasks := sys.tasks - {t})
         case Ok(octet) =>
           sys.(tasks := sys.tasks[t := Counted(task.id, task.hostname, task.machineKey, task.credential, octet)]))
    case Commit(t) =>
      if t !in sys.tasks || !sys.tasks[t].Counted? then sys
      else
        var task := sys.tasks[t];
        var r := RegisterTx(sys.db, task.id, task.hostname, task.machineKey, task.credential, Address(task.octet));
        System(OrUnchanged(r, sys.db), sys.tasks - {t})
    case Rename(id, rawHostname) => sys.(db := OrUnchanged(RenameTx(sys.db, id, rawHostname), sys.db))
    case Delete(id) => sys.(db := OrUnchanged(DeleteTx(sys.db, id), sys.db))
  }

  function Exec(sys: System, steps: seq<Step>): (sys': System)
    decreases |steps|
  {
    if steps == [] then sys else Exec(Next(sys, steps[0]), steps[1..])
  }

  lemma {:induction false} ExecConcat(sys: System, a: seq<Step>, b: seq<Step>)
    ensures Exec(sys, a + b) == Exec(Exec(sys, a), b)
    decreases |a|
  {
    hide Next;
    if a == [] {
      assert a + b == b;
    } else {
      ExecConcat(Next(sys, a[0]), a[1..], b);
      assert (a + b)[1..] == a[1..] + b;
    }
  }

  /** A count once read is never ahead of the table. */
  ghost predicate TasksOk(sys: System)
  {
    forall t :: t in sys.tasks && sys.tasks[t].Counted? ==>
      2 <= sys.tasks[t].octet <= 254 && sys.tasks[t].octet <= |sys.db.allocations| + 2
  }

  ghost predicate Inv(sys: System)
  {
    DbOk(sys.db) && TasksOk(sys)
  }

  lemma NextInv(sys: System, step: Step)
    requires Inv(sys)
    ensures Inv(Next(sys, step)) && Extends(sys.db, Next(sys, step).db)
  {
    hide RegisterTx, RenameTx, DeleteTx, DbOk, NormalizeHostname, Registered;
    match step
    case Begin(_, _, _, _, _, _) =>
    case ReadCount(_) =>
    case Commit(t) =>
      if t in sys.tasks && sys.tasks[t].Counted? {
        var task := sys.tasks[t];
        if RegisterTx(sys.db, task.id, task.hostname, task.machineKey, task.credential, Address(task.octet)).Ok? {
          RegisterOk(sys.db, task.id, task.hostname, task.machineKey, task.credential, task.octet);
        }
      }
    case Rename(id, rawHostname) =>
      if RenameTx(sys.db, id, rawHostname).Ok? {
        RenameOk(sys.db, id, rawHostname);
      }
    case Delete(id) =>
      if DeleteTx(sys.db, id).Ok? {
        DeleteOk(sys.db, id);
      }
  }

  lemma {:induction false} ExecInv(sys: System, steps: seq<Step>)
    requires Inv(sys)
    ensures Inv(Exec(sys, steps)) && Extends(sys.db, Exec(sys, steps).db)
    decreases |steps|
  {
    if steps != [] {
      NextInv(sys, steps[0]);
      ExecInv(Next(sys, steps[0]), steps[1..]);
    }
  }

  lemma ReachableInv(steps: seq<Step>)
    ensures Inv(Exec(EMPTY_SYSTEM, steps))
  {
    ExecInv(EMPTY_SYSTEM, steps);
  }

  // ---------------------------------------------------------------- addresses

  lemma {:induction false} ImageSize(allocations: seq<Allocation>)
    ensures |set a | a in allocations :: a.device| <= |allocations|
  {
    if allocations != [] {
      var n := |allocations| - 1;
      ImageSize(allocations[..n]);
      assert (set a | a in allocations :: a.device)
          == (set a | a in allocations[..n] :: a.device) + {allocations[n].device};
    }
  }

  /** However registrations, renames and deletions interleave: the allocated host octets are exactly 2
      to n + 1, at most 253 devices are ever created, and no two of them, deleted or not, have the
      same address. */
  lemma AllocationIsExact(steps: seq<Step>, octet: nat)
    ensures var db := Exec(EMPTY_SYSTEM, steps).db;
            && ((exists a :: a in db.allocations && a.ip == Address(octet)) <==> 2 <= octet <= |db.allocations| + 1)
            && |db.allocations| <= 253 && |db.devices| <= 253
            && (forall d, e :: d in db.devices && e in db.devices && d != e ==>
                  db.devices[d].ipv4 != db.devices[e].ipv4)
  {
    hide Exec, Address, RecordsOk, KeysOk;
    ReachableInv(steps);
    var db := Exec(EMPTY_SYSTEM, steps).db;
    if a :| a in db.allocations && a.ip == Address(octet) {
      var i :| 0 <= i < |db.allocations| && db.allocations[i] == a;
      AddressInjective(octet, i + 2);
    }
    if 2 <= octet <= |db.allocations| + 1 {
      assert db.allocations[octet - 2] in db.allocations;
    }
    DevicesAreCounted(db);
    forall d, e | d in db.devices && e in db.devices && d != e ensures db.devices[d].ipv4 != db.devices[e].ipv4 {
      DeviceAddresses(db, d, e);
    }
  }

  lemma DevicesAreCounted(db: Db)
    requires AllocationsOk(db)
    ensures |db.devices| <= |db.allocations|
  {
    ImageSize(db.allocations);
    var named := set a | a in db.allocations :: a.device;
    forall d | d in db.devices ensures d in named {
      var i :| 0 <= i < |db.allocations| && db.allocations[i].device == d;
      assert db.allocations[i] in db.allocations;
    }
    SubsetSize(db.devices.Keys, named);
  }

  /** In any reachable state, a transaction commits only if the count it was started from is still
      the count. */
  lemma OnlyCurrentReadsCommit(steps: seq<Step>, t: nat)
    requires var sys := Exec(EMPTY_SYSTEM, steps); t in sys.tasks && sys.tasks[t].Counted?
    ensures var sys := Exec(EMPTY_SYSTEM, steps);
            var task := sys.tasks[t];
            RegisterTx(sys.db, task.id, task.hostname, task.machineKey, task.credential, Address(task.octet)).Ok? ==>
              task.octet == |sys.db.allocations| + 2
  {
    ReachableInv(steps);
    var sys := Exec(EMPTY_SYSTEM, steps);
    var task := sys.tasks[t];
    if task.octet < |sys.db.allocations| + 2 {
      StaleReadFails(sys.db, task.id, task.hostname, task.machineKey, task.credential, task.octet);
    }
  }

  /** An address belongs to one device for ever: a device registered later never has the address of an
      earlier one, even if that one has been deleted in between. */
  lemma AddressesAreNeverReused(steps: seq<Step>, more: seq<Step>, earlier: DeviceId, later: DeviceId)
    requires earlier in Exec(EMPTY_SYSTEM, steps).db.devices
    requires later in Exec(Exec(EMPTY_SYSTEM, steps), more).db.devices && later !in Exec(EMPTY_SYSTEM, steps).db.devices
    ensures Exec(Exec(EMPTY_SYSTEM, steps), more).db.devices[later].ipv4
            != Exec(EMPTY_SYSTEM, steps).db.devices[earlier].ipv4
  {
    ReachableInv(steps);
    ExecInv(Exec(EMPTY_SYSTEM, steps), more);
    DeviceAddresses(Exec(Exec(EMPTY_SYSTEM, steps), more).db, earlier, later);
  }

  /** The credential a device was registered with is the one handed out for it ever after. */
  lemma CredentialsNeverChange(steps: seq<Step>, more: seq<Step>, id: DeviceId)
    requires id in Exec(EMPTY_SYSTEM, steps).db.devices
    ensures var later := Exec(Exec(EMPTY_SYSTEM, steps), more).db;
            && id in later.devices
            && later.devices[id].credential == Exec(EMPTY_SYSTEM, steps).db.devices[id].credential
  {
    ReachableInv(steps);
    ExecInv(Exec(EMPTY_SYSTEM, steps), more);
  }

  /** Look-up ignores deleted devices but the unique constraint does not, so a machine whose device was
      deleted never gets a device again. */
  lemma DeletedMachineNeverReturns(steps: seq<Step>, more: seq<Step>, id: DeviceId)
    requires id in Exec(EMPTY_SYSTEM, steps).db.devices && Exec(EMPTY_SYSTEM, steps).db.devices[id].deleted
    ensures !Registered(Exec(Exec(EMPTY_SYSTEM, steps), more).db, Exec(EMPTY_SYSTEM, steps).db.devices[id].machineKey)
  {
    ReachableInv(steps);
    ExecInv(Exec(EMPTY_SYSTEM, steps), more);
  }

  // ---------------------------------------------------------------- what the operations achieve

  lemma ExecThree(sys: System, a: Step, b: Step, c: Step)
    ensures Exec(sys, [a, b, c]) == Next(Next(Next(sys, a), b), c)
  {
    var s1 := Next(sys, a);
    var s2 := Next(s1, b);
    hide Next;
    assert [a, b, c][1..] == [b, c] && [b, c][1..] == [c] && [c][1..] == [];
    assert Exec(s2, [c]) == Exec(Next(s2, c), []);
    assert Exec(s1, [b, c]) == Exec(s2, [c]);
  }

  /** After any run, a registration that nothing comes between creates a device exactly if its machine has none,
      it is authorized and the tables allow it; the device is then live with the next address, and otherwise
      the tables are as before. */
  lemma RegistrationCommits(steps: seq<Step>, t: nat, id: DeviceId, rawHostname: string, machineKey: string,
                            credential: Bytes, authorized: bool)
    requires t !in Exec(EMPTY_SYSTEM, steps).tasks
    ensures var db := Exec(EMPTY_SYSTEM, steps).db;
            var db' := Exec(Exec(EMPTY_SYSTEM, steps),
                            [Begin(t, id, rawHostname, machineKey, credential, authorized), ReadCount(t),
                             Commit(t)]).db;
            if !Registered(db, machineKey) && authorized && CanRegister(db, id, rawHostname, machineKey)
            then && Live(db', id) && id in db'.dns && db'.dns[id].value == Address(|db.allocations| + 2)
                 && db'.devices == db.devices[id := Device(NormalizeHostname(rawHostname).value, machineKey, credential,
                                                           Address(|db.allocations| + 2), false)]
            else db' == db
  {
    hide Exec, RegisterTx, Registered, NormalizeHostname, FirstAvailable, Address;
    ReachableInv(steps);
    var sys := Exec(EMPTY_SYSTEM, steps);
    ExecThree(sys, Begin(t, id, rawHostname, machineKey, credential, authorized), ReadCount(t), Commit(t));
    var hostname := NormalizeHostname(rawHostname);
    if hostname.Some? {
      CurrentReadCommitsExactlyWhen(sys.db, id, hostname.value, machineKey, credential);
      if CanRegister(sys.db, id, rawHostname, machineKey) {
        RegisterOk(sys.db, id, hostname.value, machineKey, credential, |sys.db.allocations| + 2);
      }
    }
  }

  /** After any run, a deleted device is gone for good: it is live in no later state and has no record there. */
  lemma DeletedIsGone(steps: seq<Step>, id: DeviceId, more: seq<Step>)
    requires Live(Exec(EMPTY_SYSTEM, steps).db, id)
    ensures var db := Exec(Next(Exec(EMPTY_SYSTEM, steps), Delete(id)), more).db;
            id in db.devices && !Live(db, id) && id !in db.dns
  {
    hide Exec, RegisterTx, RenameTx, DeleteTx, DbOk;
    ReachableInv(steps);
    var sys := Exec(EMPTY_SYSTEM, steps);
    NextInv(sys, Delete(id));
    DeleteExactlyWhen(sys.db, id);
    var gone := Next(sys, Delete(id));
    ExecInv(gone, more);
    var db := Exec(gone, more).db;
    assert gone.db.devices[id].deleted;
    DeadHasNoRecord(db, id);
  }

  lemma DeadHasNoRecord(db: Db, id: DeviceId)
    requires DbOk(db) && !Live(db, id)
    ensures id !in db.dns
  {
    DbOkParts(db);
  }

  /** After any run, renaming a live device to a host name that is valid and free gives it exactly that name. */
  lemma RenamedHasName(steps: seq<Step>, id: DeviceId, before: string, core: string, after: string)
    requires Live(Exec(EMPTY_SYSTEM, steps).db, id) && AllWhitespace(before) && AllWhitespace(after) && ValidHost(core)
    requires NameAvailable(Exec(EMPTY_SYSTEM, steps).db.dns, id, Lower(core) + ".mesh")
    ensures var db := Next(Exec(EMPTY_SYSTEM, steps), Rename(id, before + core + after)).db;
            && Live(db, id) && db.devices[id].hostname == Lower(core)
            && id in db.dns && db.dns[id].name == Lower(core) + ".mesh"
            && db.dns[id].value == Exec(EMPTY_SYSTEM, steps).db.devices[id].ipv4
  {
    WhitespaceIs();
    HostnameExactlyWhen(before, core, after);
    hide Exec, Lower, NormalizeHostname, FirstAvailable, NameAvailable, RenameTx, Trim;
    var db := Exec(EMPTY_SYSTEM, steps).db;
    FreeHostnameBecomesName(db.dns, id, Lower(core));
    RenameExactlyWhen(db, id, before + core + after);
  }
}
