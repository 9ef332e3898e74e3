/**
 Registration of the instances of a cluster (forail/main/managers.py:118-190) against the
 constraints of their table (forail/main/models/ha.py:95-119).  An address that comes back
 with another instance is taken from the one that had it.
 */
module Registration {

  import opened Options

  const UUID_DEFAULT: string := "00000000-0000-0000-0000-000000000000"

  datatype Row = Row(uuid: string, hostname: string, ip: string, nodeType: string, installed: bool)
  type Table = map<nat, Row>

  /** A call, with its defaults filled in. */
  datatype Request = Request(uuid: Option<string>, hostname: string, ip: string, nodeType: string)

  /** A missing name is that of this node, a missing address is empty. */
  function Filled(hostId: string, nodeUuid: Option<string>, hostname: Option<string>, ipAddress: Option<string>,
                  nodeType: string): Request
  {
    Request(nodeUuid, if hostname.Some? && hostname.value != "" then hostname.value else hostId,
            if ipAddress.Some? then ipAddress.value else "", nodeType)
  }

  // ----- The constraints of the table -----

  predicate HostnameTaken(table: Table, id: nat, hostname: string) {
    exists other <- table :: other != id && table[other].hostname == hostname
  }

  predicate IpTaken(table: Table, id: nat, ip: string) {
    ip != "" && exists other <- table :: other != id && table[other].ip == ip
  }

  predicate Unique(table: Table) {
    forall id <- table :: !HostnameTaken(table, id, table[id].hostname) && !IpTaken(table, id, table[id].ip)
  }

  // ----- Which instance a call is about -----

  predicate MatchesUuid(table: Table, request: Request, id: nat) {
    id in table && request.uuid.Some? && request.uuid.value != UUID_DEFAULT && table[id].uuid == request.uuid.value
  }

  predicate AnyUuid(table: Table, request: Request) {
    exists id <- table :: MatchesUuid(table, request, id)
  }

  /** How the database compares names. */
  type Order = (string, string) -> bool

  ghost predicate IsOrder(before: Order) {
    && (forall x, y :: x != y ==> before(x, y) || before(y, x))
    && (forall x, y :: before(x, y) ==> !before(y, x))
    && (forall x, y, z :: before(x, y) && before(y, z) ==> before(x, z))
  }

  /** The instance with the uuid, or else the one with the name.  Several may have the uuid;
      the first by name counts. */
  predicate IsAbout(before: Order, table: Table, request: Request, id: nat) {
    if AnyUuid(table, request) then
      && MatchesUuid(table, request, id)
      && forall other <- table :: MatchesUuid(table, request, other) ==>
           other == id || before(table[id].hostname, table[other].hostname)
    else id in table && table[id].hostname == request.hostname
  }

  /** There is one, unless the call is about a new one, and only one. */
  lemma AboutUnique(before: Order, table: Table, request: Request, a: nat, b: nat)
    requires IsOrder(before) && Unique(table) && IsAbout(before, table, request, a) && IsAbout(before, table, request, b)
    ensures a == b
  {
    assert !HostnameTaken(table, a, table[a].hostname);
  }

  lemma FirstExists(before: Order, table: Table, among: set<nat>) returns (first: nat)
    requires IsOrder(before) && Unique(table) && among != {} && among <= table.Keys
    ensures first in among && forall other <- among :: other == first || before(table[first].hostname, table[other].hostname)
    decreases |among|
  {
    first :| first in among;
    if among != {first} {
      var x := first;
      assert among - {x} != {};
      var y := FirstExists(before, table, among - {x});
      assert !HostnameTaken(table, x, table[x].hostname);
      assert forall other <- among :: other == x || other in among - {x};
      first := if before(table[x].hostname, table[y].hostname) then x else y;
    }
  }

  predicate IsNew(table: Table, request: Request) {
    !AnyUuid(table, request) && forall id <- table :: table[id].hostname != request.hostname
  }

  /** The instance would be renamed to a name another one has. */
  predicate Clashes(before: Order, table: Table, request: Request, id: nat) {
    IsAbout(before, table, request, id) && HostnameTaken(table, id, request.hostname)
  }

  // ----- What a call comes to -----

  /** Everyone but the instance of this name gives up the address. */
  function Unset(table: Table, ip: string, hostname: string): Table {
    map id <- table :: if ip != "" && table[id].ip == ip && table[id].hostname != hostname then table[id].(ip := "") else table[id]
  }

  function Start(table: Table, auto: bool, request: Request): Table {
    if auto then Unset(table, request.ip, request.hostname) else table
  }

  function Target(row: Row, request: Request): Row {
    row.(hostname := request.hostname, ip := request.ip, nodeType := request.nodeType, installed := true)
  }

  /** Once addresses are given up: `id` is entered, and nothing else changes. */
  predicate Entered(before: Order, start: Table, now: Table, request: Request, id: nat) {
    && Unique(now) && id in now && now == start[id := now[id]]
    && if id in start then IsAbout(before, start, request, id) && now[id] == Target(start[id], request)
       else IsNew(start, request) && now[id] == Target(now[id], request) && (request.uuid.Some? ==> now[id].uuid == request.uuid.value)
  }

  /** The registration of `id` succeeded. */
  predicate Registered(before: Order, was: Table, now: Table, auto: bool, request: Request, id: nat) {
    Entered(before, Start(was, auto, request), now, request, id)
  }

  /** The instance the call is about cannot be entered without breaking a constraint. */
  ghost predicate Refused(before: Order, start: Table, request: Request) {
    || (exists id :: IsAbout(before, start, request, id) && (HostnameTaken(start, id, request.hostname) || IpTaken(start, id, request.ip)))
    || (IsNew(start, request) && request.ip != "" && exists holder <- start :: start[holder].ip == request.ip)
  }

  /** Giving up addresses changes neither names nor uuids. */
  lemma SameSubject(before: Order, table: Table, auto: bool, request: Request)
    ensures var start := Start(table, auto, request);
            && start.Keys == table.Keys && (IsNew(start, request) <==> IsNew(table, request))
            && forall id: nat :: (IsAbout(before, start, request, id) <==> IsAbout(before, table, request, id))
                                 && (HostnameTaken(start, id, request.hostname) <==> HostnameTaken(table, id, request.hostname))
  {
    var start := Start(table, auto, request);
    forall id: nat
      ensures MatchesUuid(start, request, id) <==> MatchesUuid(table, request, id)
      ensures HostnameTaken(start, id, request.hostname) <==> HostnameTaken(table, id, request.hostname)
    {
      if HostnameTaken(table, id, request.hostname) {
        var other :| other in table && other != id && table[other].hostname == request.hostname;
        assert other in start && start[other].hostname == request.hostname;
      }
    }
    assert AnyUuid(start, request) <==> AnyUuid(table, request) by {
      if AnyUuid(table, request) {
        var id :| id in table && MatchesUuid(table, request, id);
        assert id in start && MatchesUuid(start, request, id);
      }
    }
    if IsNew(start, request) {
      forall id <- table
        ensures table[id].hostname != request.hostname
      {
        assert start[id].hostname != request.hostname;
      }
    }
  }

  /** With automatic release, a call is refused exactly if it would rename the instance it is
      about to a name another one has. */
  lemma RefusedIsClash(before: Order, table: Table, request: Request)
    requires Unique(table)
    ensures Refused(before, Start(table, true, request), request) <==> exists id :: Clashes(before, table, request, id)
  {
    hide Start, IsAbout, IsNew, Unique, HostnameTaken, IpTaken;
    var start := Start(table, true, request);
    SameSubject(before, table, true, request);
    if id :| IsAbout(before, start, request, id) && (HostnameTaken(start, id, request.hostname) || IpTaken(start, id, request.ip)) {
      if !HostnameTaken(table, id, request.hostname) {
        AddressIsFree(table, request, id);
      }
      assert Clashes(before, table, request, id);
    }
    if IsNew(start, request) && request.ip != "" && exists holder <- start :: start[holder].ip == request.ip {
      NewIsFree(table, request);
    }
    if id :| Clashes(before, table, request, id) {
      assert IsAbout(before, start, request, id) && HostnameTaken(start, id, request.hostname);
    }
  }

  lemma NewIsFree(table: Table, request: Request)
    requires IsNew(table, request) && request.ip != ""
    ensures forall holder <- Start(table, true, request) :: Start(table, true, request)[holder].ip != request.ip
  {
  }

  lemma UnsetKeeps(table: Table, ip: string, hostname: string)
    requires Unique(table)
    ensures Unique(Unset(table, ip, hostname))
    ensures forall id: nat, name: string :: HostnameTaken(Unset(table, ip, hostname), id, name) <==> HostnameTaken(table, id, name)
  {
    var after := Unset(table, ip, hostname);
    forall id: nat, name: string
      ensures HostnameTaken(after, id, name) <==> HostnameTaken(table, id, name)
    {
      if HostnameTaken(table, id, name) {
        var other :| other in table && other != id && table[other].hostname == name;
        assert other in after && after[other].hostname == name;
      }
    }
    forall id <- after
      ensures !IpTaken(after, id, after[id].ip)
    {
      assert !IpTaken(table, id, table[id].ip);
    }
  }

  lemma UnsetIs(was: Table, ip: string, hostname: string, now: Table, conflicting: set<nat>)
    requires now.Keys == was.Keys
    requires forall id <- was :: id in conflicting <==> ip != "" && was[id].ip == ip && was[id].hostname != hostname
    requires forall id <- was :: now[id] == if id in conflicting then was[id].(ip := "") else was[id]
    ensures now == Unset(was, ip, hostname)
  {
  }

  /** When addresses are given up automatically, no call can fail for an address: whoever
      still has it has the name the call asks for. */
  lemma AddressIsFree(table: Table, request: Request, id: nat)
    requires Unique(table) && !HostnameTaken(table, id, request.hostname)
    ensures !IpTaken(Start(table, true, request), id, request.ip)
  {
    var start := Start(table, true, request);
    forall other <- start | other != id && request.ip != ""
      ensures start[other].ip != request.ip
    {
      assert table[other].hostname != request.hostname;
    }
  }

  lemma ChangedUnique(table: Table, id: nat, row: Row)
    requires Unique(table) && !HostnameTaken(table, id, row.hostname) && !IpTaken(table, id, row.ip)
    ensures Unique(table[id := row])
  {
    var after := table[id := row];
    forall x <- after
      ensures !HostnameTaken(after, x, after[x].hostname) && !IpTaken(after, x, after[x].ip)
    {
      if x != id {
        assert !HostnameTaken(table, x, table[x].hostname) && !IpTaken(table, x, table[x].ip);
      }
    }
  }

  /** The rows of the table after a successful call: which instance it is about, what it becomes, who
      gives up the address, and that nothing else changes. */
  lemma RegisteredIs(before: Order, was: Table, now: Table, auto: bool, request: Request, id: nat)
    requires Registered(before, was, now, auto, request, id)
    ensures now.Keys == was.Keys + {id} && now[id].hostname == request.hostname && now[id].ip == request.ip
    ensures now[id].nodeType == request.nodeType && now[id].installed
    ensures id in was ==> now[id].uuid == was[id].uuid
    ensures id !in was && request.uuid.Some? ==> now[id].uuid == request.uuid.value
    ensures forall x <- was :: x != id ==>
              now[x] == if auto && request.ip != "" && was[x].ip == request.ip && was[x].hostname != request.hostname
                        then was[x].(ip := "") else was[x]
    ensures if request.uuid.Some? && request.uuid.value != "00000000-0000-0000-0000-000000000000"
               && exists x <- was :: was[x].uuid == request.uuid.value
            then && id in was && was[id].uuid == request.uuid.value
                 && forall x <- was :: was[x].uuid == request.uuid.value ==> x == id || before(was[id].hostname, was[x].hostname)
            else if exists x <- was :: was[x].hostname == request.hostname then id in was && was[id].hostname == request.hostname
            else id !in was
  {
    hide Start, Unique, IsAbout, IsNew;
    SameSubject(before, was, auto, request);
    StartIs(was, auto, request);
    AboutIs(before, was, request, id);
  }

  lemma StartIs(table: Table, auto: bool, request: Request)
    ensures var start := Start(table, auto, request);
            && start.Keys == table.Keys
            && forall x <- table ::
                 start[x] == if auto && request.ip != "" && table[x].ip == request.ip && table[x].hostname != request.hostname
                             then table[x].(ip := "") else table[x]
  {
  }

  lemma AboutIs(before: Order, table: Table, request: Request, id: nat)
    ensures IsAbout(before, table, request, id) ==>
              && id in table
              && if request.uuid.Some? && request.uuid.value != "00000000-0000-0000-0000-000000000000"
                    && exists x <- table :: table[x].uuid == request.uuid.value
                 then && table[id].uuid == request.uuid.value
                      && forall x <- table :: table[x].uuid == request.uuid.value ==> x == id || before(table[id].hostname, table[x].hostname)
                 else table[id].hostname == request.hostname
    ensures IsNew(table, request) ==>
              && (forall x <- table :: table[x].hostname != request.hostname)
              && !(request.uuid.Some? && request.uuid.value != "00000000-0000-0000-0000-000000000000"
                   && exists x <- table :: table[x].uuid == request.uuid.value)
  {
    if x :| x in table && request.uuid.Some? && request.uuid.value != UUID_DEFAULT && table[x].uuid == request.uuid.value {
      assert MatchesUuid(table, request, x);
    }
  }

  /** With automatic release, a call is refused exactly for an instance that is found by its uuid while
      another one has the name. */
  lemma ClashIs(before: Order, table: Table, request: Request)
    requires Unique(table)
    ensures (exists id :: Clashes(before, table, request, id)) <==>
              exists x, y :: x in table && y in table && x != y && request.uuid.Some?
                             && request.uuid.value != "00000000-0000-0000-0000-000000000000"
                             && table[x].uuid == request.uuid.value && table[y].hostname == request.hostname
                             && forall z <- table :: table[z].uuid == request.uuid.value ==> z == x || before(table[x].hostname, table[z].hostname)
  {
    if id :| Clashes(before, table, request, id) {
      AboutIs(before, table, request, id);
      var y :| y in table && y != id && table[y].hostname == request.hostname;
      assert !HostnameTaken(table, y, request.hostname) by { NameOnce(table, y); }
    }
    if x, y :| x in table && y in table && x != y && request.uuid.Some?
               && request.uuid.value != UUID_DEFAULT
               && table[x].uuid == request.uuid.value && table[y].hostname == request.hostname
               && forall z <- table :: table[z].uuid == request.uuid.value ==> z == x || before(table[x].hostname, table[z].hostname) {
      assert MatchesUuid(table, request, x);
      assert Clashes(before, table, request, x);
    }
  }

  lemma NameOnce(table: Table, id: nat)
    requires Unique(table) && id in table
    ensures !HostnameTaken(table, id, table[id].hostname)
  {
  }

  // ----- Who has an address after many calls -----

  /** A successful call: the instance and the address it was given. */
  datatype Event = Event(id: nat, ip: string)

  ghost predicate Run(before: Order, tables: seq<Table>, requests: seq<Request>, events: seq<Event>) {
    && |tables| == |requests| + 1 == |events| + 1 && tables[0] == map[]
    && forall i :: 0 <= i < |requests| ==>
         Registered(before, tables[i], tables[i + 1], true, requests[i], events[i].id) && events[i].ip == requests[i].ip
  }

  /** `id` was given `ip`, and since then was not registered again nor was the address given
      to another. */
  ghost predicate LastGiven(events: seq<Event>, id: nat, ip: string) {
    exists k :: GivenAt(events, id, ip, k)
  }

  ghost predicate GivenAt(events: seq<Event>, id: nat, ip: string, k: int) {
    0 <= k < |events| && events[k] == Event(id, ip) && forall l :: k < l < |events| ==> events[l].id != id && events[l].ip != ip
  }

  lemma LastGivenOn(events: seq<Event>, id: nat, ip: string)
    requires events != []
    ensures var n := |events| - 1;
            LastGiven(events, id, ip) <==>
              events[n] == Event(id, ip) || (events[n].id != id && events[n].ip != ip && LastGiven(events[..n], id, ip))
  {
    var n := |events| - 1;
    if events[n] == Event(id, ip) {
      assert GivenAt(events, id, ip, n);
    }
    if LastGiven(events, id, ip) {
      var k :| GivenAt(events, id, ip, k);
      if k < n {
        assert GivenAt(events[..n], id, ip, k);
      }
    }
    if events[n].id != id && events[n].ip != ip && LastGiven(events[..n], id, ip) {
      var k :| GivenAt(events[..n], id, ip, k);
      assert GivenAt(events, id, ip, k);
    }
  }

  /** What one successful call does to the holder of an address. */
  lemma HolderAfterCall(before: Order, was: Table, now: Table, request: Request, given: nat, id: nat, ip: string)
    requires Registered(before, was, now, true, request, given) && ip != ""
    ensures id in now && now[id].ip == ip <==>
              (id == given && request.ip == ip) || (id != given && request.ip != ip && id in was && was[id].ip == ip)
  {
    var start := Start(was, true, request);
    assert id != given ==> (id in now <==> id in start) && (id in now ==> now[id] == start[id]);
    assert !IpTaken(now, given, now[given].ip);
  }

  /** However instances are registered, renamed and registered again, an instance has an
      address exactly when it is the one that was last given it. */
  lemma {:induction false} AddressIsLastGiven(before: Order, tables: seq<Table>, requests: seq<Request>, events: seq<Event>, id: nat, ip: string)
    requires Run(before, tables, requests, events) && ip != ""
    ensures Unique(tables[|requests|])
    ensures id in tables[|requests|] && tables[|requests|][id].ip == ip <==> LastGiven(events, id, ip)
    decreases |requests|
  {
    hide Unique, Registered;
    if requests == [] {
      NothingGiven(id, ip);
      assert events == [];
    } else {
      var n := |requests| - 1;
      assert Run(before, tables[..n + 1], requests[..n], events[..n]);
      AddressIsLastGiven(before, tables[..n + 1], requests[..n], events[..n], id, ip);
      assert Registered(before, tables[n], tables[n + 1], true, requests[n], events[n].id);
      RegisteredUnique(before, tables[n], tables[n + 1], true, requests[n], events[n].id);
      HolderAfterCall(before, tables[n], tables[n + 1], requests[n], events[n].id, id, ip);
      LastGivenOn(events, id, ip);
    }
  }

  lemma NothingGiven(id: nat, ip: string)
    ensures Unique(map[]) && !LastGiven([], id, ip)
  {
  }

  lemma RegisteredUnique(before: Order, was: Table, now: Table, auto: bool, request: Request, id: nat)
    requires Registered(before, was, now, auto, request, id)
    ensures Unique(now)
  {
  }

  lemma AboutExists(before: Order, table: Table, request: Request, id: nat)
    requires IsAbout(before, table, request, id)
    ensures id in table
  {
  }

  lemma NewTaken(before: Order, table: Table, request: Request, id: nat)
    requires IsNew(table, request) && id !in table
    ensures Refused(before, table, request) <==> HostnameTaken(table, id, request.hostname) || IpTaken(table, id, request.ip)
  {
  }

  // ----- The manager -----

  datatype Outcome = Success(changed: bool, id: nat) | IntegrityError

  class Instances {
    const before: Order
    var table: Table
    var nextId: nat

    constructor (before: Order)
      requires IsOrder(before)
      ensures Valid() && this.before == before && table == map[]
    {
      this.before, table, nextId := before, map[], 0;
    }

    ghost predicate Valid()
      reads this
    {
      IsOrder(before) && Unique(table) && forall id <- table :: id < nextId
    }

    /** `save`: refused by the database if it breaks a constraint. */
    method Save(id: nat, row: Row) returns (ok: bool)
      requires Valid() && id < nextId
      modifies this`table
      ensures Valid()
      ensures ok <==> !HostnameTaken(old(table), id, row.hostname) && !IpTaken(old(table), id, row.ip)
      ensures table == if ok then old(table)[id := row] else old(table)
    {
      ok := !HostnameTaken(table, id, row.hostname) && !IpTaken(table, id, row.ip);
      if ok {
        ChangedUnique(table, id, row);
        table := table[id := row];
      }
    }

    /** Takes the address from every other instance. */
    method UnsetIp(ip: string, hostname: string)
      requires Valid()
      modifies this`table
      ensures Valid() && table == Unset(old(table), ip, hostname)
    {
      hide Unset, Unique;
      UnsetKeeps(table, ip, hostname);
      if ip == "" {
        UnsetIs(table, ip, hostname, table, {});
        return;
      }
      var conflicting := set id <- table | table[id].ip == ip && table[id].hostname != hostname;
      ghost var was := table;
      UnsetEach(conflicting);
      UnsetIs(was, ip, hostname, table, conflicting);
    }

    method UnsetEach(conflicting: set<nat>)
      requires conflicting <= table.Keys
      modifies this`table
      ensures table.Keys == old(table).Keys
      ensures forall id <- table :: table[id] == if id in conflicting then old(table)[id].(ip := "") else old(table)[id]
    {
      var todo := conflicting;
      while todo != {}
        invariant todo <= conflicting && table.Keys == old(table).Keys
        invariant forall id <- table :: table[id] == if id in conflicting && id !in todo then old(table)[id].(ip := "") else old(table)[id]
        decreases |todo|
      {
        var other :| other in todo;
        table := table[other := table[other].(ip := "")];
        todo := todo - {other};
      }
    }

    /** The first by name of those with the uuid, or else the one with the name. */
    method Find(request: Request) returns (id: Option<nat>)
      requires Valid()
      ensures id.None? <==> IsNew(table, request)
      ensures forall x: nat :: IsAbout(before, table, request, x) <==> id == Some(x)
    {
      var found := set x <- table | MatchesUuid(table, request, x);
      if found != {} {
        ghost var _ := FirstExists(before, table, found);
        var first :| first in found && forall x <- found :: x == first || before(table[first].hostname, table[x].hostname);
        id := Some(first);
        assert AnyUuid(table, request) && IsAbout(before, table, request, first);
      } else {
        assert !AnyUuid(table, request) by {
          assert forall x <- table :: MatchesUuid(table, request, x) ==> x in found;
        }
        if first :| first in table && table[first].hostname == request.hostname {
          id := Some(first);
        } else {
          id := None;
        }
      }
      forall x: nat | IsAbout(before, table, request, x)
        ensures id == Some(x)
      {
        if id.Some? {
          AboutUnique(before, table, request, x, id.value);
        }
      }
    }

    method Enter(request: Request, generated: string) returns (outcome: Outcome)
      requires Valid()
      modifies this
      ensures Valid()
      ensures outcome.Success? ==> outcome.changed && Entered(before, old(table), table, request, outcome.id)
      ensures outcome.Success? && outcome.id !in old(table) && request.uuid.None? ==> table[outcome.id].uuid == generated
      ensures outcome.IntegrityError? <==> Refused(before, old(table), request)
      ensures outcome.IntegrityError? ==> table == old(table)
    {
      hide Unique, HostnameTaken, IpTaken, IsAbout, IsNew;
      var found := Find(request);
      if found.Some? {
        var id := found.value;
        assert id in table by { AboutExists(before, table, request, id); }
        // The state is always among the fields to save, so there is always a change.
        assert Refused(before, table, request) <==> HostnameTaken(table, id, request.hostname) || IpTaken(table, id, request.ip) by {
          assert IsAbout(before, table, request, id);
        }
        var ok := Save(id, Target(table[id], request));
        outcome := if ok then Success(true, id) else IntegrityError;
      } else {
        var id := nextId;
        nextId := nextId + 1;
        var uuid := if request.uuid.Some? then request.uuid.value else generated;
        NewTaken(before, table, request, id);
        var ok := Save(id, Row(uuid, request.hostname, request.ip, request.nodeType, true));
        outcome := if ok then Success(true, id) else IntegrityError;
      }
    }

    /** `register`.  `generated` is a new random uuid, `hostId` the name of this node. */
    method Register(auto: bool, hostId: string, nodeUuid: Option<string>, hostname: Option<string>, ipAddress: Option<string>,
                    nodeType: string, generated: string)
      returns (outcome: Outcome)
      requires Valid()
      modifies this
      ensures Valid()
      ensures var name := match hostname case None => hostId case Some(given) => if given == "" then hostId else given;
              var request := Request(nodeUuid, name, match ipAddress case None => "" case Some(given) => given, nodeType);
              && (outcome.Success? ==> outcome.changed && Registered(before, old(table), table, auto, request, outcome.id))
              && (outcome.Success? && outcome.id !in old(table) && nodeUuid.None? ==> table[outcome.id].uuid == generated)
              && (outcome.IntegrityError? <==> Refused(before, Start(old(table), auto, request), request))
              && (outcome.IntegrityError? ==> table == Start(old(table), auto, request))
              && (auto ==> (outcome.IntegrityError? <==> exists id :: Clashes(before, old(table), request, id)))
    {
      var request := Filled(hostId, nodeUuid, hostname, ipAddress, nodeType);
      if auto {
        UnsetIp(request.ip, request.hostname);
      }
      outcome := Enter(request, generated);
      if auto {
        RefusedIsClash(before, old(table), request);
      }
    }
  }
}
