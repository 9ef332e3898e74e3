/**
 A notification is sent to a group of the local channel layer with a mark that asks for
 relaying.  Every producer of the group forwards a copy without the mark to its web node,
 which sends it to the group of its own channel layer
 (forail/main/consumers.py:104-111, 239-251; forail/main/wsrelay.py:170-197).  Nodes may
 share a channel layer, so a producer may well see what it has just forwarded.
 */
module RelayLoop {

  type Layer = nat
  type Group = string
  type Id = nat

  const METRICS: Group := "metrics"

  /** A producer listens to a group of one layer; its web node sits on another, or on the
      same one. */
  datatype Producer = Producer(source: Layer, group: Group, target: Layer)

  /** A copy in flight: queued at a producer, marked for relaying or not, or on the
      websocket of that producer.  Producers are numbered. */
  datatype Copy = Queued(producer: nat, id: Id, marked: bool) | OnWire(producer: nat, id: Id)

  datatype Origin = Origin(layer: Layer, group: Group)

  /** What has been emitted, what is in flight, and which copies each producer has landed
      at its web node. */
  datatype State = State(emitted: map<Id, Origin>, flight: seq<Copy>, landed: multiset<(nat, Id)>)

  /** `group_send`: one copy for every producer from number `from` on that listens. */
  function Copies(topology: seq<Producer>, from: nat, layer: Layer, group: Group, id: Id, marked: bool): (r: seq<Copy>)
    requires from <= |topology|
    ensures |r| <= |topology| - from
    ensures forall c <- r :: c.Queued? && from <= c.producer < |topology| && c.id == id && c.marked == marked
    decreases |topology| - from
  {
    if from == |topology| then []
    else
      var rest := Copies(topology, from + 1, layer, group, id, marked);
      if topology[from].source == layer && topology[from].group == group then [Queued(from, id, marked)] + rest else rest
  }

  function Emit(topology: seq<Producer>, s: State, id: Id, origin: Origin): State {
    State(s.emitted[id := origin], s.flight + Copies(topology, 0, origin.layer, origin.group, id, true), s.landed)
  }

  /** What handling a copy puts in flight instead. */
  function Handle(topology: seq<Producer>, c: Copy): seq<Copy>
    requires c.producer < |topology|
  {
    var p := topology[c.producer];
    match c
    case Queued(n, id, marked) => if marked then [OnWire(n, id)] else []
    case OnWire(_, id) => if p.group == METRICS then [] else Copies(topology, 0, p.target, p.group, id, false)
  }

  /** The copy at position `i` is handled; copies on different channels overtake each other
      freely. */
  function Deliver(topology: seq<Producer>, s: State, i: nat): State
    requires i < |s.flight| && s.flight[i].producer < |topology|
  {
    var c := s.flight[i];
    State(s.emitted, s.flight[..i] + Handle(topology, c) + s.flight[i + 1..],
          if c.OnWire? then s.landed + multiset{(c.producer, c.id)} else s.landed)
  }

  // ----- Conservation: every producer lands every emission it hears exactly once -----

  function Owed(topology: seq<Producer>, s: State, p: nat, id: Id): nat
    requires p < |topology|
  {
    if id in s.emitted && s.emitted[id] == Origin(topology[p].source, topology[p].group) then 1 else 0
  }

  ghost predicate Conserved(topology: seq<Producer>, s: State) {
    && (forall c <- s.flight :: c.producer < |topology| && c.id in s.emitted)
    && forall p: nat, id: Id :: p < |topology| ==>
         Balanced(topology, s, p, id)
  }

  predicate Hears(topology: seq<Producer>, p: nat, layer: Layer, group: Group) {
    p < |topology| && topology[p].source == layer && topology[p].group == group
  }

  lemma {:induction false} CopiesCount(topology: seq<Producer>, from: nat, layer: Layer, group: Group, id: Id, marked: bool, c: Copy)
    requires from <= |topology|
    ensures multiset(Copies(topology, from, layer, group, id, marked))[c]
            == if c.Queued? && from <= c.producer && c.id == id && c.marked == marked && Hears(topology, c.producer, layer, group) then 1 else 0
    decreases |topology| - from
  {
    hide Copies, Hears;
    CopiesStep(topology, from, layer, group, id, marked);
    if from == |topology| {
      HearsOnly(topology, c.producer, layer, group);
    } else {
      var rest := Copies(topology, from + 1, layer, group, id, marked);
      CopiesCount(topology, from + 1, layer, group, id, marked, c);
      HeadCount(Queued(from, id, marked), rest, c);
    }
  }

  lemma HearsOnly(topology: seq<Producer>, p: nat, layer: Layer, group: Group)
    ensures Hears(topology, p, layer, group) ==> p < |topology|
  {
  }

  lemma CopiesStep(topology: seq<Producer>, from: nat, layer: Layer, group: Group, id: Id, marked: bool)
    requires from <= |topology|
    ensures from == |topology| ==> Copies(topology, from, layer, group, id, marked) == []
    ensures from < |topology| ==>
              var rest := Copies(topology, from + 1, layer, group, id, marked);
              Copies(topology, from, layer, group, id, marked) ==
              if Hears(topology, from, layer, group) then [Queued(from, id, marked)] + rest else rest
  {
  }

  lemma HeadCount(head: Copy, rest: seq<Copy>, c: Copy)
    ensures multiset([head] + rest)[c] == (if c == head then 1 else 0) + multiset(rest)[c]
  {
  }

  /** A producer and a notification account for what the producer is owed. */
  ghost predicate Balanced(topology: seq<Producer>, s: State, p: nat, id: Id)
    requires p < |topology|
  {
    multiset(s.flight)[Queued(p, id, true)] + multiset(s.flight)[OnWire(p, id)] + s.landed[(p, id)] == Owed(topology, s, p, id)
  }

  lemma EmitBalances(topology: seq<Producer>, s: State, id: Id, origin: Origin, p: nat, i: Id)
    requires id !in s.emitted && p < |topology| && Balanced(topology, s, p, i)
    ensures Balanced(topology, Emit(topology, s, id, origin), p, i)
  {
    hide Copies;
    var copies := Copies(topology, 0, origin.layer, origin.group, id, true);
    assert multiset(s.flight + copies) == multiset(s.flight) + multiset(copies);
    CopiesCount(topology, 0, origin.layer, origin.group, id, true, Queued(p, i, true));
    CopiesCount(topology, 0, origin.layer, origin.group, id, true, OnWire(p, i));
  }

  lemma EmitConserves(topology: seq<Producer>, s: State, id: Id, origin: Origin)
    requires Conserved(topology, s) && id !in s.emitted
    ensures Conserved(topology, Emit(topology, s, id, origin))
  {
    hide Copies, Balanced;
    var s' := Emit(topology, s, id, origin);
    forall p: nat, i: Id | p < |topology|
      ensures Balanced(topology, s', p, i)
    {
      EmitBalances(topology, s, id, origin, p, i);
    }
  }

  lemma HandleCount(topology: seq<Producer>, c: Copy, p: nat, id: Id)
    requires c.producer < |topology|
    ensures multiset(Handle(topology, c))[Queued(p, id, true)] == 0
    ensures multiset(Handle(topology, c))[OnWire(p, id)] == if c == Queued(p, id, true) then 1 else 0
  {
    if c.OnWire? {
      var q := topology[c.producer];
      CopiesCount(topology, 0, q.target, q.group, c.id, false, Queued(p, id, true));
      CopiesCount(topology, 0, q.target, q.group, c.id, false, OnWire(p, id));
    }
  }

  lemma Replaced(flight: seq<Copy>, i: nat, by': seq<Copy>)
    requires i < |flight|
    ensures multiset(flight[..i] + by' + flight[i + 1..]) == multiset(flight) - multiset{flight[i]} + multiset(by')
  {
    assert flight == flight[..i] + [flight[i]] + flight[i + 1..];
  }

  lemma DeliverBalances(topology: seq<Producer>, s: State, i: nat, p: nat, id: Id)
    requires i < |s.flight| && s.flight[i].producer < |topology| && p < |topology| && Balanced(topology, s, p, id)
    ensures Balanced(topology, Deliver(topology, s, i), p, id)
  {
    hide Copies, Handle;
    var c := s.flight[i];
    Replaced(s.flight, i, Handle(topology, c));
    assert c in multiset(s.flight);
    HandleCount(topology, c, p, id);
  }

  lemma DeliverConserves(topology: seq<Producer>, s: State, i: nat)
    requires Conserved(topology, s) && i < |s.flight|
    ensures Conserved(topology, Deliver(topology, s, i))
  {
    hide Copies, Balanced;
    var c, s' := s.flight[i], Deliver(topology, s, i);
    forall p: nat, id: Id | p < |topology|
      ensures Balanced(topology, s', p, id)
    {
      DeliverBalances(topology, s, i, p, id);
    }
    forall d <- s'.flight
      ensures d.producer < |topology| && d.id in s'.emitted
    {
      assert d in s.flight[..i] || d in Handle(topology, c) || d in s.flight[i + 1..];
    }
  }

  /** What is in flight after an emission: a marked copy more for every producer that listens. */
  lemma EmittedIs(topology: seq<Producer>, s: State, id: Id, origin: Origin, d: Copy)
    ensures multiset(Emit(topology, s, id, origin).flight)[d] == multiset(s.flight)[d]
              + if d.Queued? && d.id == id && d.marked && d.producer < |topology|
                   && topology[d.producer].source == origin.layer && topology[d.producer].group == origin.group then 1 else 0
  {
    hide Copies;
    var copies := Copies(topology, 0, origin.layer, origin.group, id, true);
    assert multiset(s.flight + copies) == multiset(s.flight) + multiset(copies);
    CopiesCount(topology, 0, origin.layer, origin.group, id, true, d);
  }

  /** And after a delivery: a marked copy goes over the wire of its producer, an unmarked one goes no
      further, and one on the wire becomes an unmarked copy for every producer that listens to its
      group at the web node, unless it is of the metrics. */
  lemma DeliveredIs(topology: seq<Producer>, s: State, i: nat, d: Copy)
    requires i < |s.flight| && s.flight[i].producer < |topology|
    ensures var c := s.flight[i];
            multiset(Deliver(topology, s, i).flight)[d] == multiset(s.flight)[d] - (if d == c then 1 else 0)
              + match c
                case Queued(n, id, marked) => if marked && d == OnWire(n, id) then 1 else 0
                case OnWire(n, id) =>
                  if d.Queued? && d.id == id && !d.marked && d.producer < |topology| && topology[n].group != "metrics"
                     && topology[d.producer].source == topology[n].target && topology[d.producer].group == topology[n].group then 1 else 0
    ensures forall p: nat, id: Id ::
              Deliver(topology, s, i).landed[(p, id)] == s.landed[(p, id)] + if s.flight[i] == OnWire(p, id) then 1 else 0
  {
    hide Handle, Copies;
    var c := s.flight[i];
    Replaced(s.flight, i, Handle(topology, c));
    assert c in multiset(s.flight);
    HandledIs(topology, c, d);
  }

  lemma HandledIs(topology: seq<Producer>, c: Copy, d: Copy)
    requires c.producer < |topology|
    ensures multiset(Handle(topology, c))[d] ==
              match c
              case Queued(n, id, marked) => if marked && d == OnWire(n, id) then 1 else 0
              case OnWire(n, id) =>
                if d.Queued? && d.id == id && !d.marked && topology[n].group != "metrics"
                   && Hears(topology, d.producer, topology[n].target, topology[n].group) then 1 else 0
  {
    hide Copies;
    if c.OnWire? {
      var q := topology[c.producer];
      CopiesCount(topology, 0, q.target, q.group, c.id, false, d);
    }
  }

  datatype Event = Emission(id: Id, origin: Origin) | Delivery(position: nat)

  ghost predicate Enabled(topology: seq<Producer>, s: State, e: Event) {
    match e
    case Emission(id, _) => id !in s.emitted
    case Delivery(i) => i < |s.flight| && s.flight[i].producer < |topology|
  }

  ghost function Step(topology: seq<Producer>, s: State, e: Event): State
    requires Enabled(topology, s, e)
  {
    match e case Emission(id, origin) => Emit(topology, s, id, origin) case Delivery(i) => Deliver(topology, s, i)
  }

  /** The states of a run, starting with nothing emitted. */
  ghost predicate IsRun(topology: seq<Producer>, events: seq<Event>, states: seq<State>) {
    && |states| == |events| + 1 && states[0] == State(map[], [], multiset{})
    && forall k :: 0 <= k < |events| ==> Enabled(topology, states[k], events[k])
                                         && states[k + 1] == Step(topology, states[k], events[k])
  }

  lemma {:induction false} RunConserves(topology: seq<Producer>, events: seq<Event>, states: seq<State>, k: nat)
    requires IsRun(topology, events, states) && k < |states|
    ensures Conserved(topology, states[k])
    decreases k
  {
    if k > 0 {
      RunConserves(topology, events, states, k - 1);
      match events[k - 1]
      case Emission(id, origin) => EmitConserves(topology, states[k - 1], id, origin);
      case Delivery(i) => DeliverConserves(topology, states[k - 1], i);
    }
  }

  /** In every run no producer forwards the same notification twice, none forwards one that
      was not emitted on its layer, and once nothing is in flight every producer that
      listened to the emission has landed it exactly once. */
  lemma RelayedExactlyOnce(topology: seq<Producer>, events: seq<Event>, states: seq<State>, k: nat, p: nat, id: Id)
    requires IsRun(topology, events, states) && k < |states| && p < |topology|
    ensures states[k].landed[(p, id)] + multiset(states[k].flight)[OnWire(p, id)] <= Owed(topology, states[k], p, id) <= 1
    ensures states[k].flight == [] ==> states[k].landed[(p, id)] == Owed(topology, states[k], p, id)
  {
    RunConserves(topology, events, states, k);
    assert Balanced(topology, states[k], p, id);
  }

  // ----- Termination -----

  /** A marked copy outweighs its unmarked copy on the wire, which outweighs whatever the
      web node sends to the producers of its own layer. */
  function Weight(topology: seq<Producer>, c: Copy): nat {
    match c
    case Queued(_, _, marked) => if marked then |topology| + 2 else 1
    case OnWire(_, _) => |topology| + 1
  }

  function Measure(topology: seq<Producer>, flight: seq<Copy>): nat {
    if flight == [] then 0 else Weight(topology, flight[0]) + Measure(topology, flight[1..])
  }

  lemma {:induction false} MeasureConcat(topology: seq<Producer>, a: seq<Copy>, b: seq<Copy>)
    ensures Measure(topology, a + b) == Measure(topology, a) + Measure(topology, b)
  {
    if a == [] {
      assert a + b == b;
    } else {
      assert (a + b)[1..] == a[1..] + b;
      MeasureConcat(topology, a[1..], b);
    }
  }

  lemma {:induction false} UnmarkedMeasure(topology: seq<Producer>, flight: seq<Copy>)
    requires forall c <- flight :: c.Queued? && !c.marked
    ensures Measure(topology, flight) == |flight|
  {
    if flight != [] {
      assert flight[0] in flight;
      UnmarkedMeasure(topology, flight[1..]);
    }
  }

  lemma MeasureReplaced(topology: seq<Producer>, flight: seq<Copy>, i: nat, h: seq<Copy>)
    requires i < |flight|
    ensures Measure(topology, flight[..i] + h + flight[i + 1..]) + Weight(topology, flight[i])
            == Measure(topology, flight) + Measure(topology, h)
  {
    var before, c, after := flight[..i], flight[i], flight[i + 1..];
    assert flight == before + ([c] + after);
    MeasureConcat(topology, before, [c] + after);
    assert ([c] + after)[1..] == after;
    assert before + h + after == before + (h + after);
    MeasureConcat(topology, before, h + after);
    MeasureConcat(topology, h, after);
  }

  /** Every delivery makes the measure smaller, in every topology: relayed copies never
      circulate. */
  lemma DeliveryDecreases(topology: seq<Producer>, s: State, i: nat)
    requires i < |s.flight| && s.flight[i].producer < |topology|
    ensures Measure(topology, Deliver(topology, s, i).flight) < Measure(topology, s.flight)
  {
    var c := s.flight[i];
    var h := Handle(topology, c);
    if c.OnWire? {
      UnmarkedMeasure(topology, h);
    } else if c.marked {
      assert h[1..] == [];
    }
    MeasureReplaced(topology, s.flight, i, h);
  }

  /** Hence, once emissions stop, the deliveries that can follow are bounded in number. */
  lemma {:induction false} DeliveriesEnd(topology: seq<Producer>, events: seq<Event>, states: seq<State>, from: nat, k: nat)
    requires IsRun(topology, events, states) && from <= k < |states|
    requires forall j :: from <= j < k ==> events[j].Delivery?
    ensures k - from + Measure(topology, states[k].flight) <= Measure(topology, states[from].flight)
    decreases k
  {
    if k > from {
      hide Measure;
      DeliveriesEnd(topology, events, states, from, k - 1);
      DeliveryDecreases(topology, states[k - 1], events[k - 1].position);
    }
  }
}
