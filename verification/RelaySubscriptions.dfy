/**
 Browsers subscribe to groups of notifications; every relay connection learns of it over
 its own queue and keeps one producer per group
 (forail/main/consumers.py:120-215; forail/main/wsrelay.py:118-160, 186-211).
 */
module RelaySubscriptions {

  import opened Options

  type Channel = nat
  type Group = string

  /** What a browser's consumer tells every relay connection. */
  datatype Message =
    | Subscribe(groups: set<Group>, origin: Channel)
    | Unsubscribe(groups: set<Group>, origin: Channel)

  // ----- The consumer of one browser -----

  /** A request names groups, each with the ids of the resources it is about; anything but
      a list of ids is malformed. */
  datatype Entry = Entry(group: string, ids: Option<seq<string>>)

  function Name(group: string, id: string): Group {
    group + "-" + id
  }

  /** The groups about resources of which a user may see some and not others; the ids of all other
      groups are not looked at. */
  const CHECKED: set<string> := {"job_events", "workflow_events", "ad_hoc_command_events"}

  predicate MaySee(group: string, id: string, visible: set<(string, string)>) {
    group in CHECKED ==> (group, id) in visible
  }

  predicate WellFormed(request: seq<Entry>) {
    forall i :: 0 <= i < |request| ==> request[i].ids.Some?
  }

  /** The groups a request asks for and is allowed to see. */
  function Wanted(request: seq<Entry>, visible: set<(string, string)>): set<Group>
    requires WellFormed(request)
  {
    if request == [] then {}
    else Allowed(request[0].group, request[0].ids.value, visible) + Wanted(request[1..], visible)
  }

  function Allowed(group: string, ids: seq<string>, visible: set<(string, string)>): set<Group> {
    if ids == [] then {}
    else (if MaySee(group, ids[0], visible) then {Name(group, ids[0])} else {}) + Allowed(group, ids[1..], visible)
  }

  lemma {:induction false} AllowedHas(group: string, ids: seq<string>, visible: set<(string, string)>, g: Group)
    ensures g in Allowed(group, ids, visible) <==>
              exists j :: 0 <= j < |ids| && MaySee(group, ids[j], visible) && g == group + "-" + ids[j]
  {
    if ids != [] {
      AllowedHas(group, ids[1..], visible, g);
      if j :| 0 <= j < |ids[1..]| && MaySee(group, ids[1..][j], visible) && g == group + "-" + ids[1..][j] {
        assert ids[j + 1] == ids[1..][j];
      }
      if j :| 0 < j < |ids| && MaySee(group, ids[j], visible) && g == group + "-" + ids[j] {
        assert ids[1..][j - 1] == ids[j];
      }
    }
  }

  /** A group is wanted exactly if it stands for one of the ids a request lists, which its user may
      see where that is looked at. */
  lemma {:induction false} WantedHas(request: seq<Entry>, visible: set<(string, string)>, g: Group)
    requires WellFormed(request)
    ensures g in Wanted(request, visible) <==>
              exists i, j :: 0 <= i < |request| && 0 <= j < |request[i].ids.value|
                             && (|| request[i].group !in {"job_events", "workflow_events", "ad_hoc_command_events"}
                                 || (request[i].group, request[i].ids.value[j]) in visible)
                             && g == request[i].group + "-" + request[i].ids.value[j]
  {
    hide Allowed;
    if request != [] {
      var rest := request[1..];
      AllowedHas(request[0].group, request[0].ids.value, visible, g);
      WantedHas(rest, visible, g);
      if i, j :| 0 <= i < |rest| && 0 <= j < |rest[i].ids.value| && MaySee(rest[i].group, rest[i].ids.value[j], visible)
                 && g == rest[i].group + "-" + rest[i].ids.value[j] {
        assert request[i + 1] == rest[i];
      }
      if i, j :| 0 < i < |request| && 0 <= j < |request[i].ids.value| && MaySee(request[i].group, request[i].ids.value[j], visible)
                 && g == request[i].group + "-" + request[i].ids.value[j] {
        assert rest[i - 1] == request[i];
      }
    }
  }

  /** The two messages of a change from `current` to `wanted`. */
  function Farewell(current: set<Group>, wanted: set<Group>, c: Channel): seq<Message> {
    if current - wanted == {} then [] else [Unsubscribe(current - wanted, c)]
  }

  class ChannelLayer {
    var members: set<(Group, Channel)>
    var broadcast: seq<Message>

    constructor ()
      ensures members == {} && broadcast == []
    {
      members, broadcast := {}, [];
    }
  }

  class EventConsumer {
    const channel: Channel
    const layer: ChannelLayer
    var session: Option<set<Group>>

    constructor (channel: Channel, layer: ChannelLayer)
      ensures this.channel == channel && this.layer == layer && session == None
    {
      this.channel, this.layer, session := channel, layer, None;
    }

    function Groups(): set<Group>
      reads this
    {
      if session.Some? then session.value else {}
    }

    /** The consumer is a member of exactly the groups of its session. */
    ghost predicate InStep()
      reads this, layer
    {
      forall g :: (g, channel) in layer.members <==> g in Groups()
    }

    method Leave(groups: set<Group>)
      modifies layer
      ensures layer.members == old(layer.members) - (set g <- groups :: (g, channel))
      ensures layer.broadcast == old(layer.broadcast)
    {
      var todo := groups;
      while todo != {}
        invariant todo <= groups
        invariant layer.members == old(layer.members) - (set g <- groups - todo :: (g, channel))
        invariant layer.broadcast == old(layer.broadcast)
        decreases |todo|
      {
        var g :| g in todo;
        layer.members := layer.members - {(g, channel)};
        todo := todo - {g};
      }
      assert groups - todo == groups;
    }

    method Enter(groups: set<Group>)
      modifies layer
      ensures layer.members == old(layer.members) + (set g <- groups :: (g, channel))
      ensures layer.broadcast == old(layer.broadcast)
    {
      var todo := groups;
      while todo != {}
        invariant todo <= groups
        invariant layer.members == old(layer.members) + (set g <- groups - todo :: (g, channel))
        invariant layer.broadcast == old(layer.broadcast)
        decreases |todo|
      {
        var g :| g in todo;
        layer.members := layer.members + {(g, channel)};
        todo := todo - {g};
      }
      assert groups - todo == groups;
    }

    method Allow(group: string, ids: seq<string>, visible: set<(string, string)>) returns (names: set<Group>)
      ensures names == Allowed(group, ids, visible)
    {
      names := {};
      for i := 0 to |ids|
        invariant names + Allowed(group, ids[i..], visible) == Allowed(group, ids, visible)
      {
        assert ids[i..][1..] == ids[i + 1..];
        if MaySee(group, ids[i], visible) {
          names := names + {Name(group, ids[i])};
        }
      }
    }

    /** The part of a request that decides which groups are wanted. */
    method Parse(request: seq<Entry>, visible: set<(string, string)>) returns (wanted: Option<set<Group>>)
      ensures wanted.Some? <==> WellFormed(request)
      ensures wanted.Some? ==> wanted.value == Wanted(request, visible)
      ensures wanted.Some? ==> forall g ::
                g in wanted.value <==>
                  exists i, j :: 0 <= i < |request| && 0 <= j < |request[i].ids.value|
                                 && (|| request[i].group !in {"job_events", "workflow_events", "ad_hoc_command_events"}
                                     || (request[i].group, request[i].ids.value[j]) in visible)
                                 && g == request[i].group + "-" + request[i].ids.value[j]
    {
      var names: set<Group> := {};
      for i := 0 to |request|
        invariant WellFormed(request[..i])
        invariant WellFormed(request) ==> names + Wanted(request[i..], visible) == Wanted(request, visible)
      {
        assert request[i..][1..] == request[i + 1..];
        if request[i].ids.None? {
          return None;
        }
        var more := Allow(request[i].group, request[i].ids.value, visible);
        assert request[..i + 1] == request[..i] + [request[i]];
        names := names + more;
      }
      assert request[..|request|] == request;
      wanted := Some(names);
      forall g {
        WantedHas(request, visible, g);
      }
    }

    /** A request for groups.  The session's groups are taken out first, so a malformed
        request loses them, while the memberships stay. */
    method ReceiveGroups(request: seq<Entry>, visible: set<(string, string)>)
      modifies this`session, layer
      ensures WellFormed(request) ==>
                var current, wanted := old(Groups()), Wanted(request, visible);
                && session == Some(wanted)
                && layer.broadcast == old(layer.broadcast) + Farewell(current, wanted, channel) + [Subscribe(wanted, channel)]
                && layer.members == old(layer.members) - (set g <- current - wanted :: (g, channel))
                                                       + (set g <- wanted - current :: (g, channel))
      ensures WellFormed(request) ==>
                var current := old(Groups());
                && session.Some?
                && layer.broadcast == old(layer.broadcast)
                     + (if current <= session.value then [] else [Unsubscribe(current - session.value, channel)])
                     + [Subscribe(session.value, channel)]
                && forall g :: g in session.value <==>
                     exists i, j :: 0 <= i < |request| && 0 <= j < |request[i].ids.value|
                                    && (|| request[i].group !in {"job_events", "workflow_events", "ad_hoc_command_events"}
                                        || (request[i].group, request[i].ids.value[j]) in visible)
                                    && g == request[i].group + "-" + request[i].ids.value[j]
      ensures WellFormed(request) && old(InStep()) ==> InStep()
      ensures !WellFormed(request) ==>
                session == None && layer.members == old(layer.members) && layer.broadcast == old(layer.broadcast)
      ensures !WellFormed(request) && old(InStep()) ==> (InStep() <==> old(Groups()) == {})
      ensures forall m: (Group, Channel) :: m.1 != channel ==> (m in layer.members <==> m in old(layer.members))
    {
      var current := Groups();
      session := None;
      var parsed := Parse(request, visible);
      if parsed.None? {
        return;
      }
      var wanted := parsed.value;
      Leave(current - wanted);
      if current - wanted != {} {
        layer.broadcast := layer.broadcast + [Unsubscribe(current - wanted, channel)];
      }
      Enter(wanted - current);
      layer.broadcast := layer.broadcast + [Subscribe(wanted, channel)];
      session := Some(wanted);
    }

    method Disconnect()
      modifies this`session, layer
      ensures session == None
      ensures layer.broadcast == old(layer.broadcast) + [Unsubscribe(old(Groups()), channel)]
      ensures layer.members == old(layer.members) - (set g <- old(Groups()) :: (g, channel))
      ensures old(InStep()) ==> InStep()
      ensures forall m: (Group, Channel) :: m.1 != channel ==> (m in layer.members <==> m in old(layer.members))
    {
      var current := Groups();
      session := None;
      Leave(current);
      layer.broadcast := layer.broadcast + [Unsubscribe(current, channel)];
    }
  }

  // ----- The relay connection -----

  /** Every producer with its subscribers. */
  type Producers = map<Group, set<Channel>>

  function Apply(p: Producers, m: Message): Producers {
    match m
    case Subscribe(groups, c) => Enrol(p, groups, c)
    case Unsubscribe(groups, c) => Strike(p, groups, c)
  }

  function Enrol(p: Producers, groups: set<Group>, c: Channel): Producers {
    map g <- p.Keys + groups :: if g !in groups then p[g] else if g in p then p[g] + {c} else {c}
  }

  function Strike(p: Producers, groups: set<Group>, c: Channel): Producers {
    map g <- p :: if g in groups then p[g] - {c} else p[g]
  }

  lemma EnrolNone(p: Producers, c: Channel)
    ensures Enrol(p, {}, c) == p
  {
    assert p.Keys + {} == p.Keys;
  }

  lemma EnrolOne(p: Producers, done: set<Group>, g: Group, c: Channel)
    requires g !in done
    ensures Enrol(p, done + {g}, c) == Enrol(p, done, c)[g := if g in Enrol(p, done, c) then Enrol(p, done, c)[g] + {c} else {c}]
  {
    var lhs, was := Enrol(p, done + {g}, c), Enrol(p, done, c);
    var rhs := was[g := if g in was then was[g] + {c} else {c}];
    assert lhs.Keys == rhs.Keys;
    forall x | x in lhs
      ensures lhs[x] == rhs[x]
    {
    }
  }

  lemma StrikeNone(p: Producers, c: Channel)
    ensures Strike(p, {}, c) == p
  {
  }

  lemma StrikeOne(p: Producers, done: set<Group>, g: Group, c: Channel)
    requires g !in done
    ensures var was := Strike(p, done, c);
            Strike(p, done + {g}, c) == if g in was then was[g := was[g] - {c}] else was
  {
  }

  class RelayConnection {
    var producers: Producers

    constructor ()
      ensures producers == map[]
    {
      producers := map[];
    }

    method OnPayload(m: Message)
      modifies this
      ensures producers == Apply(old(producers), m)
      ensures forall g :: g in producers <==> g in old(producers) || (m.Subscribe? && g in m.groups)
      ensures forall g, c: Channel :: g in producers ==>
                (c in producers[g] <==>
                   if c == m.origin && g in m.groups then m.Subscribe? else g in old(producers) && c in old(producers)[g])
    {
      if m.Subscribe? {
        OnSubscribe(m.groups, m.origin);
      } else {
        OnUnsubscribe(m.groups, m.origin);
      }
    }

    method OnSubscribe(groups: set<Group>, origin: Channel)
      modifies this
      ensures producers == Enrol(old(producers), groups, origin)
    {
      hide Enrol;
      var todo := groups;
      EnrolNone(producers, origin);
      assert groups - todo == {};
      while todo != {}
        invariant todo <= groups
        invariant producers == Enrol(old(producers), groups - todo, origin)
        decreases |todo|
      {
        var g :| g in todo;
        EnrolOne(old(producers), groups - todo, g, origin);
        AddSubscriber(g, origin);
        assert groups - (todo - {g}) == (groups - todo) + {g};
        todo := todo - {g};
      }
      assert groups - todo == groups;
    }

    method AddSubscriber(g: Group, origin: Channel)
      modifies this
      ensures producers == old(producers)[g := if g in old(producers) then old(producers)[g] + {origin} else {origin}]
    {
      if g !in producers {
        producers := producers[g := {origin}];
      } else {
        producers := producers[g := producers[g] + {origin}];
      }
    }

    method OnUnsubscribe(groups: set<Group>, origin: Channel)
      modifies this
      ensures producers == Strike(old(producers), groups, origin)
    {
      hide Strike;
      var todo := groups;
      ghost var done: set<Group> := {};
      StrikeNone(producers, origin);
      while todo != {}
        invariant todo + done == groups && todo !! done
        invariant producers == Strike(old(producers), done, origin)
        decreases |todo|
      {
        var g :| g in todo;
        StrikeOne(old(producers), done, g, origin);
        if g in producers {
          producers := producers[g := producers[g] - {origin}];
        }
        todo, done := todo - {g}, done + {g};
      }
      assert done == groups;
    }

    /** The producer of `g` has waited in vain: it stops when nobody is subscribed. */
    method OnTimeout(g: Group) returns (stop: bool)
      requires g in producers
      ensures stop <==> forall c: Channel :: g !in Subscriptions(producers, c)
    {
      stop := |producers[g]| == 0;
      if !stop {
        var c :| c in producers[g];
        assert g in Subscriptions(producers, c);
      }
    }

    /** It takes leave of the channel layer, which is another wait, and removes its entry
        whatever the entry is by then. */
    method Remove(g: Group)
      requires g in producers
      modifies this
      ensures producers.Keys == old(producers).Keys - {g}
      ensures forall c: Channel :: Subscriptions(producers, c) == Subscriptions(old(producers), c) - {g}
    {
      producers := producers - {g};
    }
  }

  /** The groups in which a relay has `c` among the subscribers. */
  function Subscriptions(p: Producers, c: Channel): set<Group> {
    set g <- p | c in p[g]
  }

  // ----- The protocol -----

  /** A consumer is between requests, or has said its farewell and still has to subscribe:
      the two broadcasts of one request may be separated by anything.  `leftover` is what
      malformed requests have made it forget. */
  datatype Consumer =
    | Idle(session: set<Group>, leftover: set<Group>)
    | Midway(kept: set<Group>, wanted: set<Group>, leftover: set<Group>)
  {
    /** What the relays have been told, and not been told otherwise. */
    function Told(): set<Group> {
      leftover + match this case Idle(s, _) => s case Midway(kept, _, _) => kept
    }

    predicate Sound() {
      match this
      case Idle(s, _) => s !! leftover
      case Midway(kept, _, _) => kept !! leftover && kept <= wanted
    }
  }

  /** `ending` has the producers that have been found without subscribers and are not yet
      removed, each with the messages that arrived since. */
  datatype Link = Link(queue: seq<Message>, producers: Producers, ending: map<Group, seq<Message>>)

  /** `missed` notes of which subscriptions a relay does not know: those from before it joined,
      and those a removal has taken away. */
  datatype State = State(consumers: map<Channel, Consumer>, links: map<nat, Link>, missed: set<(nat, Channel, Group)>) {
    function Consumer(c: Channel): Consumer {
      if c in consumers then consumers[c] else Idle({}, {})
    }

    /** The groups a relay should know `c` is in. */
    function Known(r: nat, c: Channel): set<Group> {
      set g <- Consumer(c).Told() | (r, c, g) !in missed
    }
  }

  predicate Names(m: Message, g: Group, c: Channel) {
    m.origin == c && g in m.groups
  }

  /** The last thing `c` says about `g`: to subscribe or not. */
  function LastWord(messages: seq<Message>, g: Group, c: Channel): Option<bool> {
    if messages == [] then None
    else
      var last := messages[|messages| - 1];
      if Names(last, g, c) then Some(last.Subscribe?) else LastWord(messages[..|messages| - 1], g, c)
  }

  /** The removal of a producer takes a subscription away. */
  predicate Loses(l: Link, g: Group, c: Channel)
    requires g in l.ending
  {
    LastWord(l.ending[g], g, c) == Some(true) && LastWord(l.queue, g, c) == None
  }

  datatype Event =
    | Begin(c: Channel, wanted: set<Group>)
    | Finish(c: Channel)
    | Malformed(c: Channel)
    | Quit(c: Channel)
    | Join(relay: nat)
    | Part(relay: nat)
    | Receive(relay: nat)
    | Notice(relay: nat, group: Group)
    | Remove(relay: nat, group: Group)
  {
    predicate Enabled(s: State) {
      match this
      case Begin(c, _) => s.Consumer(c).Idle?
      case Finish(c) => s.Consumer(c).Midway?
      case Malformed(c) => s.Consumer(c).Idle?
      case Quit(c) => s.Consumer(c).Idle?
      case Join(r) => r !in s.links
      case Part(r) => r in s.links
      case Receive(r) => r in s.links && s.links[r].queue != []
      case Notice(r, g) =>
        r in s.links && g in s.links[r].producers && s.links[r].producers[g] == {} && g !in s.links[r].ending
      case Remove(r, g) => r in s.links && g in s.links[r].ending
    }
  }

  function Broadcast(links: map<nat, Link>, messages: seq<Message>): map<nat, Link> {
    map r <- links :: links[r].(queue := links[r].queue + messages)
  }

  /** One message arrives. */
  function Take(l: Link): Link
    requires l.queue != []
  {
    var m := l.queue[0];
    Link(l.queue[1..], Apply(l.producers, m), map g <- l.ending :: l.ending[g] + [m])
  }

  /** What an event broadcasts. */
  function Sent(s: State, e: Event): (messages: seq<Message>)
    requires e.Enabled(s)
    ensures |messages| <= 1
  {
    match e
    case Begin(c, wanted) => Farewell(s.Consumer(c).session, wanted, c)
    case Finish(c) => [Subscribe(s.Consumer(c).wanted, c)]
    case Quit(c) => [Unsubscribe(s.Consumer(c).session, c)]
    case _ => []
  }

  function Step(s: State, e: Event): State
    requires e.Enabled(s)
  {
    match e
    case Begin(c, wanted) =>
      var Idle(session, leftover) := s.Consumer(c);
      s.(consumers := s.consumers[c := Midway(session * wanted, wanted, leftover)],
         links := Broadcast(s.links, Sent(s, e)))
    case Finish(c) =>
      var Midway(_, wanted, leftover) := s.Consumer(c);
      State(s.consumers[c := Idle(wanted, leftover - wanted)], Broadcast(s.links, Sent(s, e)),
            set x <- s.missed | !(x.1 == c && x.2 in wanted))
    case Malformed(c) =>
      var Idle(session, leftover) := s.Consumer(c);
      s.(consumers := s.consumers[c := Idle({}, session + leftover)])
    case Quit(c) =>
      var Idle(session, leftover) := s.Consumer(c);
      s.(consumers := s.consumers[c := Idle({}, leftover)], links := Broadcast(s.links, Sent(s, e)))
    case Join(r) =>
      s.(links := s.links[r := Link([], map[], map[])],
         missed := s.missed + set c <- s.consumers, g <- s.consumers[c].Told() :: (r, c, g))
    case Part(r) =>
      s.(links := s.links - {r}, missed := set x <- s.missed | x.0 != r)
    case Receive(r) =>
      s.(links := s.links[r := Take(s.links[r])])
    case Notice(r, g) =>
      s.(links := s.links[r := s.links[r].(ending := s.links[r].ending[g := []])])
    case Remove(r, g) =>
      var l := s.links[r];
      s.(links := s.links[r := Link(l.queue, l.producers - {g}, l.ending - {g})],
         missed := s.missed + set m <- l.ending[g] | Loses(l, g, m.origin) :: (r, m.origin, g))
  }

  /** The events of a consumer broadcast, and leave of its session, what its methods do: a request
      in two parts, between which anything may happen, a malformed request and a farewell. */
  lemma RequestsAreEvents(s: State, c: Channel, wanted: set<Group>)
    requires s.Consumer(c).Idle?
    ensures var session, mid := s.Consumer(c).session, Step(s, Begin(c, wanted));
            && Finish(c).Enabled(mid) && Step(mid, Finish(c)).Consumer(c).Idle? && Step(mid, Finish(c)).Consumer(c).session == wanted
            && Sent(s, Begin(c, wanted)) + Sent(mid, Finish(c))
               == (if session <= wanted then [] else [Unsubscribe(session - wanted, c)]) + [Subscribe(wanted, c)]
    ensures Step(s, Malformed(c)).Consumer(c).Idle? && Step(s, Malformed(c)).Consumer(c).session == {} && Sent(s, Malformed(c)) == []
    ensures Step(s, Quit(c)).Consumer(c).Idle? && Step(s, Quit(c)).Consumer(c).session == {}
    ensures Sent(s, Quit(c)) == [Unsubscribe(s.Consumer(c).session, c)]
  {
    var session := s.Consumer(c).session;
    if session <= wanted {
      assert session - wanted == {};
    } else {
      var g :| g in session && g !in wanted;
      assert g in session - wanted;
    }
  }

  /** What is broadcast is queued for every relay, behind what is queued there. */
  lemma SentIsQueued(s: State, e: Event, r: nat)
    requires e.Enabled(s) && (e.Begin? || e.Finish? || e.Malformed? || e.Quit?)
    ensures r in Step(s, e).links <==> r in s.links
    ensures r in s.links ==> Step(s, e).links[r] == s.links[r].(queue := s.links[r].queue + Sent(s, e))
  {
    if r in s.links {
      assert s.links[r].queue + [] == s.links[r].queue;
    }
  }

  function Effect(groups: set<Group>, m: Message, c: Channel): set<Group> {
    if m.origin != c then groups
    else match m case Subscribe(gs, _) => groups + gs case Unsubscribe(gs, _) => groups - gs
  }

  /** The groups `c` will be subscribed to once the queue is drained. */
  function Drained(queue: seq<Message>, groups: set<Group>, c: Channel): set<Group>
    decreases |queue|
  {
    if queue == [] then groups else Drained(queue[1..], Effect(groups, queue[0], c), c)
  }

  lemma {:induction false} DrainedSnoc(queue: seq<Message>, m: Message, groups: set<Group>, c: Channel)
    ensures Drained(queue + [m], groups, c) == Effect(Drained(queue, groups, c), m, c)
    decreases |queue|
  {
    if queue == [] {
      assert queue + [m] == [m];
    } else {
      assert (queue + [m])[1..] == queue[1..] + [m];
      DrainedSnoc(queue[1..], m, Effect(groups, queue[0], c), c);
    }
  }

  /** The last word counts; without one, things stay as they are. */
  lemma {:induction false} DrainedIsLastWord(queue: seq<Message>, groups: set<Group>, g: Group, c: Channel)
    ensures g in Drained(queue, groups, c) <==> match LastWord(queue, g, c) case None => g in groups case Some(b) => b
    decreases |queue|
  {
    if queue != [] {
      var front, last := queue[..|queue| - 1], queue[|queue| - 1];
      assert queue == front + [last];
      DrainedIsLastWord(front, groups, g, c);
      DrainedSnoc(front, last, groups, c);
    }
  }

  lemma ApplySubscriptions(p: Producers, m: Message, c: Channel)
    ensures Subscriptions(Apply(p, m), c) == Effect(Subscriptions(p, c), m, c)
  {
  }

  function Outlook(l: Link, c: Channel): set<Group> {
    Drained(l.queue, Subscriptions(l.producers, c), c)
  }

  // ----- The invariant -----

  /** Who has subscribed since a producer was found empty, and not unsubscribed again. */
  ghost predicate EndingOk(l: Link) {
    forall g <- l.ending ::
      g in l.producers && forall c: Channel :: c in l.producers[g] <==> LastWord(l.ending[g], g, c) == Some(true)
  }

  /** Every relay is heading for exactly what it should know. */
  ghost predicate Tracked(s: State) {
    && (forall c <- s.consumers :: s.consumers[c].Sound())
    && (forall r <- s.links :: EndingOk(s.links[r]))
    && forall r, c: Channel :: r in s.links ==> Outlook(s.links[r], c) == s.Known(r, c)
  }

  lemma SentOutlook(l: Link, messages: seq<Message>, c: Channel)
    requires |messages| <= 1
    ensures Outlook(l.(queue := l.queue + messages), c)
            == if messages == [] then Outlook(l, c) else Effect(Outlook(l, c), messages[0], c)
  {
    if messages == [] {
      assert l.queue + messages == l.queue;
    } else {
      assert messages == [messages[0]];
      DrainedSnoc(l.queue, messages[0], Subscriptions(l.producers, c), c);
    }
  }

  /** What the consumer of a broadcast is told. */
  lemma ToldAfter(s: State, e: Event, r: nat)
    requires (e.Begin? || e.Finish? || e.Quit?) && e.Enabled(s) && s.Consumer(e.c).Sound()
    ensures Step(s, e).Consumer(e.c).Sound()
    ensures Step(s, e).Known(r, e.c)
            == if Sent(s, e) == [] then s.Known(r, e.c) else Effect(s.Known(r, e.c), Sent(s, e)[0], e.c)
  {
    if e.Begin? {
      var current := s.Consumer(e.c).session;
      assert current - (current - e.wanted) == current * e.wanted;
      assert current - e.wanted == {} ==> current * e.wanted == current;
    }
  }

  lemma OtherKnown(s: State, e: Event, r: nat, c: Channel)
    requires (e.Begin? || e.Finish? || e.Quit? || e.Malformed?) && e.Enabled(s) && e.c != c
    ensures Step(s, e).Known(r, c) == s.Known(r, c)
  {
  }

  lemma BroadcastTracked(s: State, e: Event, r: nat, c: Channel)
    requires Tracked(s) && (e.Begin? || e.Finish? || e.Quit?) && e.Enabled(s) && r in s.links
    ensures Outlook(Step(s, e).links[r], c) == Step(s, e).Known(r, c)
  {
    hide State.Known, Outlook, EndingOk;
    SentOutlook(s.links[r], Sent(s, e), c);
    assert Step(s, e).links[r] == s.links[r].(queue := s.links[r].queue + Sent(s, e));
    if c != e.c {
      OtherKnown(s, e, r, c);
    } else {
      ToldAfter(s, e, r);
    }
  }

  lemma ReceiveKeepsOutlook(l: Link, c: Channel)
    requires l.queue != []
    ensures Outlook(Take(l), c) == Outlook(l, c)
  {
    ApplySubscriptions(l.producers, l.queue[0], c);
  }

  lemma LastWordSnoc(messages: seq<Message>, m: Message, g: Group, c: Channel)
    ensures LastWord(messages + [m], g, c) == if Names(m, g, c) then Some(m.Subscribe?) else LastWord(messages, g, c)
  {
    assert (messages + [m])[..|messages|] == messages;
  }

  lemma ReceiveEnding(l: Link)
    requires l.queue != [] && EndingOk(l)
    ensures EndingOk(Take(l))
  {
    var m := l.queue[0];
    forall g, c: Channel | g in l.ending
      ensures c in Apply(l.producers, m)[g] <==> LastWord(l.ending[g] + [m], g, c) == Some(true)
    {
      LastWordSnoc(l.ending[g], m, g, c);
    }
  }

  /** After a removal the last words since the notice, and those still queued, decide. */
  lemma RemoveOutlook(l: Link, g: Group, c: Channel)
    requires EndingOk(l) && g in l.ending
    ensures var l' := Link(l.queue, l.producers - {g}, l.ending - {g});
            Outlook(l', c) == if Loses(l, g, c) then Outlook(l, c) - {g} else Outlook(l, c)
  {
    hide LastWord, Drained;
    var before, after := Subscriptions(l.producers, c), Subscriptions(l.producers - {g}, c);
    assert after == before - {g};
    forall x
      ensures x in Drained(l.queue, after, c) <==> x in Drained(l.queue, before, c) && !(x == g && Loses(l, g, c))
    {
      DrainedIsLastWord(l.queue, after, x, c);
      DrainedIsLastWord(l.queue, before, x, c);
    }
  }

  lemma {:induction false} LastWordIsSaid(messages: seq<Message>, g: Group, c: Channel)
    requires LastWord(messages, g, c) == Some(true)
    ensures exists m <- messages :: m.origin == c && m.Subscribe? && g in m.groups
  {
    var front, last := messages[..|messages| - 1], messages[|messages| - 1];
    assert last in messages;
    if !Names(last, g, c) {
      LastWordIsSaid(front, g, c);
    }
  }

  lemma RemoveTracked(s: State, r: nat, g: Group, c: Channel)
    requires Tracked(s) && Remove(r, g).Enabled(s)
    ensures var s' := Step(s, Remove(r, g)); Outlook(s'.links[r], c) == s'.Known(r, c)
  {
    hide Outlook, LastWord;
    var l := s.links[r];
    RemoveOutlook(l, g, c);
    if Loses(l, g, c) {
      LastWordIsSaid(l.ending[g], g, c);
    }
    assert (r, c, g) in Step(s, Remove(r, g)).missed <==> (r, c, g) in s.missed || Loses(l, g, c);
  }

  lemma JoinTracked(s: State, r: nat, c: Channel)
    requires Join(r).Enabled(s)
    ensures var s' := Step(s, Join(r)); Outlook(s'.links[r], c) == s'.Known(r, c)
  {
    var s' := Step(s, Join(r));
    assert Outlook(s'.links[r], c) == {};
  }

  lemma StepOutlook(s: State, e: Event, r: nat, c: Channel)
    requires Tracked(s) && e.Enabled(s) && r in Step(s, e).links
    ensures Outlook(Step(s, e).links[r], c) == Step(s, e).Known(r, c)
  {
    hide Outlook, EndingOk, Loses;
    match e
    case Begin(_, _) => BroadcastTracked(s, e, r, c);
    case Finish(_) => BroadcastTracked(s, e, r, c);
    case Quit(_) => BroadcastTracked(s, e, r, c);
    case Malformed(x) =>
      if c != x {
        OtherKnown(s, e, r, c);
      }
    case Join(x) =>
      if x == r {
        JoinTracked(s, r, c);
      }
    case Part(_) =>
    case Receive(x) =>
      if x == r {
        ReceiveKeepsOutlook(s.links[r], c);
      }
    case Notice(x, g) =>
      assert x == r ==> Outlook(Step(s, e).links[r], c) == Outlook(s.links[r], c) by { SameOutlook(s.links[r], c); }
    case Remove(x, g) =>
      if x == r {
        RemoveTracked(s, r, g, c);
      }
  }

  lemma SameOutlook(l: Link, c: Channel)
    ensures forall ending :: Outlook(l.(ending := ending), c) == Outlook(l, c)
  {
  }

  lemma StepEnding(s: State, e: Event, r: nat)
    requires Tracked(s) && e.Enabled(s) && r in Step(s, e).links
    ensures EndingOk(Step(s, e).links[r])
  {
    hide LastWord;
    if e == Receive(r) {
      ReceiveEnding(s.links[r]);
    } else if e.Notice? && e.relay == r {
      assert forall c: Channel :: LastWord([], e.group, c) == None by { NoWord(e.group); }
    }
  }

  lemma NoWord(g: Group)
    ensures forall c: Channel :: LastWord([], g, c) == None
  {
  }

  lemma StepSound(s: State, e: Event)
    requires Tracked(s) && e.Enabled(s)
    ensures forall c <- Step(s, e).consumers :: Step(s, e).consumers[c].Sound()
  {
    hide EndingOk, Outlook;
  }

  /** Every event keeps the relays heading for what they should know. */
  lemma StepTracked(s: State, e: Event)
    requires Tracked(s) && e.Enabled(s)
    ensures Tracked(Step(s, e))
  {
    hide Step, Event.Enabled, EndingOk, Outlook, State.Known, Consumer.Sound;
    StepSound(s, e);
    forall r | r in Step(s, e).links
      ensures EndingOk(Step(s, e).links[r])
    {
      StepEnding(s, e, r);
    }
    forall r, c: Channel | r in Step(s, e).links
      ensures Outlook(Step(s, e).links[r], c) == Step(s, e).Known(r, c)
    {
      StepOutlook(s, e, r, c);
    }
  }

  // ----- Runs -----

  ghost predicate IsRun(events: seq<Event>, states: seq<State>) {
    && |states| == |events| + 1 && states[0] == State(map[], map[], {})
    && forall k :: 0 <= k < |events| ==> events[k].Enabled(states[k]) && states[k + 1] == Step(states[k], events[k])
  }

  lemma {:induction false} RunTracked(events: seq<Event>, states: seq<State>, k: nat)
    requires IsRun(events, states) && k < |states|
    ensures Tracked(states[k])
    decreases k
  {
    hide Step, Event.Enabled;
    if k > 0 {
      RunTracked(events, states, k - 1);
      StepTracked(states[k - 1], events[k - 1]);
    }
  }

  /** In every run, at a relay whose queue is drained: a group has a producer with `c` among
      its subscribers if and only if the relays were told so and this one has not missed it. */
  lemma SubscriptionsTracked(events: seq<Event>, states: seq<State>, k: nat, r: nat, c: Channel, g: Group)
    requires IsRun(events, states) && k < |states| && r in states[k].links && states[k].links[r].queue == []
    ensures var p := states[k].links[r].producers;
            g in p && c in p[g] <==> g in states[k].Consumer(c).Told() && (r, c, g) !in states[k].missed
  {
    RunTracked(events, states, k);
    var p := states[k].links[r].producers;
    assert Outlook(states[k].links[r], c) == Subscriptions(p, c);
    assert g in Subscriptions(p, c) <==> g in p && c in p[g];
    assert g in states[k].Known(r, c) <==> g in states[k].Consumer(c).Told() && (r, c, g) !in states[k].missed;
  }

  /** The relay joins when `c` is in `g` already, or removes a producer `c` has subscribed to. */
  ghost predicate Disturbs(events: seq<Event>, states: seq<State>, i: nat, r: nat, c: Channel, g: Group)
    requires IsRun(events, states) && i < |events|
  {
    || (events[i] == Join(r) && c in states[i].consumers && g in states[i].consumers[c].Told())
    || (events[i] == Remove(r, g) && Loses(states[i].links[r], g, c))
  }

  /** `c` subscribes to `g`, or the relay goes. */
  ghost predicate Settles(events: seq<Event>, states: seq<State>, i: nat, r: nat, c: Channel, g: Group)
    requires IsRun(events, states) && i < |events|
  {
    (events[i] == Finish(c) && g in states[i].Consumer(c).wanted) || events[i] == Part(r)
  }

  /** A relay has missed a subscription exactly when it was disturbed and nothing has settled
      it since; any later request for the group does. */
  lemma {:induction false} MissedIff(events: seq<Event>, states: seq<State>, k: nat, r: nat, c: Channel, g: Group)
    requires IsRun(events, states) && k < |states|
    ensures (r, c, g) in states[k].missed <==>
            exists i: nat :: i < k && Disturbs(events, states, i, r, c, g)
                             && forall j: nat :: i < j < k ==> !Settles(events, states, j, r, c, g)
    decreases k
  {
    if k > 0 {
      hide Step, Event.Enabled, IsRun, Disturbs, Settles;
      MissedIff(events, states, k - 1, r, c, g);
      MissedStep(events, states, k - 1, r, c, g);
      if Disturbs(events, states, k - 1, r, c, g) {
        assert (r, c, g) in states[k].missed;
      }
    }
  }

  lemma MissedStep(events: seq<Event>, states: seq<State>, k: nat, r: nat, c: Channel, g: Group)
    requires IsRun(events, states) && k < |events|
    ensures Disturbs(events, states, k, r, c, g) ==> (r, c, g) in states[k + 1].missed
    ensures Settles(events, states, k, r, c, g) ==> (r, c, g) !in states[k + 1].missed
    ensures !Disturbs(events, states, k, r, c, g) && !Settles(events, states, k, r, c, g) ==>
              ((r, c, g) in states[k + 1].missed <==> (r, c, g) in states[k].missed)
  {
    hide LastWord;
    if events[k] == Remove(r, g) && Loses(states[k].links[r], g, c) {
      LastWordIsSaid(states[k].links[r].ending[g], g, c);
    }
  }

  // ----- Late removals -----

  /** The messages that arrive at a relay from `i` on, before `k`. */
  ghost function Arrived(events: seq<Event>, states: seq<State>, i: nat, k: nat, r: nat): seq<Message>
    requires IsRun(events, states) && k <= |events|
    decreases k
  {
    if k <= i then []
    else Arrived(events, states, i, k - 1, r)
         + if events[k - 1] == Receive(r) then [states[k - 1].links[r].queue[0]] else []
  }

  /** Since the event at `i` the producer of `g` has been ending. */
  ghost predicate NoticedAt(events: seq<Event>, states: seq<State>, i: nat, k: nat, r: nat, g: Group)
    requires IsRun(events, states)
  {
    && i < k <= |events| && events[i] == Notice(r, g)
    && forall j :: i < j < k ==> events[j] != Remove(r, g) && events[j] != Part(r)
  }

  lemma {:induction false} NoticeBefore(events: seq<Event>, states: seq<State>, k: nat, r: nat, g: Group) returns (i: nat)
    requires IsRun(events, states) && k <= |events| && r in states[k].links && g in states[k].links[r].ending
    ensures NoticedAt(events, states, i, k, r, g)
    ensures states[k].links[r].ending[g] == Arrived(events, states, i + 1, k, r)
    decreases k
  {
    hide Step, Event.Enabled;
    EndingStep(events, states, k - 1, r, g);
    if events[k - 1] == Notice(r, g) {
      i := k - 1;
    } else {
      i := NoticeBefore(events, states, k - 1, r, g);
    }
  }

  lemma EndingStep(events: seq<Event>, states: seq<State>, k: int, r: nat, g: Group)
    requires IsRun(events, states) && -1 <= k < |events| && r in states[k + 1].links && g in states[k + 1].links[r].ending
    ensures k >= 0 && events[k] != Remove(r, g) && events[k] != Part(r)
    ensures events[k] == Notice(r, g) ==> states[k + 1].links[r].ending[g] == []
    ensures events[k] != Notice(r, g) ==>
              && r in states[k].links && g in states[k].links[r].ending
              && states[k + 1].links[r].ending[g] == states[k].links[r].ending[g]
                   + if events[k] == Receive(r) then [states[k].links[r].queue[0]] else []
  {
  }

  /** In every run, the removal of a producer changes what the relay is heading for exactly by
      those whose last word about the group, among the messages that arrived since the producer
      was found empty, was to subscribe, and about whom nothing more is queued. */
  lemma RemovalLosesIff(events: seq<Event>, states: seq<State>, k: nat, r: nat, g: Group, c: Channel) returns (i: nat)
    requires IsRun(events, states) && k < |events| && events[k] == Remove(r, g)
    ensures NoticedAt(events, states, i, k, r, g) && r in states[k].links && r in states[k + 1].links
    ensures var before, after := Outlook(states[k].links[r], c), Outlook(states[k + 1].links[r], c);
            && after == before - (if g in after then {} else {g})
            && (g in before && g !in after <==>
                && LastWord(Arrived(events, states, i + 1, k, r), g, c) == Some(true)
                && LastWord(states[k].links[r].queue, g, c) == None)
  {
    hide LastWord, Outlook;
    i := NoticeBefore(events, states, k, r, g);
    RunTracked(events, states, k);
    var l := states[k].links[r];
    RemoveOutlook(l, g, c);
    if Loses(l, g, c) {
      assert g in Subscriptions(l.producers, c);
      KeptWithoutWord(l, g, c);
    }
  }

  lemma KeptWithoutWord(l: Link, g: Group, c: Channel)
    requires g in Subscriptions(l.producers, c) && LastWord(l.queue, g, c) == None
    ensures g in Outlook(l, c)
  {
    DrainedIsLastWord(l.queue, Subscriptions(l.producers, c), g, c);
  }

  /** So nobody loses anything if no request for the group has arrived since. */
  lemma NoLateSubscription(l: Link, g: Group, c: Channel)
    requires g in l.ending && forall m <- l.ending[g] :: m.Subscribe? ==> g !in m.groups
    ensures !Loses(l, g, c)
  {
    if Loses(l, g, c) {
      LastWordIsSaid(l.ending[g], g, c);
    }
  }

  // ----- Malformed requests -----

  /** What is left over are the groups of the sessions that malformed requests have ended, as
      far as they have not been asked for again. */
  ghost predicate Forgets(events: seq<Event>, states: seq<State>, i: nat, c: Channel, g: Group)
    requires IsRun(events, states) && i < |events|
  {
    events[i] == Malformed(c) && g in states[i].Consumer(c).session
  }

  ghost predicate AsksAgain(events: seq<Event>, states: seq<State>, i: nat, c: Channel, g: Group)
    requires IsRun(events, states) && i < |events|
  {
    events[i] == Finish(c) && g in states[i].Consumer(c).wanted
  }

  lemma {:induction false} LeftoverIff(events: seq<Event>, states: seq<State>, k: nat, c: Channel, g: Group)
    requires IsRun(events, states) && k < |states|
    ensures g in states[k].Consumer(c).leftover <==>
            exists i: nat :: i < k && Forgets(events, states, i, c, g)
                             && forall j: nat :: i < j < k ==> !AsksAgain(events, states, j, c, g)
    decreases k
  {
    if k > 0 {
      LeftoverIff(events, states, k - 1, c, g);
      LeftoverStep(events, states, k - 1, c, g);
      hide Step, Event.Enabled, IsRun, Forgets, AsksAgain;
      if Forgets(events, states, k - 1, c, g) {
        assert g in states[k].Consumer(c).leftover;
      }
    }
  }

  lemma LeftoverStep(events: seq<Event>, states: seq<State>, k: nat, c: Channel, g: Group)
    requires IsRun(events, states) && k < |events|
    ensures Forgets(events, states, k, c, g) ==> g in states[k + 1].Consumer(c).leftover
    ensures AsksAgain(events, states, k, c, g) ==> g !in states[k + 1].Consumer(c).leftover
    ensures !Forgets(events, states, k, c, g) && !AsksAgain(events, states, k, c, g) ==>
              (g in states[k + 1].Consumer(c).leftover <==> g in states[k].Consumer(c).leftover)
  {
  }

  /** Between requests a relay that has missed nothing is heading for the consumer's session if
      and only if no malformed request has left anything over. */
  lemma MalformedLosesTrack(events: seq<Event>, states: seq<State>, k: nat, r: nat, c: Channel)
    requires IsRun(events, states) && k < |states| && r in states[k].links && states[k].Consumer(c).Idle?
    requires forall g :: (r, c, g) !in states[k].missed
    ensures Outlook(states[k].links[r], c) == states[k].Consumer(c).session <==> states[k].Consumer(c).leftover == {}
  {
    RunTracked(events, states, k);
    var x := states[k].Consumer(c);
    assert states[k].Known(r, c) == x.Told();
    assert x.Sound();
    assert x.session + x.leftover == x.session <==> x.leftover == {} by {
      if g :| g in x.leftover {
        assert g in x.session + x.leftover && g !in x.session;
      }
    }
  }

  /** A farewell behind a malformed request unsubscribes nothing. */
  lemma FarewellLeaves(s: State, r: nat, c: Channel)
    requires Tracked(s) && Malformed(c).Enabled(s) && r in s.links
    ensures var s' := Step(Step(s, Malformed(c)), Quit(c));
            Outlook(s'.links[r], c) == Outlook(s.links[r], c) && s'.Consumer(c).Told() == s.Consumer(c).Told()
  {
    var s' := Step(s, Malformed(c));
    StepTracked(s, Malformed(c));
    StepTracked(s', Quit(c));
    assert s'.Consumer(c).session == {};
    assert Step(s', Quit(c)).Known(r, c) == s.Known(r, c);
  }

  /** And as long as a group is left over, a relay that knows of it keeps its producer. */
  lemma LeftoverHoldsProducer(events: seq<Event>, states: seq<State>, k: nat, r: nat, c: Channel, g: Group)
    requires IsRun(events, states) && k < |states| && r in states[k].links && states[k].links[r].queue == []
    requires g in states[k].Consumer(c).leftover && (r, c, g) !in states[k].missed
    ensures g in states[k].links[r].producers && !Notice(r, g).Enabled(states[k])
  {
    SubscriptionsTracked(events, states, k, r, c, g);
  }

  // ----- The loss happens -----

  ghost predicate Follows(s: State, e: Event, s': State) {
    e.Enabled(s) && s' == Step(s, e)
  }

  lemma OneLink(l: Link, messages: seq<Message>)
    ensures Broadcast(map[0 := l], messages) == map[0 := l.(queue := l.queue + messages)]
  {
    assert Broadcast(map[0 := l], messages).Keys == map[0 := l].Keys;
  }

  lemma OneGroup(p: Producers, g: Group, c: Channel)
    requires p == map[] || p == map[g := {}]
    ensures Apply(p, Subscribe({g}, c)) == map[g := {c}] && Apply(map[g := {c}], Unsubscribe({g}, c)) == map[g := {}]
  {
    var on, off := Apply(p, Subscribe({g}, c)), Apply(map[g := {c}], Unsubscribe({g}, c));
    assert on.Keys == {g} && off.Keys == {g};
    assert {} + {c} == {c} && {c} - {c} == {};
    assert on[g] == {c} && off[g] == {};
    assert on == map[g := {c}] && off == map[g := {}];
  }

  /** A consumer that is in no group asks for one. */
  lemma Visit(m: map<Channel, Consumer>, c: Channel, g: Group, l: Link)
    requires (c in m ==> m[c] == Idle({}, {})) && l.queue == []
    ensures var mid, there := m[c := Midway({}, {g}, {})], m[c := Idle({g}, {})];
            && Follows(State(m, map[0 := l], {}), Begin(c, {g}), State(mid, map[0 := l], {}))
            && Follows(State(mid, map[0 := l], {}), Finish(c),
                       State(there, map[0 := l.(queue := [Subscribe({g}, c)])], {}))
  {
    var on := Subscribe({g}, c);
    OneLink(l, []);
    OneLink(l, [on]);
    assert [] + [on] == [on];
    assert Farewell({}, {g}, c) == [];
    assert {} * {g} == {} && {} - {g} == {};
  }

  /** The relay hears of it. */
  lemma Hear(m: map<Channel, Consumer>, c: Channel, g: Group, p: Producers, ending: map<Group, seq<Message>>)
    requires (forall x <- ending :: ending[x] == []) && Apply(p, Subscribe({g}, c)) == map[g := {c}]
    ensures var on := Subscribe({g}, c);
            Follows(State(m, map[0 := Link([on], p, ending)], {}), Receive(0),
                    State(m, map[0 := Link([], map[g := {c}], map x <- ending :: [on])], {}))
  {
    hide LastWord, Apply, Take;
    TakeOnly(Subscribe({g}, c), p, ending);
  }

  lemma TakeOnly(m: Message, p: Producers, ending: map<Group, seq<Message>>)
    requires forall x <- ending :: ending[x] == []
    ensures Take(Link([m], p, ending)) == Link([], Apply(p, m), map x <- ending :: [m])
  {
    hide LastWord, Apply;
    assert [m][1..] == [];
    var after := Take(Link([m], p, ending)).ending;
    forall x | x in ending
      ensures after[x] == [m]
    {
      assert ending[x] == [] && [] + [m] == [m];
    }
    assert after == (map x <- ending :: [m]);
  }

  /** It leaves, and the producer is found empty. */
  lemma LeaveAgain(c: Channel, g: Group)
    ensures var out, there, off := map[c := Idle({}, {})], map[c := Idle({g}, {})], Unsubscribe({g}, c);
            && Follows(State(there, map[0 := Link([], map[g := {c}], map[])], {}), Quit(c),
                       State(out, map[0 := Link([off], map[g := {c}], map[])], {}))
            && Follows(State(out, map[0 := Link([off], map[g := {c}], map[])], {}), Receive(0),
                       State(out, map[0 := Link([], map[g := {}], map[])], {}))
            && Follows(State(out, map[0 := Link([], map[g := {}], map[])], {}), Notice(0, g),
                       State(out, map[0 := Link([], map[g := {}], map[g := []])], {}))
  {
    var off := Unsubscribe({g}, c);
    OneLink(Link([], map[g := {c}], map[]), [off]);
    assert [] + [off] == [off] && [off][1..] == [];
    OneGroup(map[], g, c);
  }

  lemma TakenAway(c: Channel, g: Group)
    ensures var there, on := map[c := Idle({g}, {})], Subscribe({g}, c);
            Follows(State(there, map[0 := Link([], map[g := {c}], map[g := [on]])], {}), Remove(0, g),
                    State(there, map[0 := Link([], map[], map[])], {(0, c, g)}))
  {
    var on := Subscribe({g}, c);
    var l := Link([], map[g := {c}], map[g := [on]]);
    assert l.producers - {g} == map[] && l.ending - {g} == map[];
    assert [on][..0] == [];
    assert Loses(l, g, c);
    assert (set m <- [on] | Loses(l, g, m.origin) :: (0 as nat, m.origin, g)) == {(0, c, g)} by {
      assert on in [on];
    }
  }

  /** A run goes on. */
  lemma Extend(events: seq<Event>, states: seq<State>, e: Event, s: State) returns (events': seq<Event>, states': seq<State>)
    requires IsRun(events, states) && Follows(states[|events|], e, s)
    ensures IsRun(events', states') && |events'| > 0 && events'[|events'| - 1] == e && states'[|events'|] == s
  {
    hide Step, Event.Enabled;
    events', states' := events + [e], states + [s];
  }

  /** A consumer comes and goes, and the producer is found empty. */
  lemma FoundEmpty(c: Channel, g: Group) returns (events: seq<Event>, states: seq<State>)
    ensures IsRun(events, states)
    ensures states[|events|] == State(map[c := Idle({}, {})], map[0 := Link([], map[g := {}], map[g := []])], {})
  {
    hide Step, Event.Enabled, Follows, IsRun, Apply;
    var on, off := Subscribe({g}, c), Unsubscribe({g}, c);
    var out, mid, there := map[c := Idle({}, {})], map[c := Midway({}, {g}, {})], map[c := Idle({g}, {})];
    assert map[][c := Midway({}, {g}, {})] == mid && map[][c := Idle({g}, {})] == there;
    events, states := [], [State(map[], map[], {})];
    FirstJoin();
    events, states := Extend(events, states, Join(0), State(map[], map[0 := Link([], map[], map[])], {}));
    Visit(map[], c, g, Link([], map[], map[]));
    events, states := Extend(events, states, Begin(c, {g}), State(mid, map[0 := Link([], map[], map[])], {}));
    events, states := Extend(events, states, Finish(c), State(there, map[0 := Link([on], map[], map[])], {}));
    OneGroup(map[], g, c);
    Hear(there, c, g, map[], map[]);
    events, states := Extend(events, states, Receive(0), State(there, map[0 := Link([], map[g := {c}], map[])], {}));
    LeaveAgain(c, g);
    events, states := Extend(events, states, Quit(c), State(out, map[0 := Link([off], map[g := {c}], map[])], {}));
    events, states := Extend(events, states, Receive(0), State(out, map[0 := Link([], map[g := {}], map[])], {}));
    events, states := Extend(events, states, Notice(0, g), State(out, map[0 := Link([], map[g := {}], map[g := []])], {}));
  }

  /** It comes again, and then the producer is removed. */
  lemma SubscriptionCanBeLost(c: Channel, g: Group) returns (events: seq<Event>, states: seq<State>)
    ensures IsRun(events, states) && |events| > 0 && events[|events| - 1] == Remove(0, g)
    ensures var s := states[|events|];
            s.consumers == map[c := Idle({g}, {})] && s.links == map[0 := Link([], map[], map[])]
  {
    hide Step, Event.Enabled, Follows, IsRun, Apply;
    var on := Subscribe({g}, c);
    var out, mid, there := map[c := Idle({}, {})], map[c := Midway({}, {g}, {})], map[c := Idle({g}, {})];
    var ending: map<Group, seq<Message>> := map[g := []];
    assert out[c := Midway({}, {g}, {})] == mid && out[c := Idle({g}, {})] == there;
    assert (map x <- ending :: [on]) == map[g := [on]];
    events, states := FoundEmpty(c, g);
    Visit(out, c, g, Link([], map[g := {}], ending));
    events, states := Extend(events, states, Begin(c, {g}), State(mid, map[0 := Link([], map[g := {}], ending)], {}));
    events, states := Extend(events, states, Finish(c), State(there, map[0 := Link([on], map[g := {}], ending)], {}));
    OneGroup(map[g := {}], g, c);
    Hear(there, c, g, map[g := {}], ending);
    events, states := Extend(events, states, Receive(0), State(there, map[0 := Link([], map[g := {c}], map[g := [on]])], {}));
    TakenAway(c, g);
    events, states := Extend(events, states, Remove(0, g), State(there, map[0 := Link([], map[], map[])], {(0, c, g)}));
  }

  lemma FirstJoin()
    ensures IsRun([], [State(map[], map[], {})])
    ensures Follows(State(map[], map[], {}), Join(0), State(map[], map[0 := Link([], map[], map[])], {}))
  {
  }
}
