/**
 The relay manager reconciles the web hosts that announce themselves with the relay
 connections it keeps (forail/main/wsrelay.py:214-366).
 */
module RelayManager {

  import opened Options

  /** A heartbeat need not carry a host name; the key it is stored under is then None. */
  type Host = Option<string>

  datatype Connection = Connection(remoteHost: string, connected: bool)

  datatype Action = Online | Offline | Other
  datatype Heartbeat = Heartbeat(hostname: Host, ip: Option<string>, action: Action) {
    /** The supplied address, or the host name when none is supplied. */
    function Address(): Option<string> {
      if ip.Some? && ip.value != "" then ip else hostname
    }
  }

  /** `leaving` is the host whose offline heartbeat is being handled: the handler has cancelled
      its connection and waits for it to end. */
  datatype State = State(known: map<Host, string>, connections: map<Host, Connection>, leaving: Option<Host>) {
    /** A known host that is connected under another address. */
    predicate Moved(h: Host) {
      h in known && h in connections && known[h] != connections[h].remoteHost
    }

    /** A host whose connection has closed, or was never established. */
    predicate Closed(h: Host) {
      h in connections && !connections[h].connected
    }

    ghost predicate InStep() {
      known.Keys == connections.Keys && forall h <- known :: connections[h].remoteHost == known[h]
    }
  }

  function Cleanup(s: State, hosts: set<Host>): State {
    s.(known := s.known - hosts, connections := s.connections - hosts)
  }

  /** One heartbeat.  One that says that a connected host goes offline only begins a cleanup. */
  function Beat(s: State, local: string, beat: Heartbeat): State {
    if beat.hostname == Some(local) || beat.action.Other? || beat.Address().None? then s
    else if beat.action.Online? then s.(known := s.known[beat.hostname := beat.Address().value])
    else if beat.hostname in s.connections then s.(leaving := Some(beat.hostname))
    else s.(known := s.known - {beat.hostname})
  }

  /** The cleanup a heartbeat has begun ends.  If the connection has gone meanwhile, its second
      deletion is an error, which is logged, and the rest is skipped. */
  function Leave(s: State): State
    requires s.leaving.Some?
  {
    (if s.leaving.value in s.connections then Cleanup(s, {s.leaving.value}) else s).(leaving := None)
  }

  /** The hosts a round takes down. */
  function Doomed(s: State): set<Host> {
    (set h <- s.connections | h !in s.known || s.Moved(h) || s.Closed(h))
  }

  /** The hosts it brings up. */
  function Added(s: State): set<Host> {
    (s.known.Keys - s.connections.Keys) + set h <- s.known | s.Moved(h)
  }

  /** While a round waits for its connections to end, it finishes the cleanup of one host after
      the other, heartbeats are heard, and a cleanup that a heartbeat has begun may end. */
  datatype News = Cleaned(host: Host) | Heard(beat: Heartbeat) | Left

  function Learn(s: State, local: string, n: News): State {
    match n
    case Cleaned(h) => Cleanup(s, {h})
    case Heard(beat) => Beat(s, local, beat)
    case Left => if s.leaving.Some? then Leave(s) else s
  }

  function LearnAll(s: State, local: string, news: seq<News>): State
    decreases |news|
  {
    if news == [] then s else Learn(LearnAll(s, local, news[..|news| - 1]), local, news[|news| - 1])
  }

  /** The state before news number `i`. */
  function Before(s: State, local: string, news: seq<News>, i: nat): State
    requires i <= |news|
  {
    LearnAll(s, local, news[..i])
  }

  lemma LearnNext(s: State, local: string, news: seq<News>, i: nat)
    requires i < |news|
    ensures Before(s, local, news, 0) == s && Before(s, local, news, |news|) == LearnAll(s, local, news)
    ensures Before(s, local, news, i + 1) == Learn(Before(s, local, news, i), local, news[i])
  {
    assert news[..i + 1][..i] == news[..i] && news[..|news|] == news;
  }

  /** In the round, the second deletion of a connection is an error, too, and nobody handles it. */
  ghost predicate Breaks(s: State, local: string, news: seq<News>) {
    exists i :: BreaksAt(s, local, news, i)
  }

  predicate BreaksAt(s: State, local: string, news: seq<News>, i: int) {
    0 <= i < |news| && news[i].Cleaned? && news[i].host !in Before(s, local, news, i).connections
  }

  /** What one piece of news says about `h` in state `s`: nothing, to forget it, or an address. */
  function Says(s: State, local: string, n: News, h: Host): Option<Option<string>> {
    match n
    case Cleaned(x) => if x == h then Some(None) else None
    case Left => if s.leaving == Some(h) && h in s.connections then Some(None) else None
    case Heard(beat) =>
      if beat.hostname != h || h == Some(local) || beat.action.Other? || beat.Address().None? then None
      else if beat.action.Online? then Some(beat.Address())
      else if h in s.connections then None
      else Some(None)
  }

  /** The last of it that says something. */
  function LastNews(s: State, local: string, news: seq<News>, h: Host): Option<Option<string>>
    decreases |news|
  {
    if news == [] then None
    else
      var n := |news| - 1;
      var last := Says(LearnAll(s, local, news[..n]), local, news[n], h);
      if last.Some? then last else LastNews(s, local, news[..n], h)
  }

  function Address(known: map<Host, string>, h: Host): Option<string> {
    if h in known then Some(known[h]) else None
  }

  /** The address of a host is the last one heard, unless it has been forgotten since. */
  lemma {:induction false} LastNewsCounts(s: State, local: string, news: seq<News>, h: Host)
    ensures var last := LastNews(s, local, news, h);
            Address(LearnAll(s, local, news).known, h) == if last.Some? then last.value else Address(s.known, h)
    decreases |news|
  {
    hide Says, Learn;
    if news != [] {
      var n := |news| - 1;
      LastNewsCounts(s, local, news[..n], h);
      SaysCounts(LearnAll(s, local, news[..n]), local, news[n], h);
    }
  }

  lemma SaysCounts(s: State, local: string, n: News, h: Host)
    ensures var said := Says(s, local, n, h);
            Address(Learn(s, local, n).known, h) == if said.Some? then said.value else Address(s.known, h)
  {
  }

  /** A round cleans up the hosts it takes down, each once; if there is none it does not wait. */
  ghost predicate CleansUp(s: State, news: seq<News>) {
    && (forall n <- news :: n.Cleaned? ==> n.host in Doomed(s))
    && (forall h <- Doomed(s) :: Cleaned(h) in news)
    && (forall i, j :: 0 <= i < j < |news| && news[i].Cleaned? ==> news[i] != news[j])
    && (Doomed(s) == {} ==> news == [])
  }

  /** The cleanup of news number `i` was begun by a heartbeat before the round. */
  predicate Pending(s: State, news: seq<News>, i: nat)
    requires i <= |news|
  {
    s.leaving.Some? && Left !in news[..i]
  }

  /** Heartbeats are handled one at a time; and of two that wait for the same connection, the one
      that began first goes on first. */
  ghost predicate Timely(s: State, local: string, news: seq<News>) {
    && (forall i :: 0 <= i < |news| && news[i].Heard? ==> Before(s, local, news, i).leaving.None?)
    && (forall i :: 0 <= i < |news| && news[i].Left? ==> Before(s, local, news, i).leaving.Some?)
    && (forall i :: 0 <= i < |news| && news[i].Cleaned? && s.leaving == Some(news[i].host) ==> !Pending(s, news, i))
    && (forall i, h :: 0 <= i < |news| && news[i].Left? && Before(s, local, news, i).leaving == Some(h) && h in Doomed(s)
          ==> Pending(s, news, i) || Cleaned(h) in news[..i])
  }

  /** Until it ends, the heartbeat's cleanup keeps the handler busy. */
  lemma {:induction false} PendingStays(s: State, local: string, news: seq<News>, i: nat)
    requires Timely(s, local, news) && i <= |news| && Pending(s, news, i)
    ensures Before(s, local, news, i).leaving == s.leaving
    decreases i
  {
    hide Learn, LearnAll;
    if i == 0 {
      assert news[..0] == [];
      LearnNothing(s, local);
    } else {
      assert news[..i] == news[..i - 1] + [news[i - 1]];
      PendingStays(s, local, news, i - 1);
      LearnNext(s, local, news, i - 1);
      LeavingKept(Before(s, local, news, i - 1), local, news[i - 1]);
    }
  }

  lemma LeavingKept(s: State, local: string, n: News)
    ensures n.Cleaned? ==> Learn(s, local, n).leaving == s.leaving
  {
  }

  /** News number `i` takes the connection of `h` away, if there still is one. */
  predicate Removes(s: State, local: string, news: seq<News>, h: Host, i: nat)
    requires i < |news|
  {
    news[i] == Cleaned(h) || (news[i].Left? && Before(s, local, news, i).leaving == Some(h))
  }

  lemma {:induction false} StillConnected(s: State, local: string, news: seq<News>, h: Host, i: nat)
    requires i <= |news| && h in s.connections
    ensures h in Before(s, local, news, i).connections <==> forall j: nat :: j < i ==> !Removes(s, local, news, h, j)
    decreases i
  {
    hide LearnAll;
    if i == 0 {
      assert news[..0] == [];
      LearnNothing(s, local);
    } else {
      StillConnected(s, local, news, h, i - 1);
      LearnNext(s, local, news, i - 1);
      LearnRemoves(Before(s, local, news, i - 1), local, news[i - 1], h);
      var now, n := Before(s, local, news, i - 1), news[i - 1];
      assert Removes(s, local, news, h, i - 1) <==> n == Cleaned(h) || (n.Left? && now.leaving == Some(h));
      if h in Before(s, local, news, i).connections {
        forall j: nat | j < i
          ensures !Removes(s, local, news, h, j)
        {
          assert j < i - 1 || j == i - 1;
        }
      }
    }
  }

  lemma LearnRemoves(s: State, local: string, n: News, h: Host)
    ensures h in Learn(s, local, n).connections <==>
              h in s.connections && !(n == Cleaned(h) || (n.Left? && s.leaving == Some(h)))
  {
  }

  /** The cleanup of a round breaks exactly if, when the round decides, the handler of heartbeats
      is still cleaning up one of the hosts the round takes down. */
  lemma BreaksIff(s: State, local: string, news: seq<News>)
    requires CleansUp(s, news) && Timely(s, local, news)
    ensures Breaks(s, local, news) <==> s.leaving.Some? && s.leaving.value in Doomed(s)
  {
    hide LearnAll, Before;
    if i: nat :| BreaksAt(s, local, news, i) {
      BreaksForPending(s, local, news, i);
    }
    if s.leaving.Some? && s.leaving.value in Doomed(s) {
      PendingBreaks(s, local, news, s.leaving.value);
    }
  }

  lemma BreaksForPending(s: State, local: string, news: seq<News>, i: nat)
    requires CleansUp(s, news) && Timely(s, local, news) && BreaksAt(s, local, news, i)
    ensures s.leaving == Some(news[i].host) && news[i].host in Doomed(s)
  {
    hide LearnAll, Before;
    var h := news[i].host;
    assert news[i] in news;
    StillConnected(s, local, news, h, i);
    var j: nat :| j < i && Removes(s, local, news, h, j);
    assert news[j] != Cleaned(h);
    assert forall l :: 0 <= l < j ==> news[l] != Cleaned(h);
    PendingStays(s, local, news, j);
  }

  lemma PendingBreaks(s: State, local: string, news: seq<News>, h: Host)
    requires CleansUp(s, news) && Timely(s, local, news) && s.leaving == Some(h) && h in Doomed(s)
    ensures Breaks(s, local, news)
  {
    hide LearnAll, Before;
    assert Cleaned(h) in news;
    var i :| 0 <= i < |news| && news[i] == Cleaned(h);
    var j := FirstLeft(news[..i]);
    assert news[..i][..j] == news[..j] && news[j] == news[..i][j];
    PendingStays(s, local, news, j);
    assert Removes(s, local, news, h, j);
    StillConnected(s, local, news, h, i);
    assert BreaksAt(s, local, news, i);
  }

  lemma {:induction false} FirstLeft(news: seq<News>) returns (j: nat)
    requires Left in news
    ensures j < |news| && news[j].Left? && Left !in news[..j]
    decreases |news|
  {
    var front := news[..|news| - 1];
    if Left in front {
      j := FirstLeft(front);
      assert front[..j] == news[..j];
    } else {
      j := |news| - 1;
      assert news == front + [news[j]];
    }
  }

  lemma LearnNothing(s: State, local: string)
    ensures LearnAll(s, local, []) == s
  {
  }

  /** Every host a round brings up is still known, or known again. */
  ghost predicate GoesThrough(s: State, local: string, news: seq<News>) {
    forall h <- Added(s) :: LastNews(s, local, news, h) != Some(None)
  }

  function RoundResult(s: State, local: string, news: seq<News>): State
    requires Added(s) <= LearnAll(s, local, news).known.Keys
  {
    var now := LearnAll(s, local, news);
    now.(connections := now.connections + Fresh(Added(s), now.known))
  }

  lemma GoesThroughIff(s: State, local: string, news: seq<News>)
    ensures GoesThrough(s, local, news) <==> Added(s) <= LearnAll(s, local, news).known.Keys
  {
    forall h <- Added(s)
      ensures LastNews(s, local, news, h) != Some(None) <==> h in LearnAll(s, local, news).known
    {
      LastNewsCounts(s, local, news, h);
    }
  }

  ghost predicate Quiet(news: seq<News>) {
    forall n <- news :: n.Cleaned?
  }

  lemma {:induction false} QuietNews(s: State, local: string, news: seq<News>, h: Host)
    requires Quiet(news)
    ensures LastNews(s, local, news, h) == if Cleaned(h) in news then Some(None) else None
    ensures LearnAll(s, local, news) == Cleanup(s, set n <- news :: n.host)
    decreases |news|
  {
    hide Says, Learn, Cleanup;
    if news == [] {
      CleanupNone(s);
      assert (set n <- news :: n.host) == {};
    } else {
      var front, last := news[..|news| - 1], news[|news| - 1];
      assert news == front + [last];
      QuietNews(s, local, front, h);
      var hosts := set n <- front :: n.host;
      assert (set n <- news :: n.host) == hosts + {last.host};
      QuietStep(Cleanup(s, hosts), local, last.host, h);
      CleanupMore(s, hosts, last.host);
    }
  }

  lemma QuietStep(s: State, local: string, x: Host, h: Host)
    ensures Says(s, local, Cleaned(x), h) == if x == h then Some(None) else None
    ensures Learn(s, local, Cleaned(x)) == Cleanup(s, {x})
  {
  }

  lemma CleanupNone(s: State)
    ensures Cleanup(s, {}) == s
  {
  }

  lemma CleanupMore(s: State, hosts: set<Host>, x: Host)
    ensures Cleanup(Cleanup(s, hosts), {x}) == Cleanup(s, hosts + {x})
  {
  }

  /** Without heartbeats in between, a round fails exactly when some host has announced a new
      address while it was connected under an old one: the cleanup makes the manager forget the
      address it is about to connect to.  Otherwise it leaves hosts and connections in step. */
  lemma QuietRound(s: State, local: string, news: seq<News>)
    requires CleansUp(s, news) && Quiet(news)
    ensures GoesThrough(s, local, news) <==> forall h <- s.known :: !s.Moved(h)
    ensures GoesThrough(s, local, news) ==>
              Added(s) <= LearnAll(s, local, news).known.Keys && RoundResult(s, local, news) == Settled(s)
  {
    hide LastNews, LearnAll, Doomed, Added, Settled, State.Moved;
    forall h: Host
      ensures LastNews(s, local, news, h) == Some(None) <==> h in Doomed(s)
    {
      QuietNews(s, local, news, h);
    }
    MovedAreBoth(s);
    if GoesThrough(s, local, news) {
      QuietNews(s, local, news, Some(local));
      assert (set n <- news :: n.host) == Doomed(s);
      SettledIsConnected(s);
    }
  }

  lemma MovedAreBoth(s: State)
    ensures (forall h <- Added(s) :: h !in Doomed(s)) <==> forall h <- s.known :: !s.Moved(h)
  {
    assert forall h <- s.known :: s.Moved(h) ==> h in Added(s) && h in Doomed(s);
    assert forall h <- Added(s) :: h in Doomed(s) ==> s.Moved(h);
  }

  lemma SettledIsConnected(s: State)
    requires forall h <- s.known :: !s.Moved(h)
    ensures var now := Cleanup(s, Doomed(s));
            Added(s) <= now.known.Keys && now.(connections := now.connections + Fresh(Added(s), now.known)) == Settled(s)
  {
    SettledInStep(s);
    assert Added(s) == s.known.Keys - s.connections.Keys;
  }

  function SaysAt(s: State, local: string, news: seq<News>, h: Host, i: nat): Option<Option<string>>
    requires i < |news|
  {
    Says(Before(s, local, news, i), local, news[i], h)
  }

  lemma {:induction false} WhoSaysLast(s: State, local: string, news: seq<News>, h: Host) returns (j: nat)
    requires LastNews(s, local, news, h).Some?
    ensures j < |news| && SaysAt(s, local, news, h, j) == LastNews(s, local, news, h)
    ensures forall l :: j < l < |news| ==> SaysAt(s, local, news, h, l).None?
    decreases |news|
  {
    hide LearnAll, Says;
    var n := |news| - 1;
    if SaysAt(s, local, news, h, n).Some? {
      j := n;
    } else {
      var front := news[..n];
      j := WhoSaysLast(s, local, front, h);
      forall l: nat | l < n
        ensures SaysAt(s, local, front, h, l) == SaysAt(s, local, news, h, l)
      {
        assert front[..l] == news[..l];
      }
    }
  }

  lemma {:induction false} SaysSome(s: State, local: string, news: seq<News>, h: Host, i: nat)
    requires i < |news| && SaysAt(s, local, news, h, i).Some?
    ensures LastNews(s, local, news, h).Some?
    decreases |news|
  {
    hide LearnAll, Says;
    var n := |news| - 1;
    if SaysAt(s, local, news, h, n).None? {
      assert news[..n][..i] == news[..i];
      SaysSome(s, local, news[..n], h, i);
    }
  }

  /** A host that has moved is connected only if it announces itself again after it has been
      cleaned up. */
  lemma MovedComesBack(s: State, local: string, news: seq<News>, h: Host)
    requires CleansUp(s, news) && s.Moved(h) && LastNews(s, local, news, h) != Some(None)
    ensures exists i, j :: 0 <= i < j < |news| && news[i] == Cleaned(h) && news[j].Heard?
                           && SaysAt(s, local, news, h, j) == LastNews(s, local, news, h)
  {
    hide LastNews, LearnAll;
    assert Cleaned(h) in news;
    var i :| 0 <= i < |news| && news[i] == Cleaned(h);
    assert SaysAt(s, local, news, h, i) == Some(None);
    SaysSome(s, local, news, h, i);
    var j := WhoSaysLast(s, local, news, h);
    assert i < j;
  }

  lemma {:induction false} NobodyConnects(s: State, local: string, news: seq<News>)
    ensures LearnAll(s, local, news).connections.Keys <= s.connections.Keys
    decreases |news|
  {
    if news != [] {
      NobodyConnects(s, local, news[..|news| - 1]);
    }
  }

  /** A new host is not, if it goes offline meanwhile and does not come back. */
  lemma NewGoesAway(s: State, local: string, news: seq<News>, h: Host)
    requires CleansUp(s, news) && h in s.known && h !in s.connections && LastNews(s, local, news, h) == Some(None)
    ensures exists j :: 0 <= j < |news| && news[j].Heard? && news[j].beat.action.Offline? && news[j].beat.hostname == h
  {
    hide LastNews, LearnAll;
    var j := WhoSaysLast(s, local, news, h);
    assert news[j] in news && h !in Doomed(s);
    NobodyConnects(s, local, news[..j]);
    assert news[j].Heard?;
  }

  /** What a round that meets no moved host, and hears nothing, leaves behind. */
  function Settled(s: State): State {
    var known := s.known - Doomed(s);
    State(known, map h <- known :: if h in s.connections then s.connections[h] else Connection(known[h], false), s.leaving)
  }

  /** New connections to `hosts`, none of them established yet. */
  function Fresh(hosts: set<Host>, known: map<Host, string>): map<Host, Connection>
    requires hosts <= known.Keys
  {
    map h <- hosts :: Connection(known[h], false)
  }

  lemma FreshNone(connections: map<Host, Connection>, known: map<Host, string>)
    ensures connections + Fresh({}, known) == connections
  {
  }

  lemma FreshIs(connections: map<Host, Connection>, hosts: set<Host>, known: map<Host, string>)
    requires hosts <= known.Keys
    ensures var now := connections + Fresh(hosts, known);
            && (forall h :: h in now <==> h in connections || h in hosts)
            && forall h <- now :: now[h] == if h in hosts then Connection(known[h], false) else connections[h]
  {
  }

  lemma FreshOne(connections: map<Host, Connection>, done: set<Host>, h: Host, known: map<Host, string>)
    requires done <= known.Keys && h in known
    ensures (connections + Fresh(done, known))[h := Connection(known[h], false)] == connections + Fresh(done + {h}, known)
  {
  }

  lemma SettledInStep(s: State)
    ensures Settled(s).InStep()
    ensures forall h :: h in Settled(s).known <==>
              h in s.known && (h !in s.connections || (s.connections[h].remoteHost == s.known[h] && s.connections[h].connected))
    ensures forall h <- Settled(s).known :: Settled(s).connections[h] == Connection(s.known[h], h in s.connections)
    ensures forall h <- Settled(s).known :: h in s.known && Settled(s).connections[h].remoteHost == s.known[h]
    ensures (forall h <- s.known :: !s.Moved(h)) ==>
              Settled(s).connections == Cleanup(s, Doomed(s)).connections + Fresh(s.known.Keys - s.connections.Keys, s.known)
  {
  }

  /** A round on a settled state in which every connection has come up changes nothing. */
  lemma SettledIsStable(s: State)
    requires s.InStep() && forall h <- s.connections :: s.connections[h].connected
    ensures Doomed(s) == {} && Settled(s) == s
  {
  }

  /** A host that was added in one round and is not connected by the next is forgotten
      altogether, until it announces itself again. */
  lemma UnconnectedIsForgotten(s: State, h: Host)
    requires h in s.known && h !in s.connections
    ensures h in Settled(s).known && h in Settled(s).connections
    ensures h !in Settled(Settled(s)).known && h !in Settled(Settled(s)).connections
  {
    assert Settled(s).Closed(h);
  }

  class Manager {
    const local: string
    var known: map<Host, string>
    var connections: map<Host, Connection>
    var leaving: Option<Host>

    constructor (local: string)
      ensures this.local == local && Contents() == State(map[], map[], None)
    {
      this.local := local;
      known, connections, leaving := map[], map[], None;
    }

    function Contents(): State
      reads this
    {
      State(known, connections, leaving)
    }

    method OnHeartbeat(beat: Heartbeat)
      requires leaving.None?
      modifies this
      ensures Contents() == Beat(old(Contents()), local, beat)
      ensures beat.hostname == Some(local) || beat.action.Other? || (beat.hostname == None && (beat.ip == None || beat.ip == Some(""))) ==>
                Contents() == old(Contents())
      ensures beat.hostname != Some(local) && !(beat.hostname == None && (beat.ip == None || beat.ip == Some(""))) ==>
                && connections == old(connections)
                && (beat.action.Online? ==>
                      && leaving == None
                      && known == old(known)[beat.hostname := if (beat.ip == None || beat.ip == Some("")) then beat.hostname.value else beat.ip.value])
                && (beat.action.Offline? && beat.hostname in connections ==> known == old(known) && leaving == Some(beat.hostname))
                && (beat.action.Offline? && beat.hostname !in connections ==> known == old(known) - {beat.hostname} && leaving == None)
    {
      if beat.hostname == Some(local) {
        return;
      }
      if !beat.action.Other? && beat.Address().None? {
        return;
      }
      if beat.action.Online? {
        known := known[beat.hostname := beat.Address().value];
      } else if beat.action.Offline? {
        var waits := BeginCleanup(beat.hostname);
        if waits {
          leaving := Some(beat.hostname);
        }
      }
    }

    /** The rest of the handler of an offline heartbeat; it logs whatever goes wrong. */
    method OnLeft()
      requires leaving.Some?
      modifies this
      ensures Contents() == Leave(old(Contents()))
      ensures leaving == None
      ensures var h := old(leaving).value;
              if h in old(connections) then known == old(known) - {h} && connections == old(connections) - {h}
              else known == old(known) && connections == old(connections)
    {
      var ok := EndCleanup(leaving.value);
      leaving := None;
    }

    /** The first half of the cleanup of a host.  Without a connection there is nothing to wait
        for, and it is done. */
    method BeginCleanup(h: Host) returns (waits: bool)
      modifies this`known
      ensures waits <==> h in connections
      ensures known == if waits then old(known) else old(known) - {h}
    {
      waits := h in connections;
      if !waits && h in known {
        known := known - {h};
      }
    }

    /** The second half, when the connection has ended.  Somebody else may have deleted it. */
    method EndCleanup(h: Host) returns (ok: bool)
      modifies this`known, this`connections
      ensures ok <==> h in old(connections)
      ensures Contents() == if ok then Cleanup(old(Contents()), {h}) else old(Contents())
      ensures known == if ok then old(known) - {h} else old(known)
      ensures connections == if ok then old(connections) - {h} else old(connections)
    {
      if h !in connections {
        return false;
      }
      connections := connections - {h};
      if h in known {
        known := known - {h};
      }
      ok := true;
    }

    /** Known hosts that are connected under another address. */
    method FindMoved() returns (moved: set<Host>)
      ensures moved == set h <- known | Contents().Moved(h)
    {
      moved := {};
      var todo := known.Keys;
      while todo != {}
        invariant todo <= known.Keys
        invariant moved == set h <- known | h !in todo && Contents().Moved(h)
        decreases |todo|
      {
        var h :| h in todo;
        if h in connections && known[h] != connections[h].remoteHost {
          moved := moved + {h};
        }
        todo := todo - {h};
      }
    }

    /** Hosts with closed connections. */
    method FindClosed() returns (closed: set<Host>)
      ensures closed == set h <- connections | Contents().Closed(h)
    {
      closed := {};
      var todo := connections.Keys;
      while todo != {}
        invariant todo <= connections.Keys
        invariant closed == set h <- connections | h !in todo && Contents().Closed(h)
        decreases |todo|
      {
        var h :| h in todo;
        if !connections[h].connected {
          closed := closed + {h};
        }
        todo := todo - {h};
      }
    }

    /** What goes down and what comes up. */
    method Decide() returns (deleted: set<Host>, added: set<Host>)
      ensures deleted == Doomed(Contents())
      ensures added == Added(Contents())
      ensures forall h :: h in deleted <==>
                h in connections && (h !in known || known[h] != connections[h].remoteHost || !connections[h].connected)
      ensures forall h :: h in added <==> h in known && (h !in connections || known[h] != connections[h].remoteHost)
    {
      deleted := connections.Keys - known.Keys;
      added := known.Keys - connections.Keys;
      var moved := FindMoved();
      deleted, added := deleted + moved, added + moved;
      var closed := FindClosed();
      deleted := deleted + closed;
    }

    /** The cleanup of all of them, with what happens meanwhile, up to the first error. */
    method CleanupAll(news: seq<News>) returns (ok: bool)
      requires Timely(Contents(), local, news)
      modifies this
      ensures ok <==> !Breaks(old(Contents()), local, news)
      ensures ok ==> Contents() == LearnAll(old(Contents()), local, news)
      ensures !ok ==> exists i :: BreaksAt(old(Contents()), local, news, i) && Contents() == Before(old(Contents()), local, news, i)
    {
      hide LearnAll, Before;
      ghost var s := Contents();
      if |news| > 0 {
        LearnNext(s, local, news, 0);
      } else {
        LearnNothing(s, local);
      }
      for i := 0 to |news|
        invariant Contents() == if |news| == 0 then s else Before(s, local, news, i)
        invariant forall j :: BreaksAt(s, local, news, j) ==> j >= i
      {
        LearnNext(s, local, news, i);
        match news[i]
        case Cleaned(h) =>
          ok := EndCleanup(h);
          if !ok {
            assert BreaksAt(s, local, news, i);
            return;
          }
        case Heard(beat) => OnHeartbeat(beat);
        case Left => OnLeft();
      }
      if |news| > 0 {
        LearnNext(s, local, news, |news| - 1);
      }
      ok := true;
    }

    /** The connections of `added` come up one by one; a host that is no longer known ends
        the loop with a KeyError, after some of the others have been started. */
    method ConnectAll(added: set<Host>) returns (ok: bool, ghost started: set<Host>)
      modifies this`connections
      ensures ok <==> added <= known.Keys
      ensures started <= added * known.Keys && (ok ==> started == added)
      ensures connections == old(connections) + Fresh(started, known)
      ensures forall h :: h in connections <==> h in old(connections) || h in started
      ensures forall h <- connections :: connections[h] == if h in started then Connection(known[h], false) else old(connections)[h]
    {
      hide Fresh;
      var todo := added;
      started := {};
      FreshNone(connections, known);
      while todo != {}
        invariant started + todo == added && started <= known.Keys
        invariant connections == old(connections) + Fresh(started, known)
        decreases |todo|
      {
        var h :| h in todo;
        if h !in known {
          ok := false;
          FreshIs(old(connections), started, known);
          return;
        }
        FreshOne(old(connections), started, h, known);
        connections := connections[h := Connection(known[h], false)];
        todo := todo - {h};
        started := started + {h};
      }
      FreshIs(old(connections), started, known);
      ok := true;
    }

    /** One round.  It fails exactly when, as it decides, an offline heartbeat is still cleaning
        up one of the hosts it takes down; or when the last that has become of some host it is
        about to connect to is that it was forgotten: the hosts to connect are decided before the
        cleanup, their addresses looked up after it. */
    method Round(news: seq<News>) returns (ok: bool)
      requires CleansUp(Contents(), news) && Timely(Contents(), local, news)
      modifies this
      ensures ok <==> !(old(leaving).Some? && old(leaving).value in Doomed(old(Contents()))) && GoesThrough(old(Contents()), local, news)
      ensures ok ==> Added(old(Contents())) <= LearnAll(old(Contents()), local, news).known.Keys
                     && Contents() == RoundResult(old(Contents()), local, news)
      ensures ok ==> forall h <- old(known) :: h !in old(connections) || old(known)[h] != old(connections)[h].remoteHost ==>
                       h in known && h in connections && connections[h] == Connection(known[h], false)
    {
      hide LastNews, LearnAll, Says, Timely, Breaks;
      ghost var s := Contents();
      var deleted, added := Decide();
      LearnNothing(s, local);
      BreaksIff(s, local, news);
      if deleted != {} {
        ok := CleanupAll(news);
        if !ok {
          return;
        }
      }
      ghost var started;
      ok, started := ConnectAll(added);
      GoesThroughIff(s, local, news);
    }
  }

  // ----- Every run -----

  datatype Event =
    | Receive(beat: Heartbeat)
    | Depart
    | Established(host: Host)
    | Lost(host: Host)
    | Reconcile(news: seq<News>)
  {
    ghost predicate Enabled(s: State, local: string) {
      match this
      case Receive(_) => s.leaving.None?
      case Depart => s.leaving.Some?
      case Reconcile(news) => CleansUp(s, news) && Timely(s, local, news)
      case _ => true
    }

    /** The online heartbeats it brings. */
    ghost predicate Announces(h: Host, address: string) {
      match this
      case Receive(beat) => beat.action.Online? && beat.hostname == h && beat.Address() == Some(address)
      case Reconcile(news) => Tells(news, h, address)
      case _ => false
    }
  }

  ghost predicate Tells(news: seq<News>, h: Host, address: string) {
    exists n <- news :: n.Heard? && n.beat.action.Online? && n.beat.hostname == h && n.beat.Address() == Some(address)
  }

  /** The state after an event, or None once a round has failed. */
  ghost function Step(s: State, local: string, event: Event): Option<State>
    requires event.Enabled(s, local)
  {
    match event
    case Receive(beat) => Some(Beat(s, local, beat))
    case Depart => Some(Leave(s))
    case Established(h) =>
      Some(if h in s.connections then s.(connections := s.connections[h := s.connections[h].(connected := true)]) else s)
    case Lost(h) =>
      Some(if h in s.connections then s.(connections := s.connections[h := s.connections[h].(connected := false)]) else s)
    case Reconcile(news) =>
      GoesThroughIff(s, local, news);
      if !Breaks(s, local, news) && GoesThrough(s, local, news) then Some(RoundResult(s, local, news)) else None
  }

  /** A run that has not failed. */
  ghost predicate IsRun(local: string, events: seq<Event>, states: seq<State>) {
    && |states| == |events| + 1 && states[0] == State(map[], map[], None)
    && forall k :: 0 <= k < |events| ==> events[k].Enabled(states[k], local) && Step(states[k], local, events[k]) == Some(states[k + 1])
  }

  ghost predicate Announced(events: seq<Event>, h: Host, address: string) {
    exists e <- events :: e.Announces(h, address)
  }

  ghost predicate AllAnnounced(local: string, events: seq<Event>, s: State) {
    && Some(local) !in s.known && Some(local) !in s.connections
    && (forall h <- s.known :: Announced(events, h, s.known[h]))
    && (forall h <- s.connections :: Announced(events, h, s.connections[h].remoteHost))
  }

  /** What is known after some news was known before or announced in it. */
  lemma {:induction false} LearnAnnounced(s: State, local: string, news: seq<News>)
    requires Some(local) !in s.known && Some(local) !in s.connections
    ensures var now := LearnAll(s, local, news);
            && Some(local) !in now.known && Some(local) !in now.connections
            && (forall h <- now.known :: (h in s.known && now.known[h] == s.known[h]) || Tells(news, h, now.known[h]))
            && (forall h <- now.connections :: h in s.connections && now.connections[h] == s.connections[h])
    decreases |news|
  {
    hide Learn, Tells;
    if news != [] {
      var front, last := news[..|news| - 1], news[|news| - 1];
      LearnAnnounced(s, local, front);
      assert news == front + [last];
      LearnTells(LearnAll(s, local, front), local, last);
      TellsMore(front, last);
    }
  }

  lemma LearnTells(s: State, local: string, n: News)
    requires Some(local) !in s.known && Some(local) !in s.connections
    ensures var now := Learn(s, local, n);
            && Some(local) !in now.known && Some(local) !in now.connections
            && (forall h <- now.known :: (h in s.known && now.known[h] == s.known[h]) || Tells([n], h, now.known[h]))
            && (forall h <- now.connections :: h in s.connections && now.connections[h] == s.connections[h])
  {
    assert n in [n];
  }

  lemma TellsMore(news: seq<News>, n: News)
    ensures forall h: Host, a: string :: Tells(news, h, a) || Tells([n], h, a) ==> Tells(news + [n], h, a)
  {
    assert forall x :: x in news || x in [n] ==> x in news + [n];
  }

  lemma RoundAnnounced(local: string, events: seq<Event>, s: State, news: seq<News>)
    requires AllAnnounced(local, events, s) && GoesThrough(s, local, news) && Reconcile(news) in events
    ensures Added(s) <= LearnAll(s, local, news).known.Keys && AllAnnounced(local, events, RoundResult(s, local, news))
  {
    hide LearnAll;
    GoesThroughIff(s, local, news);
    LearnAnnounced(s, local, news);
    var now := LearnAll(s, local, news);
    forall h <- now.known
      ensures Announced(events, h, now.known[h])
    {
      assert Tells(news, h, now.known[h]) ==> Reconcile(news).Announces(h, now.known[h]);
    }
  }

  lemma StepAnnounced(local: string, events: seq<Event>, s: State, event: Event)
    requires AllAnnounced(local, events, s) && event in events && event.Enabled(s, local) && Step(s, local, event).Some?
    ensures AllAnnounced(local, events, Step(s, local, event).value)
  {
    if event.Reconcile? {
      RoundAnnounced(local, events, s, event.news);
    } else if event.Receive? {
      var s' := Beat(s, local, event.beat);
      forall h <- s'.known
        ensures Announced(events, h, s'.known[h])
      {
        assert h !in s.known || s'.known[h] != s.known[h] ==> event.Announces(h, s'.known[h]);
      }
    }
  }

  /** In every run the manager knows, and connects to, only addresses that were announced,
      and never its own host. */
  lemma {:induction false} OnlyAnnounced(local: string, events: seq<Event>, states: seq<State>, k: nat)
    requires IsRun(local, events, states) && k < |states|
    ensures AllAnnounced(local, events[..k], states[k])
    decreases k
  {
    hide AllAnnounced, Announced, Step, Event.Enabled;
    if k == 0 {
      NothingKnown(local);
      assert events[..0] == [];
    } else {
      OnlyAnnounced(local, events, states, k - 1);
      assert events[..k] == events[..k - 1] + [events[k - 1]];
      AnnouncedLater(local, events[..k - 1], events[k - 1], states[k - 1]);
      var j := k - 1;
      assert events[j].Enabled(states[j], local) && Step(states[j], local, events[j]) == Some(states[j + 1]);
      StepAnnounced(local, events[..k], states[j], events[j]);
    }
  }

  lemma NothingKnown(local: string)
    ensures AllAnnounced(local, [], State(map[], map[], None))
  {
  }

  lemma AnnouncedLater(local: string, events: seq<Event>, e: Event, s: State)
    requires AllAnnounced(local, events, s)
    ensures AllAnnounced(local, events + [e], s) && e in events + [e]
  {
    assert forall h, a :: Announced(events, h, a) ==> Announced(events + [e], h, a);
  }
}
