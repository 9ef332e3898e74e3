/**
 A history of one process is a run of the protocol, one in which no deletion is lost and no time
 passes (forail/conf/settings.py:311-441; forail/conf/signals.py:20-32).  So what histories get
 wrong does happen.
 */
module SettingsRuns {
  import opened Options
  import opened SettingsModel
  import opened SettingsStaleness
  import opened SettingsAnswers
  import Coverage = SettingsCoverage
  import History = SettingsHistory

  // ----- Worlds as states -----

  function Entries(w: History.World, now: nat): map<string, Entry> {
    map k <- w.cache :: Entry(w.cache[k], now + CACHE_TIMEOUT)
  }

  function Memos(w: History.World, now: nat): map<string, Memo> {
    map k <- w.memo :: Memo(w.memo[k], now + MEMORY_TTL)
  }

  /** A single process, in a state in which nothing has expired. */
  function At(log: Log, w: History.World, stack: Stack): State {
    Single(log, Entries(w, log[|log| - 1].time), Memos(w, log[|log| - 1].time), stack)
  }

  ghost predicate CanBe(e: Env, log: Log, w: History.World, stack: Stack) {
    e.WellFormed() && log[|log| - 1].rows == w.rows && Reachable(e, At(log, w, stack))
  }

  lemma EntriesStored(w: History.World, k: string, c: Value, now: nat)
    ensures Entries(w.(cache := w.cache[k := c]), now) == Entries(w, now)[k := Entry(c, now + CACHE_TIMEOUT)]
    ensures Memos(w.(cache := w.cache[k := c]), now) == Memos(w, now)
  {
  }

  lemma MemosKept(w: History.World, k: string, local: Option<Value>, now: nat)
    ensures Memos(w.(memo := w.memo[k := local]), now) == Memos(w, now)[k := Memo(local, now + MEMORY_TTL)]
    ensures Entries(w.(memo := w.memo[k := local]), now) == Entries(w, now)
  {
  }

  // ----- Lookups -----

  lemma StoreRuns(e: Env, log: Log, w: History.World, k: string, raw: Value, peek: bool, rest: Stack)
    requires CanBe(e, log, w, Over(Store(k, raw, peek), rest))
    ensures CanBe(e, log, History.Stored(k, raw, w).world, Over(Have(k, raw, peek), rest))
  {
    hide Env.WellFormed, Reachable, Encode;
    var now := log[|log| - 1].time;
    GoesWrite(e, log, Entries(w, now), Memos(w, now), k, raw, peek, rest);
    EntriesStored(w, k, Encode(raw), now);
  }

  lemma {:induction false} RawRuns(e: Env, log: Log, w: History.World, k: string, peek: bool, rest: Stack)
    requires CanBe(e, log, w, Over(Look(k, peek), rest)) && k in e.fields
    ensures var r := History.LookRaw(e, w, k); CanBe(e, log, r.world, Over(Have(k, r.value, peek), rest))
    decreases e.Rank(k), 2
  {
    hide Env.WellFormed, Reachable, Encode, Decode, First, History.LookAll, Entries, Memos;
    var now := log[|log| - 1].time;
    if k in w.cache && Decode(w.cache[k]).Some? {
      EntryOf(w, k, now);
      GoesHit(e, log, Entries(w, now), Memos(w, now), k, peek, rest);
    } else {
      GoesQuery(e, log, Entries(w, now), Memos(w, now), k, peek, rest);
      if !Served(e, w.rows, k) && e.fields[k].default.Computed? {
        DefaultRuns(e, log, w, k, peek, rest);
      } else {
        var f := Queried(e, w.rows, k, peek);
        StoreRuns(e, log, w, k, f.raw, peek, rest);
      }
    }
  }

  lemma EntryOf(w: History.World, k: string, now: nat)
    requires k in w.cache
    ensures k in Entries(w, now) && Entries(w, now)[k] == Entry(w.cache[k], now + CACHE_TIMEOUT)
  {
  }

  lemma MemoOf(w: History.World, k: string, now: nat)
    requires k in w.memo
    ensures k in Memos(w, now) && Memos(w, now)[k] == Memo(w.memo[k], now + MEMORY_TTL)
  {
  }

  lemma {:induction false} DefaultRuns(e: Env, log: Log, w: History.World, k: string, peek: bool, rest: Stack)
    requires k in e.fields && e.fields[k].default.Computed?
    requires CanBe(e, log, w, Over(Compute(k, [], ForLookup(peek)), rest))
    ensures var r := History.LookDefault(e, w, k);
            var raw := Normal(r.value);
            CanBe(e, log, History.Stored(k, raw, r.world).world, Over(Have(k, raw, peek), rest))
    decreases e.Rank(k), 1
  {
    hide Env.WellFormed, Reachable, Encode, Entries, Memos, History.LookAll;
    InputsBelow(e, k);
    var inputs := e.fields[k].default.inputs;
    assert inputs == e.Inputs(k) && inputs[0..] == inputs;
    InputsRun(e, log, w, k, [], peek, rest);
    var r := History.LookAll(e, w, k, inputs);
    var now := log[|log| - 1].time;
    assert [] + r.value == r.value;
    GoesConclude(e, log, Entries(r.world, now), Memos(r.world, now), Compute(k, r.value, ForLookup(peek)), rest);
    StoreRuns(e, log, r.world, k, Normal(e.fields[k].default.compute(r.value)), peek, rest);
  }

  lemma {:induction false} InputsRun(e: Env, log: Log, w: History.World, k: string, xs: seq<Option<Value>>, peek: bool, rest: Stack)
    requires k in e.fields && e.fields[k].default.Computed? && |xs| <= |e.Inputs(k)|
    requires CanBe(e, log, w, Over(Compute(k, xs, ForLookup(peek)), rest))
    requires forall i :: 0 <= i < |e.Inputs(k)| ==> e.Top(e.Inputs(k)[i]) < e.Rank(k)
    ensures var r := History.LookAll(e, w, k, e.Inputs(k)[|xs|..]);
            CanBe(e, log, r.world, Over(Compute(k, xs + r.value, ForLookup(peek)), rest))
    decreases e.Rank(k), 0, |e.Inputs(k)| - |xs|
  {
    hide Env.WellFormed, Reachable, Entries, Memos, History.Look, Env.Top, Env.Rank, Env.Inputs;
    var inputs, i := e.Inputs(k), |xs|;
    if i == |inputs| {
      assert inputs[i..] == [] && xs + [] == xs;
    } else {
      var d, f, now := inputs[i], Compute(k, xs, ForLookup(peek)), log[|log| - 1].time;
      GoesInput(e, log, Entries(w, now), Memos(w, now), f, rest);
      var r := History.Look(e, w, d);
      if d in e.fields {
        LookRuns(e, log, w, d, Over(f, rest));
      } else {
        FileDefaultIs(e, w, d);
      }
      InputsRun(e, log, r.world, k, xs + [r.value], peek, rest);
      assert inputs[i..][0] == d && inputs[i..][1..] == inputs[i + 1..];
      var more := History.LookAll(e, r.world, k, inputs[i + 1..]);
      assert xs + ([r.value] + more.value) == xs + [r.value] + more.value;
    }
  }

  lemma FileDefaultIs(e: Env, w: History.World, d: string)
    requires e.WellFormed() && d !in e.fields
    ensures History.Look(e, w, d) == History.Got(e.FileDefault(d), w)
  {
  }

  lemma {:induction false} LocalRuns(e: Env, log: Log, w: History.World, k: string, rest: Stack)
    requires CanBe(e, log, w, Over(Look(k, false), rest)) && k in e.fields && (rest.Over? ==> rest.top.Compute?)
    ensures var r := History.LookLocal(e, w, k); CanBe(e, log, r.world, Over(Keep(k, r.value), rest))
    decreases e.Top(k), 4
  {
    hide Env.WellFormed, Reachable, Entries, Memos, History.LookRaw;
    var now := log[|log| - 1].time;
    RawRuns(e, log, w, k, false, rest);
    var raw := History.LookRaw(e, w, k);
    GoesValidate(e, log, Entries(raw.world, now), Memos(raw.world, now), Have(k, raw.value, false), rest);
    if raw.value != NOTSET && e.Peer(k).Some? {
      PeerKnown(e, k);
      var p, below := e.Peer(k).value, Over(Check(k, raw.value), rest);
      RawRuns(e, log, raw.world, p, true, below);
      var peer := History.LookRaw(e, raw.world, p);
      GoesValidate(e, log, Entries(peer.world, now), Memos(peer.world, now), Have(p, peer.value, true), below);
    }
  }

  /** The lookup of a setting, whatever asked for it, gives it the answer of the history. */
  lemma {:induction false} LookRuns(e: Env, log: Log, w: History.World, k: string, rest: Stack)
    requires CanBe(e, log, w, Over(Look(k, false), rest)) && k in e.fields && (rest.Over? ==> rest.top.Compute?)
    ensures var r := History.Look(e, w, k); CanBe(e, log, r.world, Return(rest, r.value))
    decreases e.Top(k), 5
  {
    hide Env.WellFormed, Reachable, Entries, Memos, History.LookLocal, Finish, Return;
    var now := log[|log| - 1].time;
    if k in w.memo {
      MemoOf(w, k, now);
      GoesRemember(e, log, Entries(w, now), Memos(w, now), k, rest);
    } else {
      LocalRuns(e, log, w, k, rest);
      var r := History.LookLocal(e, w, k);
      GoesSave(e, log, Entries(r.world, now), Memos(r.world, now), k, r.value, rest);
      MemosKept(r.world, k, r.value, now);
    }
  }

  lemma GoesRemember(e: Env, log: Log, redis: map<string, Entry>, memo: map<string, Memo>, k: string, rest: Stack)
    requires e.WellFormed() && Reachable(e, Single(log, redis, memo, Over(Look(k, false), rest)))
    requires k in memo && log[|log| - 1].time < memo[k].expires
    ensures Reachable(e, Single(log, redis, memo, Return(rest, Finish(e, k, memo[k].result))))
  {
    hide Reachable, Env.WellFormed, Finish, Return, Shaped;
    var s := Single(log, redis, memo, Over(Look(k, false), rest));
    Onward(e, s, Remember(0));
    assert Step(e, s, Remember(0)) == Single(log, redis, memo, Return(rest, Finish(e, k, memo[k].result)));
  }

  /** `settings.NAME` by the program. */
  lemma AskRuns(e: Env, log: Log, w: History.World, k: string)
    requires CanBe(e, log, w, Bottom)
    ensures CanBe(e, log, History.Look(e, w, k).world, Bottom)
  {
    hide Env.WellFormed, Reachable, Entries, Memos, History.LookLocal;
    var now := log[|log| - 1].time;
    if k in e.fields {
      GoesBegin(e, log, Entries(w, now), Memos(w, now), k);
      LookRuns(e, log, w, k, Bottom);
    } else {
      FileDefaultIs(e, w, k);
    }
  }

  lemma {:induction false} AskAllRuns(e: Env, log: Log, w: History.World, ks: seq<string>)
    requires CanBe(e, log, w, Bottom)
    ensures CanBe(e, log, History.AskAll(e, w, ks), Bottom)
    decreases |ks|
  {
    hide CanBe, Env.WellFormed, History.Look;
    if ks != [] {
      AskRuns(e, log, w, ks[0]);
      WellFormedHere(e, log, w);
      AskAllRuns(e, log, History.Look(e, w, ks[0]).world, ks[1..]);
    }
  }

  lemma WellFormedHere(e: Env, log: Log, w: History.World)
    requires CanBe(e, log, w, Bottom)
    ensures e.WellFormed()
  {
  }

  /** And there is a last step that gives the answer. */
  lemma AnswerRuns(e: Env, log: Log, w: History.World, k: string) returns (s: State, a: Action)
    requires CanBe(e, log, w, Bottom) && k in e.fields
    ensures Answers(e, s, a, k, History.Look(e, w, k).value) && s.log == log && Table(s) == w.rows && |s.procs| == 1
    ensures s.redis == Entries(if k in w.memo then w else History.LookLocal(e, w, k).world, Now(s))
  {
    hide Env.WellFormed, Reachable, Entries, Memos, History.LookLocal, Finish;
    var now := log[|log| - 1].time;
    GoesBegin(e, log, Entries(w, now), Memos(w, now), k);
    if k in w.memo {
      MemoOf(w, k, now);
      s, a := At(log, w, Over(Look(k, false), Bottom)), Remember(0);
    } else {
      LocalRuns(e, log, w, k, Bottom);
      var r := History.LookLocal(e, w, k);
      s, a := At(log, r.world, Over(Keep(k, r.value), Bottom)), Save(0);
    }
  }

  // ----- Changes and what is lost -----

  lemma {:induction false} DropsRun(e: Env, log: Log, w: History.World, ks: seq<string>)
    requires CanBe(e, log, w, Bottom)
    ensures CanBe(e, log, w.(cache := w.cache - set k <- ks), Bottom)
    decreases |ks|
  {
    hide Env.WellFormed, Reachable;
    if ks == [] {
      assert w.cache - (set k <- ks) == w.cache;
    } else {
      var n := |ks| - 1;
      DropsRun(e, log, w, ks[..n]);
      var before := w.(cache := w.cache - set k <- ks[..n]);
      var now := log[|log| - 1].time;
      Onward(e, At(log, before, Bottom), Drop(ks[n]));
      var after := w.(cache := w.cache - set k <- ks);
      assert forall x :: x in ks <==> x in ks[..n] || x == ks[n];
      assert Entries(after, now) == Entries(before, now) - {ks[n]};
      assert Step(e, At(log, before, Bottom), Drop(ks[n])) == At(log, after, Bottom);
    }
  }

  /** The row changes, the deletions get through, and the memo is emptied. */
  lemma InvalidateRuns(e: Env, log: Log, w: History.World, key: string, rows: Rows) returns (log': Log)
    requires CanBe(e, log, w, Bottom) && Clean(e, rows)
    ensures CanBe(e, log', History.Invalidate(e, w, key, rows), Bottom)
    ensures log' == log + [Instant(log[|log| - 1].time, rows)]
  {
    hide Env.WellFormed, Reachable, Clean;
    var now := log[|log| - 1].time;
    GoesChange(e, log, Entries(w, now), Memos(w, now), Bottom, rows);
    log' := log + [Instant(now, rows)];
    var changed := w.(rows := rows);
    assert At(log', changed, Bottom) == Single(log', Entries(w, now), Memos(w, now), Bottom);
    var ks := History.Listing({key} + Dependents(e.dependents, key));
    DropsRun(e, log', changed, ks);
    var dropped := changed.(cache := changed.cache - set k <- ks);
    Onward(e, At(log', dropped, Bottom), Restart(0));
    assert Step(e, At(log', dropped, Bottom), Restart(0)) == At(log', dropped.(memo := map[]), Bottom);
  }

  lemma LossRuns(e: Env, log: Log, w: History.World, k: string)
    requires CanBe(e, log, w, Bottom)
    ensures CanBe(e, log, w.(cache := w.cache - {k}), Bottom) && CanBe(e, log, w.(memo := w.memo - {k}), Bottom)
  {
    hide Env.WellFormed, Reachable;
    var s, now := At(log, w, Bottom), log[|log| - 1].time;
    Onward(e, s, Drop(k));
    assert Entries(w.(cache := w.cache - {k}), now) == Entries(w, now) - {k};
    assert Step(e, s, Drop(k)) == At(log, w.(cache := w.cache - {k}), Bottom);
    Onward(e, s, SettingsStaleness.Forget(0, k));
    assert Memos(w.(memo := w.memo - {k}), now) == Memos(w, now) - {k};
    assert Step(e, s, SettingsStaleness.Forget(0, k)) == At(log, w.(memo := w.memo - {k}), Bottom);
  }

  /** In the protocol a load is part of a lookup; here histories without loads are enough. */
  ghost predicate Loadless(history: seq<History.Event>) {
    forall event <- history :: event.Load? ==> event.keys == []
  }

  ghost predicate CleanRows(e: Env, history: seq<History.Event>) {
    forall event <- history :: event.Change? ==> Clean(e, event.rows)
  }

  lemma EventRuns(e: Env, log: Log, w: History.World, event: History.Event) returns (log': Log)
    requires CanBe(e, log, w, Bottom) && event.Possible(e, w)
    requires (event.Load? ==> event.keys == []) && (event.Change? ==> Clean(e, event.rows))
    ensures CanBe(e, log', History.Step(e, w, event), Bottom) && log'[|log'| - 1].time == log[|log| - 1].time
  {
    hide Env.WellFormed, Reachable, Clean, History.Look, History.AskAll, Entries, Memos;
    log' := log;
    match event
    case Ask(k) => AskRuns(e, log, w, k);
    case Load(_) => assert w.(cache := w.cache + map[]) == w;
    case Change(key, rows, announced) =>
      log' := InvalidateRuns(e, log, w, key, rows);
      AskAllRuns(e, log', History.Invalidate(e, w, key, rows), announced);
    case Lose(k) => LossRuns(e, log, w, k);
    case Forget(k) => LossRuns(e, log, w, k);
  }

  /** Where a history leads, a run of the protocol leads. */
  lemma {:induction false} HistoryRuns(e: Env, log: Log, w: History.World, history: seq<History.Event>) returns (log': Log)
    requires CanBe(e, log, w, Bottom) && e.WellFormed() && History.Happens(e, w, history)
    requires Loadless(history) && CleanRows(e, history)
    ensures CanBe(e, log', History.After(e, w, history), Bottom) && log'[|log'| - 1].time == log[|log| - 1].time
    decreases |history|
  {
    hide CanBe, Env.WellFormed, Clean, History.Step, History.Event.Possible;
    log' := log;
    if history != [] {
      log' := EventRuns(e, log, w, history[0]);
      log' := HistoryRuns(e, log', History.Step(e, w, history[0]), history[1..]);
    }
  }

  lemma StartRuns(e: Env, rows: Rows)
    requires e.WellFormed() && Clean(e, rows)
    ensures CanBe(e, [Instant(0, rows)], History.Start(rows), Bottom)
  {
    hide Env.WellFormed, Clean;
    var s := At([Instant(0, rows)], History.Start(rows), Bottom);
    assert s.redis == map[] && s.procs[0].memo == map[];
    StartReachable(e, s);
  }

  // ----- Wrong answers do happen -----

  lemma OneRowClean(e: Env, key: string, v: Value)
    requires e.WellFormed() && (v == Coverage.ONE || v == Coverage.ZERO)
    ensures Clean(Coverage.Tracer(e), History.OneRow(key, v))
  {
    Coverage.TokensDiffer();
    History.TokensKept();
    assert Coverage.ONE.s[0] == '1' && CIPHER_MARK[0] == '$';
  }

  lemma UntrustedIsKnown(e: Env, k: string)
    requires e.WellFormed() && !TrustedFinal(e, k)
    ensures k in e.fields
  {
  }

  /** For every setting that is read from something which does not list what it reads: with the
      right computations and rows there is a run of one process in which no deletion is lost and
      no time passes, and at its end a wrong answer, of a value that the cache can keep. */
  lemma UntrustedRuns(e: Env, k: string) returns (s: State, a: Action, x: Option<Value>)
    requires e.WellFormed() && !TrustedFinal(e, k)
    ensures Coverage.Alike(e, Coverage.Tracer(e)) && Coverage.Tracer(e).WellFormed()
    ensures Answers(Coverage.Tracer(e), s, a, k, x) && Now(s) == 0 && |s.procs| == 1
    ensures FaithfulFinal(Coverage.Tracer(e), Table(s), k) && x != Final(Coverage.Tracer(e), Table(s), k)
  {
    hide Env.WellFormed, Answers, Clean, CanBe, Final, FaithfulFinal, TrustedFinal, History.Happens, History.After, History.Look;
    Coverage.TracerAlike(e);
    var t := Coverage.Tracer(e);
    var rows, history := History.UntrustedIsMisanswered(e, k, []);
    var key :| rows == History.OneRow(key, Coverage.ONE) && history[2].rows == History.OneRow(key, Coverage.ZERO);
    OneRowClean(e, key, Coverage.ONE);
    OneRowClean(e, key, Coverage.ZERO);
    UntrustedIsKnown(e, k);
    StartRuns(t, rows);
    var log := HistoryRuns(t, [Instant(0, rows)], History.Start(rows), history);
    var w := History.After(t, History.Start(rows), history);
    s, a := AnswerRuns(t, log, w, k);
    x := History.Look(t, w, k).value;
  }

  /** Whether the setting that is read is one. */
  function Flag(xs: seq<Option<Value>>): Value {
    Bool(xs == [Some(Num(1))] || xs == [Some(Bool(true))])
  }

  /** "A" can be assigned, "B" is computed from "A", and "C" from "B". */
  function Three(b: set<string>, c: set<string>, dependents: map<string, set<string>>): Env {
    Env(map["A" := Free({}, None, Plainly),
            "B" := Field(true, false, Computed(["A"], Flag), b, None, v => Some(v), Plainly, 1),
            "C" := Field(true, false, Computed(["B"], Flag), c, None, v => Some(v), Plainly, 2)],
        dependents, map[], Crypt())
  }

  ghost predicate IsThree(e: Env) {
    e.WellFormed() && exists b, c, dependents :: e == Three(b, c, dependents)
  }

  lemma ThreeFields(e: Env)
    requires IsThree(e)
    ensures e.fields.Keys == {"A", "B", "C"} && e.Inputs("A") == [] && e.Inputs("B") == ["A"] && e.Inputs("C") == ["B"]
    ensures forall n :: Clean(e, OneRow(n))
  {
  }

  lemma Link(e: Env, rows: Rows, k: string, d: string)
    requires IsThree(e) && First(rows, k) == None
    requires (k == "B" && d == "A") || (k == "C" && d == "B")
    ensures Raw(e, rows, k) == Flag([Final(e, rows, d)])
    ensures Final(e, rows, k) == Some(Flag([Final(e, rows, d)]))
  {
    hide Env.WellFormed, First, ReadAll;
    DefaultIs(e, rows, k, [Final(e, rows, d)]);
    assert Raw(e, rows, k) == Flag([Final(e, rows, d)]);
    assert LocalOf(e, rows, k) == Some(Raw(e, rows, k));
  }

  lemma ThreeFinal(e: Env, n: int)
    requires IsThree(e)
    ensures Raw(e, OneRow(n), "A") == Num(n) && Raw(e, OneRow(n), "B") == Bool(n == 1) && Raw(e, OneRow(n), "C") == Bool(n == 1)
    ensures Final(e, OneRow(n), "C") == Some(Bool(n == 1))
  {
    hide Env.WellFormed, Of;
    OneRowOf(n);
    assert LocalOf(e, OneRow(n), "A") == Some(Num(n));
    Link(e, OneRow(n), "B", "A");
    Link(e, OneRow(n), "C", "B");
  }

  lemma ThreeClosed(e: Env, n: int)
    requires IsThree(e)
    ensures History.Closed(e, OneRow(n), {"A", "B", "C"})
  {
    hide Env.WellFormed, Of, Raw, DefaultOf, IsThree;
    ThreeFields(e);
    ThreeFinal(e, n);
    OneRowOf(n);
    NoPeers(e);
  }

  lemma NoPeers(e: Env)
    requires IsThree(e)
    ensures forall x: string :: e.Peer(x).None?
    ensures e.fields["A"].default.NoDefault? && !e.FromDatabase("B") && !e.FromDatabase("C")
  {
  }

  /** `k` has been looked up. */
  lemma LookedUp(e: Env, k: string) returns (w: History.World)
    requires IsThree(e) && (k == "B" || k == "C")
    ensures w == History.Look(e, History.Start(OneRow(1)), k).world && w.rows == OneRow(1)
    ensures k in w.cache && w.cache[k] == Bool(true)
  {
    hide Env.WellFormed, Raw, History.LookLocal, Flag, IsThree;
    KnownThree(e);
    ThreeFields(e);
    ThreeClosed(e, 1);
    ThreeFinal(e, 1);
    History.LookRight(e, History.Start(OneRow(1)), {"A", "B", "C"}, k);
    w := History.Look(e, History.Start(OneRow(1)), k).world;
  }

  /** Then "A" changes, and what is to be dropped is dropped. */
  lemma Changed(e: Env, k: string) returns (log: Log, w: History.World)
    requires IsThree(e) && (k == "B" || k == "C") && k !in Dependents(e.dependents, "A")
    ensures CanBe(e, log, w, Bottom) && log[|log| - 1] == Instant(0, OneRow(2))
    ensures w.rows == OneRow(2) && w.memo == map[] && w.cache.Keys !! {"A"} + Dependents(e.dependents, "A")
    ensures k in w.cache && w.cache[k] == Bool(true)
  {
    hide Env.WellFormed, Clean, CanBe, History.Look, IsThree;
    ThreeFields(e);
    KnownThree(e);
    StartRuns(e, OneRow(1));
    AskRuns(e, [Instant(0, OneRow(1))], History.Start(OneRow(1)), k);
    var before := LookedUp(e, k);
    log := InvalidateRuns(e, [Instant(0, OneRow(1))], before, "A", OneRow(2));
    w := History.Invalidate(e, before, "A", OneRow(2));
  }

  lemma KnownThree(e: Env)
    requires IsThree(e)
    ensures e.WellFormed()
  {
  }

  // ----- A chain that is declared link by link -----

  /** Each lists only what it reads itself. */
  function ChainEnv(): Env {
    Three({"A"}, {"B"}, map["A" := {"B"}, "B" := {"C"}])
  }

  lemma ChainWellFormed()
    ensures IsThree(ChainEnv()) && Dependents(ChainEnv().dependents, "A") == {"B"}
  {
    var e := ChainEnv();
    assert e.FieldOk("A");
    assert e.FieldOk("B");
    assert e.FieldOk("C");
    assert e.Inverse();
  }

  /** The entry of "C" is read again. */
  lemma ChainHit(w: History.World)
    requires IsThree(ChainEnv()) && w.memo == map[] && "C" in w.cache && w.cache["C"] == Bool(true)
    ensures History.LookLocal(ChainEnv(), w, "C") == History.Got(Some(Bool(true)), w)
    ensures History.Look(ChainEnv(), w, "C").value == Some(Bool(true))
  {
    hide Env.WellFormed;
    assert Decode(Bool(true)) == Some(Bool(true));
    assert History.LookRaw(ChainEnv(), w, "C") == History.Got(Bool(true), w);
  }

  /** With one process, no lost deletion and no time gone by, "C" is answered from an entry
      that invalidation has left, and wrongly. */
  lemma ChainGoesStale() returns (s: State, a: Action)
    ensures ChainEnv().WellFormed() && Answers(ChainEnv(), s, a, "C", Some(Bool(true))) && Now(s) == 0 && |s.procs| == 1
    ensures Final(ChainEnv(), Table(s), "C") == Some(Bool(false))
    ensures forall k <- s.redis :: k !in {"A"} + Dependents(ChainEnv().dependents, "A")
  {
    hide Env.WellFormed, Answers, Clean, CanBe, History.Look, History.LookLocal, Final, Raw, IsThree, ChainEnv;
    ChainWellFormed();
    var e := ChainEnv();
    KnownThree(e);
    ThreeFields(e);
    var log, w := Changed(e, "C");
    ChainHit(w);
    ThreeFinal(e, 2);
    s, a := AnswerRuns(e, log, w, "C");
  }

  // ----- A setting that lists all it reads -----

  /** "B" lists nothing; "C" lists both. */
  function DiamondEnv(): Env {
    Three({}, {"A", "B"}, map["A" := {"C"}, "B" := {"C"}])
  }

  lemma DiamondWellFormed()
    ensures IsThree(DiamondEnv()) && Dependents(DiamondEnv().dependents, "A") == {"C"}
  {
    var e := DiamondEnv();
    assert e.FieldOk("A");
    assert e.FieldOk("B");
    assert e.FieldOk("C");
    assert e.Inverse();
  }

  lemma DiamondCovered()
    requires IsThree(DiamondEnv())
    ensures Covered(DiamondEnv(), "C")
  {
    hide Env.WellFormed, Reads;
    var e := DiamondEnv();
    forall x <- e.fields | Reads(e, "C", x)
      ensures x in {"A", "B"}
    {
      ReadsBelow(e, "C", x);
    }
  }

  /** "C" is computed again, and reads what is left of "B". */
  lemma DiamondAnswer(w: History.World)
    requires IsThree(DiamondEnv()) && w.rows == OneRow(2) && w.memo == map[]
    requires "C" !in w.cache && "B" in w.cache && w.cache["B"] == Bool(true)
    ensures History.Look(DiamondEnv(), w, "C").value == Some(Bool(true))
  {
    hide Env.WellFormed, Of;
    var e := DiamondEnv();
    OneRowOf(2);
    assert Decode(Bool(true)) == Some(Bool(true));
    assert History.LookRaw(e, w, "B") == History.Got(Bool(true), w);
    assert History.LookLocal(e, w, "B").value == Some(Bool(true));
    var b := History.Look(e, w, "B");
    assert b.value == Some(Bool(true));
    InputsBelow(e, "C");
    assert ["B"][1..] == [] && [b.value] + [] == [b.value];
    assert History.LookAll(e, w, "C", ["B"]).value == [b.value];
    assert History.LookDefault(e, w, "C").value == Bool(true);
    assert History.LookRaw(e, w, "C").value == Bool(true);
  }

  /** "C" lists all it reads and is dropped with the change; with one process, no lost deletion
      and no time gone by, it is answered wrongly all the same. */
  lemma ListingIsNotEnough() returns (s: State, a: Action)
    ensures DiamondEnv().WellFormed() && Covered(DiamondEnv(), "C") && "C" in Dependents(DiamondEnv().dependents, "A")
    ensures Answers(DiamondEnv(), s, a, "C", Some(Bool(true))) && Now(s) == 0 && |s.procs| == 1
    ensures Final(DiamondEnv(), Table(s), "C") == Some(Bool(false))
  {
    hide Env.WellFormed, Answers, Clean, Covered, CanBe, History.Look, Final, Raw, IsThree, DiamondEnv;
    DiamondWellFormed();
    DiamondCovered();
    var e := DiamondEnv();
    KnownThree(e);
    ThreeFields(e);
    var log, w := Changed(e, "B");
    DiamondAnswer(w);
    ThreeFinal(e, 2);
    s, a := AnswerRuns(e, log, w, "C");
  }
}
