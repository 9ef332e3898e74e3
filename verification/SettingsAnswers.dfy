/**
 What the ages of cached values mean for the answers a program gets
 (forail/conf/settings.py:36-57, 347-441; forail/conf/signals.py:20-32;
 forail/sso/fields.py:58-74), and runs that show what they do not mean.
 */
module SettingsAnswers {
  import opened Options
  import opened SettingsModel
  import opened SettingsStaleness

  // ----- One table -----

  lemma EncodedNotset(v: Value)
    ensures Encode(v) == NOTSET <==> Normal(v) == NOTSET
  {
    SentinelsDiffer();
  }

  /** For a regular setting, whatever path the value took, the rows give the uncached one. */
  lemma GivenIsRaw(e: Env, rows: Rows, k: string, raw: Value)
    requires e.WellFormed() && k in e.fields && Regular(e, rows, k) && Gives(e, rows, k, raw)
    ensures raw == Raw(e, rows, k)
  {
    hide Encode, HeadSet, First, Env.WellFormed;
    FirstSetIsFirst(e, rows, k);
    EncodedNotset(DefaultOf(e, rows, k));
    if First(rows, k).Some? && RowValue(e, First(rows, k).value).Some? {
      EncodedNotset(RowValue(e, First(rows, k).value).value);
    }
  }

  /** A default computed from what these very rows give. */
  lemma DerivedIsRaw(e: Env, rows: Rows, k: string, xs: seq<Option<Value>>)
    requires e.WellFormed() && k in e.fields && Regular(e, rows, k) && MayDefault(e, rows, k) && e.fields[k].default.Computed?
    requires |xs| == |e.Inputs(k)| && forall i :: 0 <= i < |xs| ==> xs[i] == Final(e, rows, e.Inputs(k)[i])
    ensures Raw(e, rows, k) == Normal(e.fields[k].default.compute(xs))
  {
    hide Encode, HeadSet, First, Env.WellFormed, Final, DefaultOf;
    DefaultIs(e, rows, k, xs);
    FirstSetIsFirst(e, rows, k);
    EncodedNotset(DefaultOf(e, rows, k));
    if First(rows, k).Some? && RowValue(e, First(rows, k).value).Some? {
      EncodedNotset(RowValue(e, First(rows, k).value).value);
    }
  }

  lemma KeepableStays(raw: Value)
    requires Keepable(raw)
    ensures ReadBack(raw) == raw
  {
    KeepableReadsBack(raw);
  }

  /** The table held these rows, and no others, from `lo` on. */
  ghost predicate Steady(log: Log, rows: Rows, lo: int) {
    forall m :: Recent(log, m, lo) ==> log[m].rows == rows
  }

  lemma {:induction false} SteadyRaw(e: Env, log: Log, rows: Rows, k: string, raw: Value, lo: int)
    requires e.WellFormed() && Steady(log, rows, lo) && Origin(e, log, k, raw, lo) && Faithful(e, rows, k)
    ensures raw == Raw(e, rows, k)
    decreases e.Rank(k), 0
  {
    hide Env.WellFormed, Raw, Gives, MayDefault, Justified, Final, FaithfulFinal, Regular, DefaultUsed;
    if Seen(e, log, k, raw, lo) {
      var m :| Recent(log, m, lo) && Gives(e, log[m].rows, k, raw);
      GivenIsRaw(e, rows, k, raw);
    } else {
      var m :| Recent(log, m, lo) && MayDefault(e, log[m].rows, k);
      MayIsUsed(e, rows, k);
      var xs :| Derived(e, log, k, raw, xs, lo);
      InputsBelow(e, k);
      assert Read(e, log, k, xs, lo);
      forall i | 0 <= i < |xs|
        ensures xs[i] == Final(e, rows, e.Inputs(k)[i])
      {
        SteadyFinal(e, log, rows, e.Inputs(k)[i], xs[i], lo);
      }
      DerivedIsRaw(e, rows, k, xs);
    }
  }

  lemma MayIsUsed(e: Env, rows: Rows, k: string)
    requires k in e.fields && MayDefault(e, rows, k)
    ensures DefaultUsed(e, rows, k)
  {
    FirstSetIsFirst(e, rows, k);
  }

  lemma SteadyExplained(e: Env, log: Log, rows: Rows, k: string, raw: Value, lo: int)
    requires e.WellFormed() && k in e.fields && Steady(log, rows, lo) && Explained(e, log, k, raw, lo) && Faithful(e, rows, k)
    ensures raw == Raw(e, rows, k)
    decreases e.Rank(k), 1
  {
    hide Env.WellFormed, Origin, Raw, ReadBack, Steady, DefaultUsed;
    var stored :| Origin(e, log, k, stored, lo) && (raw == stored || raw == ReadBack(stored));
    SteadyRaw(e, log, rows, k, stored, lo);
    KeepableStays(stored);
  }

  lemma {:induction false} SteadyFinal(e: Env, log: Log, rows: Rows, k: string, x: Option<Value>, lo: int)
    requires e.WellFormed() && Steady(log, rows, lo) && Justified(e, log, k, x, lo) && FaithfulFinal(e, rows, k)
    ensures x == Final(e, rows, k)
    decreases e.Top(k), 2
  {
    hide Env.WellFormed, Raw, Explained, Steady, Faithful;
    if k in e.fields {
      var local :| LocalExplained(e, log, k, local, lo) && x == Finish(e, k, local);
      var raw, peer :| Validated(e, log, k, raw, peer, lo) && local == Local(e, k, raw, peer);
      SteadyExplained(e, log, rows, k, raw, lo);
      if raw != NOTSET && e.Peer(k).Some? {
        PeerKnown(e, k);
        assert PeerExplained(e, log, e.Peer(k).value, peer, lo);
        var p :| Explained(e, log, e.Peer(k).value, p, lo) && peer == Usable(p);
        SteadyExplained(e, log, rows, e.Peer(k).value, p, lo);
        assert PeerRaw(e, rows, k) == peer;
      }
      assert LocalOf(e, rows, k) == local;
    }
  }

  /** Whatever was lost before, once the table has not changed for 65 * (reach + 1) seconds
      every process gets what an uncached lookup would return. */
  lemma SettlesInTime(e: Env, s: State, a: Action, k: string, x: Option<Value>)
    requires e.WellFormed() && Answers(e, s, a, k, x) && FaithfulFinal(e, Table(s), k)
    requires Steady(s.log, Table(s), Now(s) - 65 * (Reach(e, k) + 1))
    ensures x == Final(e, Table(s), k)
  {
    hide Env.WellFormed, Reachable, Answered, Enabled, WellShaped, Final, Justified, Reach, Inv, Steady, FaithfulFinal;
    ReachableOk(e, s);
    AnswerJustified(e, s, a);
    SteadyFinal(e, s.log, Table(s), k, x, Now(s) - WINDOW * (Reach(e, k) + 1));
  }

  // ----- Any table, defaults that read nothing -----

  ghost predicate RegularSince(e: Env, log: Log, k: string, lo: int)
    requires e.WellFormed() && k in e.fields
  {
    forall m :: Recent(log, m, lo) ==> Regular(e, log[m].rows, k)
  }

  lemma ShallowRaw(e: Env, log: Log, k: string, raw: Value, lo: int) returns (m: int)
    requires e.WellFormed() && k in e.fields && Depth(e, k) == 0 && Explained(e, log, k, raw, lo) && RegularSince(e, log, k, lo)
    ensures Recent(log, m, lo) && raw == Raw(e, log[m].rows, k)
  {
    hide Env.WellFormed, Raw, Gives, ReadBack;
    var stored :| Origin(e, log, k, stored, lo) && (raw == stored || raw == ReadBack(stored));
    assert !e.fields[k].default.Computed?;
    m :| Recent(log, m, lo) && Gives(e, log[m].rows, k, stored);
    assert Regular(e, log[m].rows, k);
    GivenIsRaw(e, log[m].rows, k, stored);
    KeepableStays(stored);
  }

  /** In every run of any processes, with any deletions lost, the answer to a lookup at time
      `t`, of a setting whose default reads no other, is the stored value as it was at some
      instant in [t - 65, t], validated against that of its peer at another such instant;
      without a peer it is the uncached lookup at one instant. */
  lemma BoundedStaleness(e: Env, s: State, a: Action, k: string, x: Option<Value>) returns (m: int, n: int)
    requires e.WellFormed() && Answers(e, s, a, k, x) && Reach(e, k) == 0
    requires k in e.fields ==> RegularSince(e, s.log, k, Now(s) - 65)
    requires e.Peer(k).Some? ==> e.Peer(k).value in e.fields && RegularSince(e, s.log, e.Peer(k).value, Now(s) - 65)
    ensures 0 <= m < |s.log| && Now(s) - 65 <= s.log[m].time <= Now(s)
    ensures 0 <= n < |s.log| && Now(s) - 65 <= s.log[n].time <= Now(s)
    ensures k in e.fields ==> x == Finish(e, k, Local(e, k, Raw(e, s.log[m].rows, k), PeerRaw(e, s.log[n].rows, k)))
    ensures e.Peer(k).None? ==> x == Final(e, s.log[m].rows, k)
  {
    hide Env.WellFormed, Reachable, Answered, Enabled, WellShaped, Raw, Explained, Depth, RedisOk, ProcOk, RegularSince, Clean;
    ReachableOk(e, s);
    AnswerJustified(e, s, a);
    var lo := Now(s) - WINDOW;
    m, n := |s.log| - 1, |s.log| - 1;
    if k in e.fields {
      var local :| LocalExplained(e, s.log, k, local, lo) && x == Finish(e, k, local);
      var raw, peer :| Validated(e, s.log, k, raw, peer, lo) && local == Local(e, k, raw, peer);
      m := ShallowRaw(e, s.log, k, raw, lo);
      if raw != NOTSET && e.Peer(k).Some? {
        assert PeerExplained(e, s.log, e.Peer(k).value, peer, lo);
        var p :| Explained(e, s.log, e.Peer(k).value, p, lo) && peer == Usable(p);
        n := ShallowRaw(e, s.log, e.Peer(k).value, p, lo);
        assert PeerRaw(e, s.log[n].rows, k) == peer;
      }
      assert e.Peer(k).None? ==> LocalOf(e, s.log[m].rows, k) == local;
    }
  }

  // ----- Progress -----

  predicate OwnWork(a: Action) {
    a.Query? || a.LoadDefault? || a.LoadWrite? || a.LoadEnd? || a.Input? || a.Conclude? || a.Write? || a.Validate? || a.Save?
  }

  /** A process in the middle of something can always go on. */
  lemma CanGoOn(e: Env, s: State, p: nat) returns (a: Action)
    requires e.WellFormed() && Reachable(e, s) && p < |s.procs| && s.procs[p].stack.Over?
    ensures OwnWork(a) && a.p == p && Enabled(e, s, a)
  {
    hide Env.WellFormed, Reachable, StackOk, MemoOk, RedisOk;
    ReachableOk(e, s);
    var stack := s.procs[p].stack;
    assert Shaped(e, stack) && Ready(stack);
    match stack.top
    case Look(_, _) => a := Query(p);
    case Load(batch, left) =>
      if left != {} {
        var k :| k in left;
        a := LoadDefault(p, k);
      } else if batch.Keys != {} {
        var k :| k in batch.Keys;
        a := LoadWrite(p, k, false);
      } else {
        a := LoadEnd(p);
      }
    case Compute(k, xs, _) => a := if |xs| < |e.Inputs(k)| then Input(p) else Conclude(p);
    case Store(_, _, _) => a := Write(p, false);
    case Have(_, _, _) => a := Validate(p);
    case Keep(_, _) => a := Save(p);
  }

  // ----- Runs, one step at a time -----

  lemma {:induction false} OneMore(e: Env, start: State, run: seq<Action>, a: Action)
    requires e.WellFormed() && Inv(e, start) && Possible(e, start, run) && Enabled(e, After(e, start, run), a)
    ensures WellShaped(e, After(e, start, run))
    ensures Possible(e, start, run + [a]) && After(e, start, run + [a]) == Step(e, After(e, start, run), a)
    decreases |run|
  {
    hide Env.WellFormed, Inv, Step, Enabled, WellShaped;
    InvShaped(e, After(e, start, run));
    StepKeeps(e, After(e, start, run), a);
    if run == [] {
      assert ([a])[1..] == [];
      assert Possible(e, Step(e, start, a), []);
    } else {
      StepKeeps(e, start, run[0]);
      OneMore(e, Step(e, start, run[0]), run[1..], a);
      assert (run + [a])[0] == run[0] && (run + [a])[1..] == run[1..] + [a];
    }
  }

  lemma Onward(e: Env, s: State, a: Action)
    requires e.WellFormed() && Reachable(e, s) && Enabled(e, s, a)
    ensures WellShaped(e, s) && Reachable(e, Step(e, s, a))
  {
    hide Env.WellFormed, Inv, Step, Enabled, WellShaped, Initial, Possible, After;
    ReachableOk(e, s);
    var start, run :| Reaches(e, start, run, s);
    InitialOk(e, start);
    OneMore(e, start, run, a);
    assert Reaches(e, start, run + [a], Step(e, s, a));
  }

  lemma StartReachable(e: Env, s: State)
    requires e.WellFormed() && Initial(e, s)
    ensures Reachable(e, s)
  {
    hide Env.WellFormed;
    assert Reaches(e, s, [], s);
  }

  /** A single process. */
  function Single(log: Log, redis: map<string, Entry>, memo: map<string, Memo>, stack: Stack): State {
    State(log, redis, [Proc(stack, memo)])
  }

  /** A step of its own. */
  lemma Goes(e: Env, log: Log, redis: map<string, Entry>, memo: map<string, Memo>, stack: Stack, a: Action)
    requires e.WellFormed() && Reachable(e, Single(log, redis, memo, stack)) && OwnWork(a) && a.p == 0
    requires var s := Single(log, redis, memo, stack); EnabledIn(e, s, s.procs[0], a)
    ensures Shaped(e, stack)
    ensures var s := Single(log, redis, memo, stack);
            var proc := StepProc(e, s, s.procs[0], a);
            Reachable(e, Single(log, StepRedis(e, s, a), proc.memo, proc.stack))
  {
    hide Reachable, Env.WellFormed, StepProc, StepRedis, EnabledIn, Shaped;
    var s := Single(log, redis, memo, stack);
    Onward(e, s, a);
    var proc := StepProc(e, s, s.procs[0], a);
    assert Step(e, s, a) == Single(log, StepRedis(e, s, a), proc.memo, proc.stack);
  }

  lemma GoesBegin(e: Env, log: Log, redis: map<string, Entry>, memo: map<string, Memo>, k: string)
    requires e.WellFormed() && Reachable(e, Single(log, redis, memo, Bottom)) && k in e.fields
    ensures Reachable(e, Single(log, redis, memo, Over(Look(k, false), Bottom)))
  {
    hide Reachable, Env.WellFormed;
    var s := Single(log, redis, memo, Bottom);
    Onward(e, s, Begin(0, k));
    assert Step(e, s, Begin(0, k)) == Single(log, redis, memo, Over(Look(k, false), Bottom));
  }

  lemma GoesQuery(e: Env, log: Log, redis: map<string, Entry>, memo: map<string, Memo>, k: string, peek: bool, rest: Stack)
    requires e.WellFormed() && k in e.fields && Reachable(e, Single(log, redis, memo, Over(Look(k, peek), rest)))
    ensures Reachable(e, Single(log, redis, memo, Over(Queried(e, log[|log| - 1].rows, k, peek), rest)))
  {
    hide Reachable, Env.WellFormed, Queried;
    Goes(e, log, redis, memo, Over(Look(k, peek), rest), Query(0));
  }

  lemma GoesInput(e: Env, log: Log, redis: map<string, Entry>, memo: map<string, Memo>, f: Frame, rest: Stack)
    requires e.WellFormed() && Reachable(e, Single(log, redis, memo, Over(f, rest))) && f.Compute? && |f.xs| < |e.Inputs(f.key)|
    ensures Reachable(e, Single(log, redis, memo, AfterInput(e, f, rest)))
  {
    hide Reachable, Env.WellFormed, AfterInput, Env.Inputs;
    Goes(e, log, redis, memo, Over(f, rest), Input(0));
  }

  lemma GoesConclude(e: Env, log: Log, redis: map<string, Entry>, memo: map<string, Memo>, f: Frame, rest: Stack)
    requires e.WellFormed() && Reachable(e, Single(log, redis, memo, Over(f, rest))) && f.Compute? && |f.xs| == |e.Inputs(f.key)|
    requires f.key in e.fields && e.fields[f.key].default.Computed?
    ensures Reachable(e, Single(log, redis, memo, AfterComputed(e, f, rest)))
  {
    hide Reachable, Env.WellFormed, AfterComputed, Env.Inputs;
    Goes(e, log, redis, memo, Over(f, rest), Conclude(0));
  }

  lemma GoesWrite(e: Env, log: Log, redis: map<string, Entry>, memo: map<string, Memo>, k: string, raw: Value, peek: bool, rest: Stack)
    requires e.WellFormed() && Reachable(e, Single(log, redis, memo, Over(Store(k, raw, peek), rest)))
    ensures Reachable(e, Single(log, redis[k := Entry(Encode(raw), log[|log| - 1].time + CACHE_TIMEOUT)], memo, Over(Have(k, raw, peek), rest)))
  {
    hide Reachable, Env.WellFormed, Encode;
    Goes(e, log, redis, memo, Over(Store(k, raw, peek), rest), Write(0, false));
  }

  lemma GoesValidate(e: Env, log: Log, redis: map<string, Entry>, memo: map<string, Memo>, f: Frame, rest: Stack)
    requires e.WellFormed() && Reachable(e, Single(log, redis, memo, Over(f, rest))) && f.Have? && f.key in e.fields
    requires rest.Over? && rest.top.Check? ==> rest.top.key in e.fields
    ensures Reachable(e, Single(log, redis, memo, AfterHave(e, f, rest)))
  {
    hide Reachable, Env.WellFormed, AfterHave;
    Goes(e, log, redis, memo, Over(f, rest), Validate(0));
  }

  lemma GoesSave(e: Env, log: Log, redis: map<string, Entry>, memo: map<string, Memo>, k: string, local: Option<Value>, rest: Stack)
    requires e.WellFormed() && Reachable(e, Single(log, redis, memo, Over(Keep(k, local), rest)))
    ensures Reachable(e, Single(log, redis, memo[k := Memo(local, log[|log| - 1].time + MEMORY_TTL)], Return(rest, Finish(e, k, local))))
  {
    hide Reachable, Env.WellFormed, Finish, Return;
    Goes(e, log, redis, memo, Over(Keep(k, local), rest), Save(0));
  }

  lemma GoesHit(e: Env, log: Log, redis: map<string, Entry>, memo: map<string, Memo>, k: string, peek: bool, rest: Stack)
    requires e.WellFormed() && Reachable(e, Single(log, redis, memo, Over(Look(k, peek), rest)))
    requires k in redis && log[|log| - 1].time < redis[k].expires && Decode(redis[k].value).Some?
    ensures Reachable(e, Single(log, redis, memo, Over(Have(k, Decode(redis[k].value).value, peek), rest)))
  {
    hide Reachable, Env.WellFormed, Decode, Shaped;
    var s := Single(log, redis, memo, Over(Look(k, peek), rest));
    Onward(e, s, Hit(0));
    assert Step(e, s, Hit(0)) == Single(log, redis, memo, Over(Have(k, Decode(redis[k].value).value, peek), rest));
  }

  lemma GoesChange(e: Env, log: Log, redis: map<string, Entry>, memo: map<string, Memo>, stack: Stack, rows: Rows)
    requires e.WellFormed() && Reachable(e, Single(log, redis, memo, stack)) && Clean(e, rows)
    ensures Reachable(e, Single(log + [Instant(log[|log| - 1].time, rows)], redis, memo, stack))
  {
    hide Reachable, Env.WellFormed, Clean;
    var s := Single(log, redis, memo, stack);
    Onward(e, s, DbWrite(rows));
    assert Step(e, s, DbWrite(rows)) == Single(log + [Instant(log[|log| - 1].time, rows)], redis, memo, stack);
  }

  const IDLE: Proc := Proc(Bottom, map[])

  // ----- The window is used -----

  function Crypt(): Crypto {
    Crypto((id, s) => s, (id, s) => Some(s))
  }

  /** A setting that takes any value. */
  function Free(dependsOn: set<string>, peer: Option<string>, validate: (Value, Option<Value>) -> Option<Value>): Field {
    Field(false, false, NoDefault, dependsOn, peer, v => Some(v), validate, 0)
  }

  function OneEnv(): Env {
    Env(map["A" := Free({}, None, (v, p) => Some(v))], map[], map[], Crypt())
  }

  function OneRow(n: int): Rows {
    [Row(1, "A", Num(n))]
  }

  lemma OneRowOf(n: int)
    ensures Of(OneRow(n), "A") == OneRow(n) && First(OneRow(n), "A") == Some(OneRow(n)[0])
    ensures forall k: string :: k != "A" ==> Of(OneRow(n), k) == []
  {
    assert OneRow(n)[1..] == [];
  }

  lemma OneFacts()
    ensures OneEnv().WellFormed() && forall n :: Clean(OneEnv(), OneRow(n))
    ensures forall n :: Queried(OneEnv(), OneRow(n), "A", false) == Store("A", Num(n), false)
    ensures forall n :: Final(OneEnv(), OneRow(n), "A") == Some(Num(n))
  {
    hide Of;
    var e := OneEnv();
    assert e.FieldOk("A");
    forall n
      ensures Queried(e, OneRow(n), "A", false) == Store("A", Num(n), false) && Final(e, OneRow(n), "A") == Some(Num(n))
    {
      OneRowOf(n);
      assert LocalOf(e, OneRow(n), "A") == Some(Num(n));
    }
  }

  function LagStart(): State {
    State([Instant(0, OneRow(1))], map[], [IDLE, IDLE])
  }

  function LagRead(): State {
    LagStart().(procs := [Proc(Over(Store("A", Num(1), false), Bottom), map[]), IDLE])
  }

  /** The first process looks "A" up; the table changes before the value is cached. */
  function LagCached(): State {
    State([Instant(0, OneRow(1)), Instant(0, OneRow(2))], map["A" := Entry(Num(1), 60)],
          [Proc(Bottom, map["A" := Memo(Some(Num(1)), 5)]), IDLE])
  }

  /** Just before the entry expires, the second process puts it in its memo. */
  function LagKept(): State {
    LagCached().(log := LagCached().log + [Instant(59, OneRow(2))],
                 procs := [LagCached().procs[0], Proc(Bottom, map["A" := Memo(Some(Num(1)), 64)])])
  }

  lemma LagReads()
    requires OneEnv().WellFormed() && Reachable(OneEnv(), LagStart())
    ensures Reachable(OneEnv(), LagRead())
  {
    hide Reachable, Env.WellFormed, Clean, Served, First, FirstSet;
    OneFacts();
    var e, s := OneEnv(), LagStart();
    Onward(e, s, Begin(0, "A"));
    s := Step(e, s, Begin(0, "A"));
    assert s == LagStart().(procs := [Proc(Over(Look("A", false), Bottom), map[]), IDLE]);
    Onward(e, s, Query(0));
    s := Step(e, s, Query(0));
    assert s == LagRead();
  }

  lemma LagCaches()
    requires OneEnv().WellFormed() && Reachable(OneEnv(), LagRead())
    ensures Reachable(OneEnv(), LagCached())
  {
    hide Reachable, Env.WellFormed, Clean, Served, First, FirstSet, Queried;
    OneFacts();
    var e, s := OneEnv(), LagRead();
    Onward(e, s, DbWrite(OneRow(2)));
    s := Step(e, s, DbWrite(OneRow(2)));
    Onward(e, s, Write(0, false));
    s := Step(e, s, Write(0, false));
    assert s == LagCached().(procs := [Proc(Over(Have("A", Num(1), false), Bottom), map[]), IDLE]);
    LagSaves(s);
  }

  lemma LagSaves(start: State)
    requires OneEnv().WellFormed() && Reachable(OneEnv(), start)
    requires start == LagCached().(procs := [Proc(Over(Have("A", Num(1), false), Bottom), map[]), IDLE])
    ensures Reachable(OneEnv(), LagCached())
  {
    hide Reachable, Env.WellFormed, Clean, Served, First, FirstSet, Queried;
    var e, s := OneEnv(), start;
    Onward(e, s, Validate(0));
    s := Step(e, s, Validate(0));
    assert s == LagCached().(procs := [Proc(Over(Keep("A", Some(Num(1))), Bottom), map[]), IDLE]);
    Onward(e, s, Save(0));
    s := Step(e, s, Save(0));
    assert s == LagCached();
  }

  lemma LagKeeps()
    requires OneEnv().WellFormed() && Reachable(OneEnv(), LagCached())
    ensures Reachable(OneEnv(), LagKept())
  {
    hide Reachable, Env.WellFormed, Clean, Served, First, FirstSet, Queried;
    var e, s := OneEnv(), LagCached();
    Onward(e, s, Tick(59));
    s := Step(e, s, Tick(59));
    Onward(e, s, Begin(1, "A"));
    s := Step(e, s, Begin(1, "A"));
    assert s == LagKept().(procs := [LagCached().procs[0], Proc(Over(Look("A", false), Bottom), map[])]);
    Onward(e, s, Hit(1));
    s := Step(e, s, Hit(1));
    LagRemembers(s);
  }

  lemma LagRemembers(start: State)
    requires OneEnv().WellFormed() && Reachable(OneEnv(), start)
    requires start == LagKept().(procs := [LagCached().procs[0], Proc(Over(Have("A", Num(1), false), Bottom), map[])])
    ensures Reachable(OneEnv(), LagKept())
  {
    hide Reachable, Env.WellFormed, Clean, Served, First, FirstSet, Queried;
    var e, s := OneEnv(), start;
    Onward(e, s, Validate(1));
    s := Step(e, s, Validate(1));
    assert s == LagKept().(procs := [LagCached().procs[0], Proc(Over(Keep("A", Some(Num(1))), Bottom), map[])]);
    LagSaved(s);
  }

  lemma LagSaved(start: State)
    requires OneEnv().WellFormed() && Reachable(OneEnv(), start)
    requires start == LagKept().(procs := [LagCached().procs[0], Proc(Over(Keep("A", Some(Num(1))), Bottom), map[])])
    ensures Reachable(OneEnv(), LagKept())
  {
    hide Reachable, Env.WellFormed, Clean, Served, First, FirstSet, Queried;
    var e, s := OneEnv(), start;
    Onward(e, s, Save(1));
    s := Step(e, s, Save(1));
    assert s == LagKept();
  }

  /** An answer can lag 63 seconds: neither the shared entry nor the memo alone bounds it. */
  lemma AnswersDoLag() returns (e: Env, s: State, a: Action, x: Option<Value>)
    ensures e.WellFormed() && Answers(e, s, a, "A", x) && Now(s) == 63
    ensures forall m :: 0 <= m < |s.log| && s.log[m].time > 0 ==> x != Final(e, s.log[m].rows, "A")
  {
    hide Reachable, Env.WellFormed, Clean, Served, First, FirstSet, Queried, Final;
    e := OneEnv();
    OneFacts();
    StartReachable(e, LagStart());
    LagReads();
    LagCaches();
    LagKeeps();
    s := LagKept();
    Onward(e, s, Tick(4));
    s := Step(e, s, Tick(4));
    Onward(e, s, Begin(1, "A"));
    s := Step(e, s, Begin(1, "A"));
    assert s.procs[1] == Proc(Over(Look("A", false), Bottom), map["A" := Memo(Some(Num(1)), 64)]);
    a, x := Remember(1), Some(Num(1));
  }

  function Plainly(v: Value, peer: Option<Value>): Option<Value> {
    Some(v)
  }

  // ----- One instant is not enough for a setting with a peer -----

  /** "A" is validated together with the stored value of "P". */
  function PairEnv(): Env {
    Env(map["A" := Free({}, Some("P"), Together),
            "P" := Free({}, None, Plainly)], map[], map[], Crypt())
  }

  function Together(v: Value, peer: Option<Value>): Option<Value> {
    Some(List([v, if peer.Some? then peer.value else Null]))
  }

  function PairRows(n: int): Rows {
    [Row(1, "A", Num(n)), Row(2, "P", Num(n))]
  }

  lemma PairOf(n: int)
    ensures Of(PairRows(n), "A") == [PairRows(n)[0]] && Of(PairRows(n), "P") == [PairRows(n)[1]]
  {
    var tail := PairRows(n)[1..];
    assert tail == [Row(2, "P", Num(n))] && tail[1..] == [];
    assert Of(tail, "A") == Of([], "A") && Of(tail, "P") == [tail[0]] + Of([], "P");
  }

  lemma PairWellFormed()
    ensures PairEnv().WellFormed()
  {
    assert PairEnv().FieldOk("A");
    assert PairEnv().FieldOk("P");
  }

  lemma PairFinal(n: int)
    requires PairEnv().WellFormed()
    ensures Final(PairEnv(), PairRows(n), "A") == Some(List([Num(n), Num(n)]))
  {
    hide Of, Env.WellFormed;
    var e := PairEnv();
    PairOf(n);
    assert Raw(e, PairRows(n), "A") == Num(n) && Raw(e, PairRows(n), "P") == Num(n);
    assert PeerRaw(e, PairRows(n), "A") == Some(Num(n));
    assert LocalOf(e, PairRows(n), "A") == Some(List([Num(n), Num(n)]));
  }

  lemma PairFacts()
    ensures PairEnv().WellFormed() && forall n :: Clean(PairEnv(), PairRows(n))
    ensures forall n, peek :: Queried(PairEnv(), PairRows(n), "A", peek) == Store("A", Num(n), peek)
    ensures forall n, peek :: Queried(PairEnv(), PairRows(n), "P", peek) == Store("P", Num(n), peek)
    ensures forall n :: Final(PairEnv(), PairRows(n), "A") == Some(List([Num(n), Num(n)]))
  {
    hide Of, Env.WellFormed, FirstSet, Final;
    PairWellFormed();
    var e := PairEnv();
    forall n, peek
      ensures Queried(e, PairRows(n), "A", peek) == Store("A", Num(n), peek)
      ensures Queried(e, PairRows(n), "P", peek) == Store("P", Num(n), peek)
    {
      PairOf(n);
    }
    forall n
      ensures Final(e, PairRows(n), "A") == Some(List([Num(n), Num(n)]))
    {
      PairFinal(n);
    }
  }

  /** The table changes between the two reads: the answer is the uncached lookup at no
      instant of the run. */
  lemma AnswersDoMix() returns (e: Env, s: State, a: Action, x: Option<Value>)
    ensures e.WellFormed() && Answers(e, s, a, "A", x)
    ensures forall m :: 0 <= m < |s.log| ==> x != Final(e, s.log[m].rows, "A")
  {
    hide Reachable, Env.WellFormed, Clean, Queried, Final;
    PairFacts();
    e := PairEnv();
    StartReachable(e, Single([Instant(0, PairRows(1))], map[], map[], Bottom));
    var redis := PairReads();
    var log: Log := [Instant(0, PairRows(1)), Instant(0, PairRows(2))];
    redis := PairPeeks(log, redis);
    s := Single(log, redis, map[], Over(Keep("A", Some(List([Num(1), Num(2)]))), Bottom));
    a, x := Save(0), Some(List([Num(1), Num(2)]));
  }

  lemma PairReads() returns (redis: map<string, Entry>)
    requires PairEnv().WellFormed() && Reachable(PairEnv(), Single([Instant(0, PairRows(1))], map[], map[], Bottom))
    ensures Reachable(PairEnv(), Single([Instant(0, PairRows(1)), Instant(0, PairRows(2))], redis, map[], Over(Have("A", Num(1), false), Bottom)))
  {
    hide Reachable, Env.WellFormed, Clean, Queried, Encode;
    PairFacts();
    var e := PairEnv();
    var log: Log := [Instant(0, PairRows(1))];
    GoesBegin(e, log, map[], map[], "A");
    GoesQuery(e, log, map[], map[], "A", false, Bottom);
    GoesWrite(e, log, map[], map[], "A", Num(1), false, Bottom);
    redis := map["A" := Entry(Encode(Num(1)), 60)];
    GoesChange(e, log, redis, map[], Over(Have("A", Num(1), false), Bottom), PairRows(2));
    assert log + [Instant(0, PairRows(2))] == [Instant(0, PairRows(1)), Instant(0, PairRows(2))];
  }

  lemma PairPeeks(log: Log, redis: map<string, Entry>) returns (redis': map<string, Entry>)
    requires log == [Instant(0, PairRows(1)), Instant(0, PairRows(2))]
    requires PairEnv().WellFormed() && Reachable(PairEnv(), Single(log, redis, map[], Over(Have("A", Num(1), false), Bottom)))
    ensures Reachable(PairEnv(), Single(log, redis', map[], Over(Keep("A", Some(List([Num(1), Num(2)]))), Bottom)))
  {
    hide Reachable, Env.WellFormed, Clean, Queried, Encode;
    PairFacts();
    var e := PairEnv();
    var below := Over(Check("A", Num(1)), Bottom);
    GoesValidate(e, log, redis, map[], Have("A", Num(1), false), Bottom);
    GoesQuery(e, log, redis, map[], "P", true, below);
    GoesWrite(e, log, redis, map[], "P", Num(2), true, below);
    redis' := redis["P" := Entry(Encode(Num(2)), 60)];
    GoesValidate(e, log, redis', map[], Have("P", Num(2), true), below);
  }
}
