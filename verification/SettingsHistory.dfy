/**
 What one process answers after any history of lookups, loads, changes with their signals and
 evictions (forail/conf/settings.py:311-441; forail/conf/signals.py:20-32).  A default that is
 computed again reads its inputs through the cache, so for right answers it is not enough that a
 setting lists what it reads: whatever is read on the way has to list what that reads, too.
 */
module SettingsHistory {
  import opened Options
  import opened SettingsModel
  import opened SettingsCoverage

  /** The table, the shared cache and the memo. */
  datatype World = World(rows: Rows, cache: map<string, Value>, memo: map<string, Option<Value>>)
  datatype Got<T> = Got(value: T, world: World)

  /** What is remembered is cached too. */
  predicate Backed(w: World) {
    forall d <- w.memo :: d in w.cache
  }

  predicate Grown(was: World, w: World) {
    w.rows == was.rows && was.cache.Keys <= w.cache.Keys && (Backed(was) ==> Backed(w))
  }

  // ----- A lookup through the cache -----

  /** `_get_local` up to validation. */
  ghost function LookRaw(e: Env, w: World, k: string): (r: Got<Value>)
    requires e.WellFormed() && k in e.fields
    ensures Grown(w, r.world) && k in r.world.cache
    decreases e.Rank(k), 2
  {
    if k in w.cache && Decode(w.cache[k]).Some? then Got(Decode(w.cache[k]).value, w)
    else if Served(e, w.rows, k) then Stored(k, RowRaw(e, First(w.rows, k).value), w)
    else var r := LookDefault(e, w, k); Stored(k, Normal(r.value), r.world)
  }

  function Stored(k: string, raw: Value, w: World): Got<Value> {
    Got(raw, w.(cache := w.cache[k := Encode(raw)]))
  }

  ghost function LookDefault(e: Env, w: World, k: string): (r: Got<Value>)
    requires e.WellFormed() && k in e.fields
    ensures Grown(w, r.world)
    decreases e.Rank(k), 1
  {
    InputsBelow(e, k);
    match e.fields[k].default
    case NoDefault => Got(NOTSET, w)
    case Constant(v) => Got(v, w)
    case Computed(inputs, compute) => var r := LookAll(e, w, k, inputs); Got(compute(r.value), r.world)
  }

  /** The inputs one after the other. */
  ghost function LookAll(e: Env, w: World, k: string, inputs: seq<string>): (r: Got<seq<Option<Value>>>)
    requires e.WellFormed() && k in e.fields
    requires forall i :: 0 <= i < |inputs| ==> e.Top(inputs[i]) < e.Rank(k)
    ensures Grown(w, r.world) && |r.value| == |inputs|
    decreases e.Rank(k), 0, |inputs|
  {
    if inputs == [] then Got([], w)
    else
      var first := Look(e, w, inputs[0]);
      var rest := LookAll(e, first.world, k, inputs[1..]);
      Got([first.value] + rest.value, rest.world)
  }

  ghost function LookLocal(e: Env, w: World, k: string): (r: Got<Option<Value>>)
    requires e.WellFormed() && k in e.fields
    ensures Grown(w, r.world) && k in r.world.cache
    decreases e.Top(k), 4
  {
    var raw := LookRaw(e, w, k);
    if raw.value == NOTSET then Got(None, raw.world)
    else if e.Peer(k).None? then Got(Local(e, k, raw.value, None), raw.world)
    else
      PeerKnown(e, k);
      var peer := LookRaw(e, raw.world, e.Peer(k).value);
      Got(Local(e, k, raw.value, Usable(peer.value)), peer.world)
  }

  /** `settings.NAME` */
  ghost function Look(e: Env, w: World, k: string): (r: Got<Option<Value>>)
    requires e.WellFormed()
    ensures Grown(w, r.world) && (Backed(w) && k in e.fields ==> k in r.world.cache)
    decreases e.Top(k), 5
  {
    if k !in e.fields then Got(e.FileDefault(k), w)
    else if k in w.memo then Got(Finish(e, k, w.memo[k]), w)
    else
      var r := LookLocal(e, w, k);
      Got(Finish(e, k, r.value), r.world.(memo := r.world.memo[k := r.value]))
  }

  // ----- Histories -----

  /** The entries of a load: rows that count as set, and defaults, which are looked up. */
  ghost function LoadEntries(e: Env, w: World, ks: seq<string>): (r: Got<map<string, Value>>)
    requires e.WellFormed() && forall k <- ks :: k in e.fields
    ensures Grown(w, r.world)
    decreases |ks|
  {
    if ks == [] then Got(map[], w)
    else
      var n := |ks| - 1;
      var before := LoadEntries(e, w, ks[..n]);
      match FirstSet(e, w.rows, ks[n])
      case Some(row) => Got(before.value[ks[n] := Encode(RowValue(e, row).value)], before.world)
      case None =>
        var r := LookDefault(e, before.world, ks[n]);
        Got(before.value[ks[n] := Encode(r.value)], r.world)
  }

  /** A load is of settings kept in the database; a change is followed at once by the deletions
      from the cache, which `announced` then looks up again; entries and what the process
      remembers may vanish at any time. */
  datatype Event =
    | Ask(key: string)
    | Load(keys: seq<string>)
    | Change(key: string, rows: Rows, announced: seq<string>)
    | Lose(key: string)
    | Forget(key: string)
  {
    ghost predicate Possible(e: Env, w: World) {
      match this
      case Load(ks) => forall k <- ks :: k in e.fields && e.FromDatabase(k)
      case Change(key, rows, announced) =>
        SameElsewhere(w.rows, rows, key) && (set k <- announced) == {key} + Dependents(e.dependents, key)
      case _ => true
    }
  }

  ghost function AskAll(e: Env, w: World, ks: seq<string>): (r: World)
    requires e.WellFormed()
    ensures r.rows == w.rows
    decreases |ks|
  {
    if ks == [] then w else AskAll(e, Look(e, w, ks[0]).world, ks[1..])
  }

  function Invalidate(e: Env, w: World, key: string, rows: Rows): World {
    World(rows, w.cache - ({key} + Dependents(e.dependents, key)), map[])
  }

  ghost function Step(e: Env, w: World, event: Event): World
    requires e.WellFormed() && event.Possible(e, w)
  {
    match event
    case Ask(k) => Look(e, w, k).world
    case Load(ks) => var r := LoadEntries(e, w, ks); r.world.(cache := r.world.cache + r.value)
    case Change(key, rows, announced) => AskAll(e, Invalidate(e, w, key, rows), announced)
    case Lose(k) => w.(cache := w.cache - {k})
    case Forget(k) => w.(memo := w.memo - {k})
  }

  ghost predicate Happens(e: Env, w: World, history: seq<Event>)
    requires e.WellFormed()
    decreases |history|
  {
    history == [] || (history[0].Possible(e, w) && Happens(e, Step(e, w, history[0]), history[1..]))
  }

  ghost function After(e: Env, w: World, history: seq<Event>): World
    requires e.WellFormed() && Happens(e, w, history)
    decreases |history|
  {
    if history == [] then w else After(e, Step(e, w, history[0]), history[1..])
  }

  function Start(rows: Rows): World {
    World(rows, map[], map[])
  }

  /** After a history the answer for `k` is the uncached one, if nothing it is read from is at
      present a value that the cache cannot keep. */
  ghost predicate Answers(e: Env, k: string, rows: Rows, history: seq<Event>)
    requires e.WellFormed()
  {
    Happens(e, Start(rows), history) ==>
      var w := After(e, Start(rows), history);
      FaithfulFinal(e, w.rows, k) ==> Look(e, w, k).value == Final(e, w.rows, k)
  }

  /** Whatever defaults compute, validation accepts and the table holds. */
  ghost predicate AlwaysAnswered(e: Env, k: string) {
    forall other: Env, rows, history :: Alike(e, other) && other.WellFormed() ==> Answers(other, k, rows, history)
  }

  // ----- Lookups find what is right -----

  ghost predicate GoodFinal(e: Env, good: set<string>, d: string) {
    d in e.fields ==> d in good && (e.Peer(d).Some? ==> e.Peer(d).value in good)
  }

  /** Settings the cache can keep, which are computed from nothing else. */
  ghost predicate Closed(e: Env, rows: Rows, good: set<string>)
    requires e.WellFormed()
  {
    forall x <- good :: x in e.fields && Regular(e, rows, x)
      && (DefaultUsed(e, rows, x) ==> forall i :: 0 <= i < |e.Inputs(x)| ==> GoodFinal(e, good, e.Inputs(x)[i]))
  }

  /** Entries and memo are right about them. */
  ghost predicate Right(e: Env, w: World, good: set<string>)
    requires e.WellFormed() && Closed(e, w.rows, good)
  {
    && (forall x <- w.cache :: x in good ==> w.cache[x] == Encode(Raw(e, w.rows, x)))
    && (forall d <- w.memo :: d in e.fields && GoodFinal(e, good, d) ==> w.memo[d] == LocalOf(e, w.rows, d))
  }

  lemma {:induction false} RawRight(e: Env, w: World, good: set<string>, k: string)
    requires e.WellFormed() && Closed(e, w.rows, good) && Right(e, w, good) && k in e.fields
    ensures var r := LookRaw(e, w, k); Right(e, r.world, good) && (k in good ==> r.value == Raw(e, w.rows, k))
    decreases e.Rank(k), 2
  {
    hide Env.WellFormed, Encode, Decode, First, DefaultOf, LookDefault;
    if k in good {
      KeepableReadsBack(Raw(e, w.rows, k));
    }
    if !(k in w.cache && Decode(w.cache[k]).Some?) && !Served(e, w.rows, k) {
      DefaultRight(e, w, good, k);
    }
  }

  lemma {:induction false} DefaultRight(e: Env, w: World, good: set<string>, k: string)
    requires e.WellFormed() && Closed(e, w.rows, good) && Right(e, w, good) && k in e.fields
    ensures var r := LookDefault(e, w, k);
            && Right(e, r.world, good)
            && ((forall i :: 0 <= i < |e.Inputs(k)| ==> GoodFinal(e, good, e.Inputs(k)[i])) ==> r.value == DefaultOf(e, w.rows, k))
    decreases e.Rank(k), 1
  {
    hide Env.WellFormed, Right, Closed, GoodFinal, Final, LookAll;
    InputsBelow(e, k);
    if e.fields[k].default.Computed? {
      var inputs := e.fields[k].default.inputs;
      assert inputs == e.Inputs(k);
      AllRight(e, w, good, k, inputs);
      if forall i :: 0 <= i < |inputs| ==> GoodFinal(e, good, inputs[i]) {
        DefaultIs(e, w.rows, k, LookAll(e, w, k, inputs).value);
      }
    }
  }

  lemma {:induction false} AllRight(e: Env, w: World, good: set<string>, k: string, inputs: seq<string>)
    requires e.WellFormed() && Closed(e, w.rows, good) && Right(e, w, good) && k in e.fields
    requires forall i :: 0 <= i < |inputs| ==> e.Top(inputs[i]) < e.Rank(k)
    ensures var r := LookAll(e, w, k, inputs);
            && Right(e, r.world, good)
            && forall i :: 0 <= i < |inputs| && GoodFinal(e, good, inputs[i]) ==> r.value[i] == Final(e, w.rows, inputs[i])
    decreases e.Rank(k), 0, |inputs|
  {
    hide Env.WellFormed, Right, Closed, GoodFinal, Final, Look, Env.Top;
    if inputs != [] {
      LookRight(e, w, good, inputs[0]);
      var first := Look(e, w, inputs[0]);
      AllRight(e, first.world, good, k, inputs[1..]);
      assert forall i :: 1 <= i < |inputs| ==> inputs[i] == inputs[1..][i - 1];
    }
  }

  lemma {:induction false} LocalRight(e: Env, w: World, good: set<string>, k: string)
    requires e.WellFormed() && Closed(e, w.rows, good) && Right(e, w, good) && k in e.fields
    ensures var r := LookLocal(e, w, k);
            Right(e, r.world, good) && (GoodFinal(e, good, k) ==> r.value == LocalOf(e, w.rows, k))
    decreases e.Top(k), 4
  {
    hide Env.WellFormed, Right, Closed, Raw, LookRaw;
    RawRight(e, w, good, k);
    var raw := LookRaw(e, w, k);
    if e.Peer(k).Some? {
      PeerKnown(e, k);
      RawRight(e, raw.world, good, e.Peer(k).value);
    }
  }

  /** Lookups keep entries and memo right and answer so. */
  lemma {:induction false} LookRight(e: Env, w: World, good: set<string>, k: string)
    requires e.WellFormed() && Closed(e, w.rows, good) && Right(e, w, good)
    ensures var r := Look(e, w, k); Right(e, r.world, good) && (GoodFinal(e, good, k) ==> r.value == Final(e, w.rows, k))
    decreases e.Top(k), 5
  {
    hide Env.WellFormed, Closed, Raw, LookLocal, LocalOf;
    if k in e.fields && k !in w.memo {
      LocalRight(e, w, good, k);
    }
  }

  lemma {:induction false} AskAllRight(e: Env, w: World, good: set<string>, ks: seq<string>)
    requires e.WellFormed() && Closed(e, w.rows, good) && Right(e, w, good)
    ensures Right(e, AskAll(e, w, ks), good)
    decreases |ks|
  {
    hide Env.WellFormed, Closed, Right, Look;
    if ks != [] {
      LookRight(e, w, good, ks[0]);
      AskAllRight(e, Look(e, w, ks[0]).world, good, ks[1..]);
    }
  }

  lemma {:induction false} LoadRight(e: Env, w: World, good: set<string>, ks: seq<string>)
    requires e.WellFormed() && Closed(e, w.rows, good) && Right(e, w, good)
    requires forall k <- ks :: k in e.fields && e.FromDatabase(k)
    ensures var r := LoadEntries(e, w, ks);
            Right(e, r.world, good) && forall x <- r.value :: x in good ==> r.value[x] == Encode(Raw(e, w.rows, x))
    decreases |ks|
  {
    hide Env.WellFormed, Right, Closed, Raw, Encode, FirstSet, DefaultOf, LookDefault;
    if ks != [] {
      var n := |ks| - 1;
      var k := ks[n];
      LoadRight(e, w, good, ks[..n]);
      var before := LoadEntries(e, w, ks[..n]);
      DefaultRight(e, before.world, good, k);
      if k in good {
        LoadedIsRight(e, w.rows, good, k);
      }
    }
  }

  lemma LoadedIsRight(e: Env, rows: Rows, good: set<string>, k: string)
    requires e.WellFormed() && Closed(e, rows, good) && k in good && e.FromDatabase(k)
    ensures PreloadEntry(e, rows, k) == Encode(Raw(e, rows, k))
    ensures FirstSet(e, rows, k).None? ==> forall i :: 0 <= i < |e.Inputs(k)| ==> GoodFinal(e, good, e.Inputs(k)[i])
  {
    hide Env.WellFormed, Raw, Encode, HeadSet, DefaultOf, GoodFinal;
    PreloadAgrees(e, rows, k);
    FirstSetIsFirst(e, rows, k);
  }

  // ----- Enough -----

  ghost function TameSet(e: Env, rows: Rows): set<string>
    requires e.WellFormed()
  {
    set x <- e.fields | Tame(e, rows, x)
  }

  lemma TameClosed(e: Env, rows: Rows)
    requires e.WellFormed()
    ensures Closed(e, rows, TameSet(e, rows))
    ensures forall d: string :: TameFinal(e, rows, d) ==> GoodFinal(e, TameSet(e, rows), d)
  {
    hide Env.WellFormed, Regular, Covered, DefaultUsed;
    forall d: string | TameFinal(e, rows, d)
      ensures GoodFinal(e, TameSet(e, rows), d)
    {
      if d in e.fields && e.Peer(d).Some? {
        PeerKnown(e, d);
      }
    }
    forall x <- TameSet(e, rows)
      ensures Regular(e, rows, x)
      ensures DefaultUsed(e, rows, x) ==> forall i :: 0 <= i < |e.Inputs(x)| ==> GoodFinal(e, TameSet(e, rows), e.Inputs(x)[i])
    {
      if DefaultUsed(e, rows, x) {
        assert forall i :: 0 <= i < |e.Inputs(x)| ==> TameFinal(e, rows, e.Inputs(x)[i]);
      }
    }
  }

  ghost predicate TameRight(e: Env, w: World)
    requires e.WellFormed()
  {
    TameClosed(e, w.rows);
    Right(e, w, TameSet(e, w.rows))
  }

  /** What a change and its deletions leave is right for the new rows. */
  lemma InvalidateRight(e: Env, w: World, key: string, rows: Rows)
    requires e.WellFormed() && TameRight(e, w) && SameElsewhere(w.rows, rows, key)
    ensures TameRight(e, Invalidate(e, w, key, rows))
  {
    hide Env.WellFormed, Raw, Trusted, Faithful, Closed, SameElsewhere, Encode, Covered, Sees;
    TameClosed(e, w.rows);
    TameClosed(e, rows);
    var after := Invalidate(e, w, key, rows);
    forall x <- after.cache | x in TameSet(e, rows)
      ensures after.cache[x] == Encode(Raw(e, rows, x))
    {
      TrustedIsCovered(e, x);
      if Sees(e, x, key) {
        CoveredIsDropped(e, x, key);
        assert false;
      }
      StaysFaithful(e, w.rows, rows, key, x);
      Unaffected(e, w.rows, rows, key, x);
      assert x in TameSet(e, w.rows);
    }
  }

  lemma TrustedIsCovered(e: Env, k: string)
    requires e.WellFormed() && k in e.fields && Trusted(e, k)
    ensures Covered(e, k)
  {
  }

  lemma StepRight(e: Env, w: World, event: Event)
    requires e.WellFormed() && TameRight(e, w) && event.Possible(e, w)
    ensures TameRight(e, Step(e, w, event))
  {
    hide Env.WellFormed, Closed, Look, LoadEntries, AskAll, TameSet, Raw;
    TameClosed(e, w.rows);
    var good := TameSet(e, w.rows);
    match event
    case Ask(k) => LookRight(e, w, good, k);
    case Load(ks) => LoadRight(e, w, good, ks);
    case Change(key, rows, announced) =>
      InvalidateRight(e, w, key, rows);
      TameClosed(e, rows);
      AskAllRight(e, Invalidate(e, w, key, rows), TameSet(e, rows), announced);
    case Lose(_) =>
    case Forget(_) =>
  }

  lemma {:induction false} AfterRight(e: Env, w: World, history: seq<Event>)
    requires e.WellFormed() && TameRight(e, w) && Happens(e, w, history)
    ensures TameRight(e, After(e, w, history))
    decreases |history|
  {
    hide Env.WellFormed, TameRight, Step, Event.Possible;
    if history != [] {
      StepRight(e, w, history[0]);
      AfterRight(e, Step(e, w, history[0]), history[1..]);
    }
  }

  lemma StartRight(e: Env, rows: Rows)
    requires e.WellFormed()
    ensures TameRight(e, Start(rows))
  {
    TameClosed(e, rows);
  }

  /** If everything a setting is read from lists what it reads, all answers are right. */
  lemma TrustSuffices(e: Env, k: string, rows: Rows, history: seq<Event>)
    requires e.WellFormed() && TrustedFinal(e, k)
    ensures Answers(e, k, rows, history)
  {
    hide Env.WellFormed, TameSet, Look, Final, Right, Closed, GoodFinal, TrustedFinal, FaithfulFinal, After, Happens;
    if Happens(e, Start(rows), history) {
      StartRight(e, rows);
      AfterRight(e, Start(rows), history);
      var w := After(e, Start(rows), history);
      TameClosed(e, w.rows);
      LookRight(e, w, TameSet(e, w.rows), k);
    }
  }

  // ----- Necessary -----

  lemma {:induction false} ReadsThrough(e: Env, k: string, u: string, x: string)
    requires e.WellFormed() && Reads(e, k, u) && Reads(e, u, x)
    ensures Reads(e, k, x)
    decreases e.Rank(k), 0
  {
    hide Env.WellFormed;
    InputsBelow(e, k);
    var i :| 0 <= i < |e.Inputs(k)| && Consults(e, e.Inputs(k)[i], u);
    ConsultsThrough(e, e.Inputs(k)[i], u, x);
  }

  lemma ConsultsThrough(e: Env, d: string, u: string, x: string)
    requires e.WellFormed() && Consults(e, d, u) && Reads(e, u, x)
    ensures Consults(e, d, x)
    decreases e.Top(d), 1
  {
    hide Env.WellFormed;
    if Reads(e, d, u) {
      ReadsThrough(e, d, u, x);
    } else if d != u && e.Peer(d).value != u {
      ReadsThrough(e, e.Peer(d).value, u, x);
    }
  }

  /** What an untrusted setting is read from and does not list what it reads. */
  lemma {:induction false} Untrusted(e: Env, k: string) returns (u: string)
    requires e.WellFormed() && k in e.fields && !Trusted(e, k)
    ensures u in e.fields && !Covered(e, u) && (u == k || Reads(e, k, u))
    decreases e.Rank(k), 0
  {
    hide Env.WellFormed, Covered;
    InputsBelow(e, k);
    if !Covered(e, k) {
      return k;
    }
    var i :| 0 <= i < |e.Inputs(k)| && !TrustedFinal(e, e.Inputs(k)[i]);
    u := UntrustedFinal(e, e.Inputs(k)[i]);
  }

  lemma {:induction false} UntrustedFinal(e: Env, d: string) returns (u: string)
    requires e.WellFormed() && !TrustedFinal(e, d)
    ensures u in e.fields && !Covered(e, u) && Consults(e, d, u)
    decreases e.Top(d), 1
  {
    hide Env.WellFormed, Covered, Reads, Trusted;
    if !Trusted(e, d) {
      u := Untrusted(e, d);
    } else {
      PeerKnown(e, d);
      u := Untrusted(e, e.Peer(d).value);
    }
  }

  lemma {:induction false} TrustedAlike(e: Env, other: Env, k: string)
    requires e.WellFormed() && other.WellFormed() && Alike(e, other)
    ensures k in e.fields && Trusted(e, k) ==> Trusted(other, k)
    decreases e.Rank(k), 0
  {
    hide Env.WellFormed, Reads;
    if k in e.fields && Trusted(e, k) {
      InputsBelow(e, k);
      forall x: string
        ensures Reads(e, k, x) <==> Reads(other, k, x)
      {
        SameReads(e, other, k, x);
      }
      forall i | 0 <= i < |e.Inputs(k)|
        ensures TrustedFinal(other, e.Inputs(k)[i])
      {
        TrustedFinalAlike(e, other, e.Inputs(k)[i]);
      }
    }
  }

  lemma {:induction false} TrustedFinalAlike(e: Env, other: Env, d: string)
    requires e.WellFormed() && other.WellFormed() && Alike(e, other) && TrustedFinal(e, d)
    ensures TrustedFinal(other, d)
    decreases e.Top(d), 1
  {
    hide Env.WellFormed, Trusted;
    TrustedAlike(e, other, d);
    assert other.Peer(d) == e.Peer(d);
    if e.Peer(d).Some? {
      PeerKnown(e, d);
      TrustedAlike(e, other, e.Peer(d).value);
    }
  }

  // ----- In the tracer everything can be kept -----

  function OneRow(key: string, v: Value): Rows {
    [Row(0, key, v)]
  }

  lemma TokensKept()
    ensures Encode(ONE) == ONE && Encode(ZERO) == ZERO && Decode(ONE) == Some(ONE) && Decode(ZERO) == Some(ZERO)
    ensures Keepable(ONE) && Keepable(ZERO) && ONE != ZERO && ONE != NOTSET && ZERO != NOTSET
  {
    TokensDiffer();
    assert |ONE.s| == 1 && |ZERO.s| == 1 && |EMPTY_LIST.s| == 8 && |EMPTY_DICT.s| == 8;
  }

  lemma TracerRegular(e: Env, key: string, v: Value, x: string)
    requires e.WellFormed() && Tracer(e).WellFormed() && key in e.fields && e.FromDatabase(key) && x in e.fields
    requires v == ONE || v == ZERO
    ensures Regular(Tracer(e), OneRow(key, v), x)
  {
    hide Env.WellFormed, Raw, DefaultOf, Encode;
    TokensKept();
    TraceRaw(e, key, v, x);
    OneRowOf(key, v, x);
  }

  lemma {:induction false} TracerFaithful(e: Env, key: string, v: Value, x: string)
    requires e.WellFormed() && Tracer(e).WellFormed() && key in e.fields && e.FromDatabase(key) && x in e.fields
    requires v == ONE || v == ZERO
    ensures Faithful(Tracer(e), OneRow(key, v), x)
    decreases e.Rank(x), 0
  {
    hide Env.WellFormed, Regular, DefaultUsed;
    var t := Tracer(e);
    TracerRegular(e, key, v, x);
    InputsBelow(e, x);
    assert t.Inputs(x) == e.Inputs(x);
    forall i | 0 <= i < |e.Inputs(x)|
      ensures FaithfulFinal(t, OneRow(key, v), e.Inputs(x)[i])
    {
      TracerFaithfulFinal(e, key, v, e.Inputs(x)[i]);
    }
  }

  lemma TracerFaithfulFinal(e: Env, key: string, v: Value, d: string)
    requires e.WellFormed() && Tracer(e).WellFormed() && key in e.fields && e.FromDatabase(key)
    requires v == ONE || v == ZERO
    ensures FaithfulFinal(Tracer(e), OneRow(key, v), d)
    decreases e.Top(d), 1
  {
    hide Env.WellFormed, Faithful;
    assert Tracer(e).Peer(d) == e.Peer(d);
    if d in e.fields {
      TracerFaithful(e, key, v, d);
      if e.Peer(d).Some? {
        PeerKnown(e, d);
        TracerFaithful(e, key, v, e.Peer(d).value);
      }
    }
  }

  lemma TracerClosed(e: Env, key: string, v: Value)
    requires e.WellFormed() && Tracer(e).WellFormed() && key in e.fields && e.FromDatabase(key)
    requires v == ONE || v == ZERO
    ensures Closed(Tracer(e), OneRow(key, v), Tracer(e).fields.Keys)
  {
    hide Env.WellFormed, Regular, DefaultUsed;
    var t := Tracer(e);
    forall x <- t.fields.Keys
      ensures Regular(t, OneRow(key, v), x)
    {
      TracerRegular(e, key, v, x);
    }
    forall d: string
      ensures GoodFinal(t, t.fields.Keys, d)
    {
      if t.Peer(d).Some? {
        PeerKnown(t, d);
      }
    }
  }

  // ----- A stale one is passed on -----

  ghost predicate Hot(t: Env, u: string, x: string)
    requires t.WellFormed()
  {
    x == u || Reads(t, x, u)
  }

  /** The entry of `u` is one, and so is every other that is read from it; the row of `key`,
      which `u` reads, is zero by now. */
  ghost predicate Stale(t: Env, w: World, u: string, key: string)
    requires t.WellFormed()
  {
    && w.rows == OneRow(key, ZERO) && u in w.cache && t.Rank(key) < t.Rank(u)
    && (forall x <- w.cache :: x in t.fields ==> w.cache[x] == ONE || (w.cache[x] == ZERO && !Hot(t, u, x)))
    && (forall d <- w.memo :: Consults(t, d, u) ==> w.memo[d] == Some(ONE))
  }

  lemma HotAbove(t: Env, u: string, x: string, key: string)
    requires t.WellFormed() && Hot(t, u, x) && t.Rank(key) < t.Rank(u)
    ensures x != key
  {
    hide Env.WellFormed, Reads;
    if x != u {
      ReadsBelow(t, x, u);
    }
  }

  lemma {:induction false} StaleRaw(e: Env, w: World, u: string, key: string, k: string)
    requires e.WellFormed() && Tracer(e).WellFormed() && key in e.fields && u in e.fields && k in e.fields
    requires Stale(Tracer(e), w, u, key)
    ensures var r := LookRaw(Tracer(e), w, k);
            Stale(Tracer(e), r.world, u, key) && (r.value == ONE || (r.value == ZERO && !Hot(Tracer(e), u, k)))
    decreases e.Rank(k), 2
  {
    hide Env.WellFormed, Reads, Encode, Decode, LookDefault, Consults;
    var t := Tracer(e);
    TokensKept();
    OneRowOf(key, ZERO, k);
    if k in w.cache {
    } else if Served(t, w.rows, k) {
      if Hot(t, u, k) {
        HotAbove(t, u, k, key);
      }
    } else {
      StaleDefault(e, w, u, key, k);
    }
  }

  lemma {:induction false} StaleDefault(e: Env, w: World, u: string, key: string, k: string)
    requires e.WellFormed() && Tracer(e).WellFormed() && key in e.fields && u in e.fields && k in e.fields
    requires Stale(Tracer(e), w, u, key)
    ensures var r := LookDefault(Tracer(e), w, k);
            Stale(Tracer(e), r.world, u, key) && (r.value == ONE || (r.value == ZERO && !Reads(Tracer(e), k, u)))
    decreases e.Rank(k), 1
  {
    hide Env.WellFormed, Stale, Consults, LookAll;
    var t := Tracer(e);
    InputsBelow(t, k);
    InputsBelow(e, k);
    if t.fields[k].default.Computed? {
      var inputs := t.fields[k].default.inputs;
      assert inputs == t.Inputs(k) == e.Inputs(k);
      StaleAll(e, w, u, key, k, inputs);
      var xs := LookAll(t, w, k, inputs).value;
      if Reads(t, k, u) {
        var i :| 0 <= i < |t.Inputs(k)| && Consults(t, t.Inputs(k)[i], u);
        assert xs[i] == Some(ONE);
      }
    }
  }

  lemma {:induction false} StaleAll(e: Env, w: World, u: string, key: string, k: string, inputs: seq<string>)
    requires e.WellFormed() && Tracer(e).WellFormed() && key in e.fields && u in e.fields && k in e.fields
    requires Stale(Tracer(e), w, u, key)
    requires forall i :: 0 <= i < |inputs| ==> e.Top(inputs[i]) < e.Rank(k) && Tracer(e).Top(inputs[i]) < Tracer(e).Rank(k)
    ensures var r := LookAll(Tracer(e), w, k, inputs);
            && Stale(Tracer(e), r.world, u, key)
            && forall i :: 0 <= i < |inputs| && Consults(Tracer(e), inputs[i], u) ==> r.value[i] == Some(ONE)
    decreases e.Rank(k), 0, |inputs|
  {
    hide Env.WellFormed, Stale, Consults, Look, Env.Top, Env.Rank;
    if inputs != [] {
      StaleLook(e, w, u, key, inputs[0]);
      var first := Look(Tracer(e), w, inputs[0]);
      StaleAll(e, first.world, u, key, k, inputs[1..]);
      assert forall i :: 1 <= i < |inputs| ==> inputs[i] == inputs[1..][i - 1];
    }
  }

  lemma {:induction false} StaleLocal(e: Env, w: World, u: string, key: string, k: string)
    requires e.WellFormed() && Tracer(e).WellFormed() && key in e.fields && u in e.fields && k in e.fields
    requires Stale(Tracer(e), w, u, key)
    ensures var r := LookLocal(Tracer(e), w, k);
            Stale(Tracer(e), r.world, u, key) && (Consults(Tracer(e), k, u) ==> r.value == Some(ONE))
    decreases e.Top(k), 4
  {
    hide Env.WellFormed, Stale, LookRaw, Reads;
    TokensKept();
    var t := Tracer(e);
    assert t.Peer(k) == e.Peer(k);
    StaleRaw(e, w, u, key, k);
    var raw := LookRaw(t, w, k);
    if e.Peer(k).Some? {
      PeerKnown(e, k);
      StaleRaw(e, raw.world, u, key, e.Peer(k).value);
    }
  }

  /** Whether `k` has an entry or is computed again, it comes to one if it consults `u`. */
  lemma {:induction false} StaleLook(e: Env, w: World, u: string, key: string, k: string)
    requires e.WellFormed() && Tracer(e).WellFormed() && key in e.fields && u in e.fields && Stale(Tracer(e), w, u, key)
    ensures var r := Look(Tracer(e), w, k);
            Stale(Tracer(e), r.world, u, key) && (Consults(Tracer(e), k, u) ==> r.value == Some(ONE))
    decreases e.Top(k), 5
  {
    hide Env.WellFormed, LookLocal, Hot;
    if k !in e.fields {
      NothingConsults(Tracer(e), k, u);
    } else if k !in w.memo {
      StaleLocal(e, w, u, key, k);
    }
  }

  lemma NothingConsults(t: Env, d: string, u: string)
    requires t.WellFormed() && d !in t.fields && u in t.fields
    ensures !Consults(t, d, u)
  {
  }

  lemma {:induction false} StaleAskAll(e: Env, w: World, u: string, key: string, ks: seq<string>)
    requires e.WellFormed() && Tracer(e).WellFormed() && key in e.fields && u in e.fields && Stale(Tracer(e), w, u, key)
    ensures Stale(Tracer(e), AskAll(Tracer(e), w, ks), u, key)
    decreases |ks|
  {
    hide Env.WellFormed, Stale, Look;
    if ks != [] {
      StaleLook(e, w, u, key, ks[0]);
      StaleAskAll(e, Look(Tracer(e), w, ks[0]).world, u, key, ks[1..]);
    }
  }

  // ----- A history with a wrong answer -----

  lemma Listing(s: set<string>) returns (ks: seq<string>)
    ensures forall x :: x in ks <==> x in s
    ensures (set k <- ks) == s
    decreases |s|
  {
    if s == {} {
      ks := [];
    } else {
      var k :| k in s;
      var rest := Listing(s - {k});
      ks := rest + [k];
    }
  }

  /** With a one in the row of `key`, everything that is read from `u` is cached as one, or not
      at all. */
  lemma FreshIsStale(e: Env, w: World, u: string, key: string)
    requires e.WellFormed() && Tracer(e).WellFormed() && key in e.fields && e.FromDatabase(key) && u in e.fields
    requires Reads(Tracer(e), u, key) && key !in e.fields[u].dependsOn && u in w.cache
    requires w.rows == OneRow(key, ONE)
    requires Closed(Tracer(e), w.rows, Tracer(e).fields.Keys) && Right(Tracer(e), w, Tracer(e).fields.Keys)
    ensures Stale(Tracer(e), Invalidate(Tracer(e), w, key, OneRow(key, ZERO)), u, key)
  {
    hide Env.WellFormed, Reads, Raw, Encode, Closed, Consults;
    var t := Tracer(e);
    TokensKept();
    ReadsBelow(t, u, key);
    assert t.Inverse() by { InverseOf(t); }
    forall x <- w.cache | x in e.fields
      ensures w.cache[x] == ONE || (w.cache[x] == ZERO && !Hot(t, u, x))
    {
      TraceRaw(e, key, ONE, x);
      if x != u && Reads(t, x, u) {
        ReadsThrough(t, x, u, key);
      }
    }
  }

  /** A process loads all settings, looks `u` up, and the row of `key` changes. */
  ghost function Undoing(ks: seq<string>, u: string, key: string, announced: seq<string>): seq<Event> {
    [Load(ks), Ask(u), Change(key, OneRow(key, ZERO), announced)]
  }

  lemma OnlyKeyChanges(key: string)
    ensures SameElsewhere(OneRow(key, ONE), OneRow(key, ZERO), key)
  {
    forall x: string | x != key
      ensures Of(OneRow(key, ONE), x) == Of(OneRow(key, ZERO), x)
    {
      OneRowOf(key, ONE, x);
      OneRowOf(key, ZERO, x);
    }
  }

  /** Up to the change everything is right. */
  lemma BeforeChange(e: Env, u: string, key: string, ks: seq<string>) returns (w: World)
    requires e.WellFormed() && Tracer(e).WellFormed() && key in e.fields && e.FromDatabase(key) && u in e.fields
    requires forall k <- ks :: k in e.fields && e.FromDatabase(k)
    ensures Load(ks).Possible(Tracer(e), Start(OneRow(key, ONE)))
    ensures w == Step(Tracer(e), Step(Tracer(e), Start(OneRow(key, ONE)), Load(ks)), Ask(u))
    ensures w.rows == OneRow(key, ONE) && u in w.cache
    ensures Closed(Tracer(e), w.rows, Tracer(e).fields.Keys) && Right(Tracer(e), w, Tracer(e).fields.Keys)
  {
    hide Env.WellFormed, Closed, Look, LoadEntries, Raw, Encode;
    var t, start := Tracer(e), Start(OneRow(key, ONE));
    TracerClosed(e, key, ONE);
    assert forall k <- ks :: t.FromDatabase(k);
    LoadRight(t, start, t.fields.Keys, ks);
    var loaded := Step(t, start, Load(ks));
    LookRight(t, loaded, t.fields.Keys, u);
    w := Step(t, loaded, Ask(u));
  }

  /** And afterwards `k` is answered with the old one, if it is read from `u`. */
  lemma AfterChange(e: Env, w: World, u: string, key: string, announced: seq<string>, k: string)
    requires e.WellFormed() && Tracer(e).WellFormed() && key in e.fields && e.FromDatabase(key) && u in e.fields
    requires Reads(e, u, key) && key !in e.fields[u].dependsOn && Consults(e, k, u)
    requires w.rows == OneRow(key, ONE) && u in w.cache
    requires Closed(Tracer(e), w.rows, Tracer(e).fields.Keys) && Right(Tracer(e), w, Tracer(e).fields.Keys)
    requires Change(key, OneRow(key, ZERO), announced).Possible(Tracer(e), w)
    ensures var after := Step(Tracer(e), w, Change(key, OneRow(key, ZERO), announced));
            && after.rows == OneRow(key, ZERO) && Look(Tracer(e), after, k).value == Some(ONE)
    ensures Final(Tracer(e), OneRow(key, ZERO), k) != Some(ONE)
    ensures FaithfulFinal(Tracer(e), OneRow(key, ZERO), k)
  {
    hide Env.WellFormed, Reads, Closed, Right, Stale, Look, AskAll, Final, FaithfulFinal;
    var t := Tracer(e);
    TracerAlike(e);
    TokensDiffer();
    SameReads(e, t, u, key);
    SameConsults(e, t, k, u);
    FreshIsStale(e, w, u, key);
    var w' := Invalidate(t, w, key, OneRow(key, ZERO));
    StaleAskAll(e, w', u, key, announced);
    StaleLook(e, AskAll(t, w', announced), u, key, k);
    TraceFinal(e, key, ZERO, k);
    TracerFaithfulFinal(e, key, ZERO, k);
  }

  lemma SameConsults(e: Env, other: Env, d: string, x: string)
    requires e.WellFormed() && other.WellFormed() && Alike(e, other)
    ensures Consults(e, d, x) <==> Consults(other, d, x)
  {
    hide Env.WellFormed, Reads;
    assert e.Peer(d) == other.Peer(d);
    SameReads(e, other, d, x);
    if e.Peer(d).Some? {
      SameReads(e, other, e.Peer(d).value, x);
    }
  }

  /** If something that `k` is read from does not list what it reads, then for some computations
      and rows there is a history of three events after which `k` is answered wrongly, whether
      or not its own entry has been dropped, and whatever is loaded in the beginning. */
  lemma UntrustedIsMisanswered(e: Env, k: string, ks: seq<string>) returns (rows: Rows, history: seq<Event>)
    requires e.WellFormed() && !TrustedFinal(e, k) && forall x <- ks :: x in e.fields && e.FromDatabase(x)
    ensures Alike(e, Tracer(e)) && Tracer(e).WellFormed() && !Answers(Tracer(e), k, rows, history)
    ensures |history| == 3 && history[0] == Load(ks) && history[1].Ask? && history[2].Change?
    ensures exists key :: rows == OneRow(key, ONE) && history[2].rows == OneRow(key, ZERO)
  {
    hide Env.WellFormed, Reads, Consults, Closed, Right, Look, Final, FaithfulFinal, TrustedFinal, SameElsewhere, Step;
    TracerAlike(e);
    var t := Tracer(e);
    var u := UntrustedFinal(e, k);
    var key :| key in e.fields && e.FromDatabase(key) && Reads(e, u, key) && key !in e.fields[u].dependsOn;
    var announced := Listing({key} + Dependents(t.dependents, key));
    rows, history := OneRow(key, ONE), Undoing(ks, u, key, announced);
    var w := BeforeChange(e, u, key, ks);
    OnlyKeyChanges(key);
    AfterChange(e, w, u, key, announced, k);
    Unrolled(t, Start(rows), history);
  }

  lemma Unrolled(e: Env, w: World, h: seq<Event>)
    requires e.WellFormed() && |h| == 3 && h[0].Possible(e, w) && h[1].Possible(e, Step(e, w, h[0]))
    requires h[2].Possible(e, Step(e, Step(e, w, h[0]), h[1]))
    ensures Happens(e, w, h) && After(e, w, h) == Step(e, Step(e, Step(e, w, h[0]), h[1]), h[2])
  {
    hide Env.WellFormed, Step, Event.Possible;
    var h1, h2, h3 := h[1..], h[1..][1..], h[1..][1..][1..];
    assert h1[0] == h[1] && h2[0] == h[2] && h3 == [];
    var w1 := Step(e, w, h[0]);
    var w2 := Step(e, w1, h[1]);
    assert Happens(e, Step(e, w2, h[2]), h3) && After(e, Step(e, w2, h[2]), h3) == Step(e, w2, h[2]);
    assert Happens(e, w2, h2) && After(e, w2, h2) == Step(e, w2, h[2]);
    assert Happens(e, w1, h1);
  }

  /** All answers for `k` are right, whatever is computed, validated and stored, if and only if
      `k`, its peer and whatever they are computed from list all that their defaults read. */
  lemma AnsweredIff(e: Env, k: string)
    requires e.WellFormed()
    ensures AlwaysAnswered(e, k) <==> TrustedFinal(e, k)
  {
    hide Env.WellFormed, Answers, TrustedFinal, Alike;
    if TrustedFinal(e, k) {
      forall other: Env, rows, history | Alike(e, other) && other.WellFormed()
        ensures Answers(other, k, rows, history)
      {
        TrustedFinalAlike(e, other, k);
        TrustSuffices(other, k, rows, history);
      }
    } else {
      var ks := Listing(set x <- e.fields | e.FromDatabase(x));
      var rows, history := UntrustedIsMisanswered(e, k, ks);
      assert !Answers(Tracer(e), k, rows, history);
    }
  }
}
