/**
 How old a setting can be when many processes share the cache and deletions from it may be
 lost (forail/conf/settings.py:36-57, 257, 345-433; forail/main/cache.py:17-51;
 forail/sso/fields.py:58-74).  Every process keeps a five-second memo, all share entries
 that live sixty seconds, and any step of one process may come between two steps of another.
 */
module SettingsStaleness {
  import opened Options
  import opened SettingsModel

  const WINDOW: nat := MEMORY_TTL + CACHE_TIMEOUT

  // ----- State -----

  /** The table as it stood at some moment of the run. */
  datatype Instant = Instant(time: nat, rows: Rows)
  type Log = log: seq<Instant> | log != [] witness [Instant(0, [])]

  /** What a default is computed for: a bulk load, or a lookup of the value or the raw value. */
  datatype Purpose = ForLoad | ForLookup(peek: bool)

  /** What a process is in the middle of: about to look a setting up, or to peek at its raw
      value; loading all settings into the shared cache, with `left` still without a value;
      computing a default, with `xs` read so far; about to store a raw value in the shared
      cache; having a raw value; about to validate one against that of the peer; or about to
      put a validated value in its memo. */
  datatype Frame =
    | Look(key: string, peek: bool)
    | Load(batch: map<string, Value>, left: set<string>)
    | Compute(key: string, xs: seq<Option<Value>>, purpose: Purpose)
    | Store(key: string, raw: Value, peek: bool)
    | Have(key: string, raw: Value, peek: bool)
    | Check(key: string, raw: Value)
    | Keep(key: string, local: Option<Value>)

  datatype Stack = Bottom | Over(top: Frame, rest: Stack)
  datatype Proc = Proc(stack: Stack, memo: map<string, Memo>)

  /** The last instant of the log is the present one. */
  datatype State = State(log: Log, redis: map<string, Entry>, procs: seq<Proc>)

  function Now(s: State): nat {
    s.log[|s.log| - 1].time
  }

  function Table(s: State): Rows {
    s.log[|s.log| - 1].rows
  }

  // ----- Steps -----

  datatype Action =
    /** The table becomes anything; whether the cache hears of it is another step's matter. */
    | DbWrite(rows: Rows)
    | Tick(seconds: nat)
    /** A deletion that got through, or an eviction. */
    | Drop(key: string)
    | Forget(p: nat, key: string)
    | Restart(p: nat)
    /** The new process starts with a copy of the memo. */
    | Fork(p: nat)
    | Begin(p: nat, key: string)
    | Remember(p: nat)
    | Hit(p: nat)
    | Query(p: nat)
    | Preload(p: nat)
    | LoadDefault(p: nat, key: string)
    | LoadWrite(p: nat, key: string, lost: bool)
    | LoadEnd(p: nat)
    | Input(p: nat)
    | Conclude(p: nat)
    | Write(p: nat, lost: bool)
    | Validate(p: nat)
    | Save(p: nat)

  predicate Waiting(stack: Stack) {
    stack.Bottom? || (stack.top.Look? && stack.rest.Bottom?)
  }

  predicate Fresh(memo: map<string, Memo>, k: string, now: nat) {
    k in memo && now < memo[k].expires
  }

  ghost predicate Enabled(e: Env, s: State, a: Action) {
    match a
    case DbWrite(rows) => Clean(e, rows)
    // Time stands still between a read and the cache write it feeds.
    case Tick(_) => forall p :: 0 <= p < |s.procs| ==> Waiting(s.procs[p].stack)
    case Drop(_) => true
    case _ => a.p < |s.procs| && EnabledIn(e, s, s.procs[a.p], a)
  }

  predicate EnabledIn(e: Env, s: State, proc: Proc, a: Action) {
    match a
    case Begin(_, _) => proc.stack.Bottom?
    case Remember(_) =>
      && proc.stack.Over? && ((proc.stack.top.Look? && !proc.stack.top.peek) || proc.stack.top.Keep?)
      && Fresh(proc.memo, proc.stack.top.key, Now(s))
    case Hit(_) =>
      && proc.stack.Over? && proc.stack.top.Look? && proc.stack.top.key in s.redis
      && Now(s) < s.redis[proc.stack.top.key].expires && Decode(s.redis[proc.stack.top.key].value).Some?
    case Query(_) => proc.stack.Over? && proc.stack.top.Look?
    case Preload(_) => proc.stack.Over? && proc.stack.top.Look?
    case LoadDefault(_, k) => proc.stack.Over? && proc.stack.top.Load? && k in proc.stack.top.left
    case LoadWrite(_, k, _) => proc.stack.Over? && proc.stack.top.Load? && proc.stack.top.left == {} && k in proc.stack.top.batch
    case LoadEnd(_) => proc.stack.Over? && proc.stack.top.Load? && proc.stack.top.left == {} && proc.stack.top.batch == map[]
    case Input(_) => proc.stack.Over? && proc.stack.top.Compute? && |proc.stack.top.xs| < |e.Inputs(proc.stack.top.key)|
    case Conclude(_) => proc.stack.Over? && proc.stack.top.Compute? && |proc.stack.top.xs| == |e.Inputs(proc.stack.top.key)|
    case Write(_, _) => proc.stack.Over? && proc.stack.top.Store?
    case Validate(_) => proc.stack.Over? && proc.stack.top.Have?
    case Save(_) => proc.stack.Over? && proc.stack.top.Keep?
    case _ => true
  }

  /** Hands the value of a setting to whatever asked for it. */
  function Return(rest: Stack, x: Option<Value>): Stack {
    match rest
    case Over(Compute(k, xs, purpose), below) => Over(Compute(k, xs + [x], purpose), below)
    case _ => rest
  }

  /** A default that reads no other setting. */
  function Fixed(e: Env, k: string): Value
    requires k in e.fields
  {
    if e.fields[k].default.Constant? then Normal(e.fields[k].default.value) else NOTSET
  }

  /** What the table gives for a lookup of `k`. */
  function Queried(e: Env, rows: Rows, k: string, peek: bool): Frame
    requires k in e.fields
  {
    if Served(e, rows, k) then Store(k, RowRaw(e, First(rows, k).value), peek)
    else if e.fields[k].default.Computed? then Compute(k, [], ForLookup(peek))
    else Store(k, Fixed(e, k), peek)
  }

  function LoadFrom(e: Env, rows: Rows): Frame {
    Load(map k <- e.fields | e.FromDatabase(k) && FirstSet(e, rows, k).Some? :: Encode(RowRaw(e, FirstSet(e, rows, k).value)),
         set k <- e.fields | e.FromDatabase(k) && FirstSet(e, rows, k).None?)
  }

  function Defaulted(e: Env, load: Frame, k: string, rest: Stack): Stack
    requires k in e.fields && load.Load?
  {
    if e.fields[k].default.Computed? then Over(Compute(k, [], ForLoad), Over(load, rest))
    else Over(Load(load.batch[k := Encode(Fixed(e, k))], load.left - {k}), rest)
  }

  function AfterInput(e: Env, f: Frame, rest: Stack): Stack
    requires f.Compute? && |f.xs| < |e.Inputs(f.key)|
  {
    var d := e.Inputs(f.key)[|f.xs|];
    if d in e.fields then Over(Look(d, false), Over(f, rest)) else Over(Compute(f.key, f.xs + [e.FileDefault(d)], f.purpose), rest)
  }

  function AfterComputed(e: Env, f: Frame, rest: Stack): Stack
    requires f.Compute? && f.key in e.fields && e.fields[f.key].default.Computed?
  {
    var raw := Normal(e.fields[f.key].default.compute(f.xs));
    if f.purpose.ForLookup? then Over(Store(f.key, raw, f.purpose.peek), rest)
    else match rest
         case Over(Load(batch, left), below) => Over(Load(batch[f.key := Encode(raw)], left - {f.key}), below)
         case _ => rest
  }

  /** A raw value is handed to the frame that asked for it, or validated, for which the raw
      value of the peer may be needed. */
  function AfterHave(e: Env, f: Frame, rest: Stack): Stack
    requires f.Have? && f.key in e.fields && (rest.Over? && rest.top.Check? ==> rest.top.key in e.fields)
  {
    if f.peek then
      match rest
      case Over(Check(k, raw), below) => Over(Keep(k, Local(e, k, raw, Usable(f.raw))), below)
      case _ => rest
    else if f.raw == NOTSET || e.Peer(f.key).None? then Over(Keep(f.key, Local(e, f.key, f.raw, None)), rest)
    else Over(Look(e.Peer(f.key).value, true), Over(Check(f.key, f.raw), rest))
  }

  predicate Peeks(f: Frame) {
    match f
    case Look(_, peek) => peek
    case Compute(_, _, purpose) => purpose.ForLookup? && purpose.peek
    case Store(_, _, peek) => peek
    case Have(_, _, peek) => peek
    case _ => false
  }

  /** A setting's frames name registered settings, and each frame answers the one below it. */
  predicate Shaped(e: Env, stack: Stack) {
    stack.Over? ==>
      && Shaped(e, stack.rest) && Fits(e, stack.top, stack.rest)
      && match stack.top
         case Load(batch, left) => batch.Keys <= e.fields.Keys && left <= e.fields.Keys
         case Compute(k, xs, _) => k in e.fields && e.fields[k].default.Computed? && |xs| <= |e.Inputs(k)|
         case f => f.key in e.fields
  }

  predicate Fits(e: Env, f: Frame, rest: Stack) {
    if f.Load? then rest.Over? && rest.top.Look?
    else if f.Compute? && f.purpose.ForLoad? then rest.Over? && rest.top.Load? && f.key in rest.top.left
    else if Peeks(f) then rest.Over? && rest.top.Check? && e.Peer(rest.top.key) == Some(f.key)
    else rest.Over? ==> rest.top.Compute? && |rest.top.xs| < |e.Inputs(rest.top.key)| && f.key == e.Inputs(rest.top.key)[|rest.top.xs|]
  }

  ghost predicate WellShaped(e: Env, s: State) {
    e.WellFormed() && forall p :: 0 <= p < |s.procs| ==> Shaped(e, s.procs[p].stack)
  }

  function MemoResult(e: Env, proc: Proc, k: string): Option<Value>
    requires k in proc.memo
  {
    Finish(e, k, proc.memo[k].result)
  }

  function StepProc(e: Env, s: State, proc: Proc, a: Action): Proc
    requires EnabledIn(e, s, proc, a) && Shaped(e, proc.stack)
  {
    match a
    case Forget(_, k) => proc.(memo := proc.memo - {k})
    case Restart(_) => Proc(Bottom, map[])
    case Begin(_, k) => if k in e.fields then proc.(stack := Over(Look(k, false), Bottom)) else proc
    case Remember(_) => proc.(stack := Return(proc.stack.rest, MemoResult(e, proc, proc.stack.top.key)))
    case Hit(_) =>
      var f := proc.stack.top;
      proc.(stack := Over(Have(f.key, Decode(s.redis[f.key].value).value, f.peek), proc.stack.rest))
    case Query(_) => proc.(stack := Over(Queried(e, Table(s), proc.stack.top.key, proc.stack.top.peek), proc.stack.rest))
    case Preload(_) => proc.(stack := Over(LoadFrom(e, Table(s)), proc.stack))
    case LoadDefault(_, k) => proc.(stack := Defaulted(e, proc.stack.top, k, proc.stack.rest))
    case LoadWrite(_, k, _) => proc.(stack := Over(Load(proc.stack.top.batch - {k}, {}), proc.stack.rest))
    case LoadEnd(_) => proc.(stack := proc.stack.rest)
    case Input(_) => proc.(stack := AfterInput(e, proc.stack.top, proc.stack.rest))
    case Conclude(_) => proc.(stack := AfterComputed(e, proc.stack.top, proc.stack.rest))
    case Write(_, _) => proc.(stack := Over(Have(proc.stack.top.key, proc.stack.top.raw, proc.stack.top.peek), proc.stack.rest))
    case Validate(_) => proc.(stack := AfterHave(e, proc.stack.top, proc.stack.rest))
    case Save(_) =>
      var k, local := proc.stack.top.key, proc.stack.top.local;
      Proc(Return(proc.stack.rest, Finish(e, k, local)), proc.memo[k := Memo(local, Now(s) + MEMORY_TTL)])
    case _ => proc
  }

  /** Entries are never renewed by being read. */
  function StepRedis(e: Env, s: State, a: Action): map<string, Entry>
    requires match a case LoadWrite(p, _, _) => p < |s.procs| && EnabledIn(e, s, s.procs[p], a)
                     case Write(p, _) => p < |s.procs| && EnabledIn(e, s, s.procs[p], a)
                     case _ => true
  {
    match a
    case Drop(k) => s.redis - {k}
    case LoadWrite(p, k, false) => s.redis[k := Entry(s.procs[p].stack.top.batch[k], Now(s) + CACHE_TIMEOUT)]
    case Write(p, false) => s.redis[s.procs[p].stack.top.key := Entry(Encode(s.procs[p].stack.top.raw), Now(s) + CACHE_TIMEOUT)]
    case _ => s.redis
  }

  /** A step of one process. */
  predicate OfProcess(a: Action) {
    !a.DbWrite? && !a.Tick? && !a.Drop? && !a.Fork?
  }

  ghost function StepOwn(e: Env, s: State, a: Action): State
    requires OfProcess(a) && Enabled(e, s, a) && WellShaped(e, s)
  {
    s.(redis := StepRedis(e, s, a), procs := s.procs[a.p := StepProc(e, s, s.procs[a.p], a)])
  }

  ghost function Step(e: Env, s: State, a: Action): State
    requires Enabled(e, s, a) && WellShaped(e, s)
  {
    if a.DbWrite? then s.(log := s.log + [Instant(Now(s), a.rows)])
    else if a.Tick? then s.(log := s.log + [Instant(Now(s) + a.seconds, Table(s))])
    else if a.Drop? then s.(redis := StepRedis(e, s, a))
    else if a.Fork? then s.(procs := s.procs + [Proc(Bottom, s.procs[a.p].memo)])
    else StepOwn(e, s, a)
  }

  /** A step may end the lookup of a setting by the program. */
  datatype Answer = Answer(key: string, value: Option<Value>)

  ghost function Answered(e: Env, s: State, a: Action): Option<Answer>
    requires Enabled(e, s, a) && WellShaped(e, s)
  {
    match a
    case Begin(_, k) => if k in e.fields then None else Some(Answer(k, e.FileDefault(k)))
    case Remember(p) =>
      var proc := s.procs[p];
      if proc.stack.rest.Bottom? then Some(Answer(proc.stack.top.key, MemoResult(e, proc, proc.stack.top.key))) else None
    case Save(p) =>
      var top := s.procs[p].stack.top;
      if s.procs[p].stack.rest.Bottom? then Some(Answer(top.key, Finish(e, top.key, top.local))) else None
    case _ => None
  }

  // ----- Where a value can come from -----

  predicate Recent(log: Log, m: int, lo: int) {
    0 <= m < |log| && log[m].time >= lo
  }

  /** The default may be taken for `k`: by a lookup without a row, or by a load that passes
      over rows that count as not set. */
  predicate MayDefault(e: Env, rows: Rows, k: string)
    requires k in e.fields
  {
    !Served(e, rows, k) || FirstSet(e, rows, k).None?
  }

  /** `raw` is what these rows give for `k`, without any other setting being read. */
  predicate Gives(e: Env, rows: Rows, k: string, raw: Value)
    requires k in e.fields
  {
    || (Served(e, rows, k) && raw == RowRaw(e, First(rows, k).value))
    || (e.FromDatabase(k) && FirstSet(e, rows, k).Some? && raw == RowRaw(e, FirstSet(e, rows, k).value))
    || (MayDefault(e, rows, k) && !e.fields[k].default.Computed? && raw == Fixed(e, k))
  }

  ghost predicate Seen(e: Env, log: Log, k: string, raw: Value, lo: int)
    requires k in e.fields
  {
    exists m :: Recent(log, m, lo) && Gives(e, log[m].rows, k, raw)
  }

  ghost predicate Unserved(e: Env, log: Log, k: string, lo: int)
    requires k in e.fields
  {
    exists m :: Recent(log, m, lo) && MayDefault(e, log[m].rows, k)
  }

  /** What a stored value is read back as. */
  function ReadBack(raw: Value): Value {
    match Decode(Encode(raw)) case Some(v) => v case None => NOTSET
  }

  /** Every fact about the table that `raw` rests on held at some instant since `lo`. */
  ghost predicate Origin(e: Env, log: Log, k: string, raw: Value, lo: int)
    requires e.WellFormed()
    decreases e.Rank(k), 2
  {
    k in e.fields &&
    (Seen(e, log, k, raw, lo) || (e.fields[k].default.Computed? && Unserved(e, log, k, lo) && exists xs :: Derived(e, log, k, raw, xs, lo)))
  }

  /** The same for a value that may have been through the cache. */
  ghost predicate Explained(e: Env, log: Log, k: string, raw: Value, lo: int)
    requires e.WellFormed()
    decreases e.Rank(k), 3
  {
    exists stored :: Origin(e, log, k, stored, lo) && (raw == stored || raw == ReadBack(stored))
  }

  ghost predicate Derived(e: Env, log: Log, k: string, raw: Value, xs: seq<Option<Value>>, lo: int)
    requires e.WellFormed() && k in e.fields && e.fields[k].default.Computed?
    decreases e.Rank(k), 1
  {
    |xs| == |e.Inputs(k)| && Read(e, log, k, xs, lo) && raw == Normal(e.fields[k].default.compute(xs))
  }

  /** The inputs of a default read so far. */
  ghost predicate Read(e: Env, log: Log, k: string, xs: seq<Option<Value>>, lo: int)
    requires e.WellFormed() && k in e.fields && e.fields[k].default.Computed?
    decreases e.Rank(k), 0
  {
    InputsBelow(e, k);
    |xs| <= |e.Inputs(k)| && forall i :: 0 <= i < |xs| ==> Justified(e, log, e.Inputs(k)[i], xs[i], lo)
  }

  ghost predicate Justified(e: Env, log: Log, k: string, x: Option<Value>, lo: int)
    requires e.WellFormed()
    decreases e.Top(k), 7
  {
    if k in e.fields then exists local :: LocalExplained(e, log, k, local, lo) && x == Finish(e, k, local)
    else x == e.FileDefault(k)
  }

  ghost predicate LocalExplained(e: Env, log: Log, k: string, local: Option<Value>, lo: int)
    requires e.WellFormed() && k in e.fields
    decreases e.Top(k), 6
  {
    exists raw, peer :: Validated(e, log, k, raw, peer, lo) && local == Local(e, k, raw, peer)
  }

  ghost predicate Validated(e: Env, log: Log, k: string, raw: Value, peer: Option<Value>, lo: int)
    requires e.WellFormed() && k in e.fields
    decreases e.Top(k), 5
  {
    Explained(e, log, k, raw, lo) && (raw != NOTSET && e.Peer(k).Some? ==> PeerExplained(e, log, e.Peer(k).value, peer, lo))
    && (e.Peer(k).None? ==> peer == None)
  }

  ghost predicate PeerExplained(e: Env, log: Log, p: string, peer: Option<Value>, lo: int)
    requires e.WellFormed()
    decreases e.Rank(p), 4
  {
    exists raw :: Explained(e, log, p, raw, lo) && peer == Usable(raw)
  }

  // ----- How far back a setting may reach -----

  /** How many defaults have to be computed, one from the other, to compute that of `k`. */
  ghost function Depth(e: Env, k: string): nat
    requires e.WellFormed()
    decreases e.Rank(k), 1
  {
    if k in e.fields && e.fields[k].default.Computed? then
      InputsBelow(e, k);
      1 + Deepest(e, k, e.Inputs(k))
    else 0
  }

  /** The same for the validated value, for which the peer is read. */
  ghost function Reach(e: Env, k: string): (r: nat)
    requires e.WellFormed()
    ensures Depth(e, k) <= r && (e.Peer(k).Some? ==> Depth(e, e.Peer(k).value) <= r)
    decreases e.Top(k), 2
  {
    if e.Peer(k).Some? && Depth(e, e.Peer(k).value) > Depth(e, k) then Depth(e, e.Peer(k).value) else Depth(e, k)
  }

  ghost function Deepest(e: Env, k: string, inputs: seq<string>): (r: nat)
    requires e.WellFormed() && forall i :: 0 <= i < |inputs| ==> e.Top(inputs[i]) < e.Rank(k)
    ensures forall i :: 0 <= i < |inputs| ==> Reach(e, inputs[i]) <= r
    decreases e.Rank(k), 0, |inputs|
  {
    if inputs == [] then 0
    else
      var r := Deepest(e, k, inputs[1..]);
      assert forall i :: 1 <= i < |inputs| ==> inputs[i] == inputs[1..][i - 1];
      if Reach(e, inputs[0]) > r then Reach(e, inputs[0]) else r
  }

  /** How old what a lookup of the raw value goes to the table for may be. */
  ghost function Span(e: Env, k: string): nat
    requires e.WellFormed()
  {
    WINDOW * Depth(e, k)
  }

  ghost function SpanFinal(e: Env, k: string): (r: nat)
    requires e.WellFormed()
    ensures Span(e, k) <= r && (e.Peer(k).Some? ==> Span(e, e.Peer(k).value) <= r)
  {
    WINDOW * Reach(e, k)
  }

  lemma InputSpan(e: Env, k: string, i: nat)
    requires e.WellFormed() && k in e.fields && e.fields[k].default.Computed? && i < |e.Inputs(k)|
    ensures SpanFinal(e, e.Inputs(k)[i]) + WINDOW <= Span(e, k)
  {
    InputsBelow(e, k);
  }

  // ----- The invariant -----

  ghost predicate EntryOk(e: Env, log: Log, k: string, v: Value, lo: int)
    requires e.WellFormed()
  {
    exists stored :: Origin(e, log, k, stored, lo) && v == Encode(stored)
  }

  ghost predicate RedisOk(e: Env, log: Log, redis: map<string, Entry>)
    requires e.WellFormed()
  {
    forall k <- redis :: EntryOk(e, log, k, redis[k].value, redis[k].expires - CACHE_TIMEOUT - Span(e, k))
  }

  ghost predicate MemoOk(e: Env, log: Log, memo: map<string, Memo>)
    requires e.WellFormed()
  {
    forall k <- memo :: k in e.fields && LocalExplained(e, log, k, memo[k].result, memo[k].expires - WINDOW - SpanFinal(e, k))
  }

  ghost predicate FrameOk(e: Env, log: Log, f: Frame, now: nat)
    requires e.WellFormed()
  {
    match f
    case Look(k, _) => true
    case Load(batch, left) =>
      && (forall k <- batch :: EntryOk(e, log, k, batch[k], now - Span(e, k)))
      && (forall k <- left :: k in e.fields && Unserved(e, log, k, now))
    case Compute(k, xs, _) =>
      k in e.fields && e.fields[k].default.Computed? && Unserved(e, log, k, now) && Read(e, log, k, xs, now - Span(e, k))
    case Store(k, raw, _) => Origin(e, log, k, raw, now - Span(e, k))
    case Have(k, raw, _) => Explained(e, log, k, raw, now - CACHE_TIMEOUT - Span(e, k))
    case Check(k, raw) => Explained(e, log, k, raw, now - CACHE_TIMEOUT - Span(e, k))
    case Keep(k, local) => k in e.fields && LocalExplained(e, log, k, local, now - CACHE_TIMEOUT - SpanFinal(e, k))
  }

  ghost predicate StackOk(e: Env, log: Log, stack: Stack, now: nat)
    requires e.WellFormed()
  {
    stack.Over? ==> FrameOk(e, log, stack.top, now) && StackOk(e, log, stack.rest, now)
  }

  /** What waits for the raw value of a peer has the lookup of it on top. */
  predicate Ready(stack: Stack) {
    stack.Over? ==> !stack.top.Check?
  }

  ghost predicate ProcOk(e: Env, log: Log, proc: Proc, now: nat)
    requires e.WellFormed()
  {
    Shaped(e, proc.stack) && Ready(proc.stack) && StackOk(e, log, proc.stack, now) && MemoOk(e, log, proc.memo)
  }

  ghost predicate LogOk(e: Env, log: Log) {
    forall m :: 0 <= m < |log| ==> Clean(e, log[m].rows) && log[m].time <= log[|log| - 1].time
  }

  ghost predicate Inv(e: Env, s: State)
    requires e.WellFormed()
  {
    && LogOk(e, s.log) && RedisOk(e, s.log, s.redis)
    && forall p :: 0 <= p < |s.procs| ==> ProcOk(e, s.log, s.procs[p], Now(s))
  }

  // ----- What holds keeps holding as the log grows -----

  lemma SeenOn(e: Env, log: Log, more: Log, k: string, raw: Value, lo: int, lo': int)
    requires k in e.fields && log <= more && lo' <= lo
    ensures Seen(e, log, k, raw, lo) ==> Seen(e, more, k, raw, lo')
    ensures Unserved(e, log, k, lo) ==> Unserved(e, more, k, lo')
  {
    hide MayDefault, Gives;
    if Seen(e, log, k, raw, lo) {
      var m :| Recent(log, m, lo) && Gives(e, log[m].rows, k, raw);
      assert Recent(more, m, lo') && Gives(e, more[m].rows, k, raw);
    }
    if Unserved(e, log, k, lo) {
      var m :| Recent(log, m, lo) && MayDefault(e, log[m].rows, k);
      assert Recent(more, m, lo') && MayDefault(e, more[m].rows, k);
    }
  }

  lemma {:induction false} OriginOn(e: Env, log: Log, more: Log, k: string, raw: Value, lo: int, lo': int)
    requires e.WellFormed() && log <= more && lo' <= lo && Origin(e, log, k, raw, lo)
    ensures Origin(e, more, k, raw, lo')
    decreases e.Rank(k), 2
  {
    hide Seen, Unserved, Env.WellFormed;
    SeenOn(e, log, more, k, raw, lo, lo');
    if !Seen(e, log, k, raw, lo) {
      var xs :| Derived(e, log, k, raw, xs, lo);
      ReadOn(e, log, more, k, xs, lo, lo');
      assert Derived(e, more, k, raw, xs, lo');
    }
  }

  lemma {:induction false} ExplainedOn(e: Env, log: Log, more: Log, k: string, raw: Value, lo: int, lo': int)
    requires e.WellFormed() && log <= more && lo' <= lo && Explained(e, log, k, raw, lo)
    ensures Explained(e, more, k, raw, lo')
    decreases e.Rank(k), 3
  {
    hide Origin, Env.WellFormed, ReadBack;
    var stored :| Origin(e, log, k, stored, lo) && (raw == stored || raw == ReadBack(stored));
    OriginOn(e, log, more, k, stored, lo, lo');
  }

  lemma {:induction false} ReadOn(e: Env, log: Log, more: Log, k: string, xs: seq<Option<Value>>, lo: int, lo': int)
    requires e.WellFormed() && log <= more && lo' <= lo && k in e.fields && e.fields[k].default.Computed?
    requires Read(e, log, k, xs, lo)
    ensures Read(e, more, k, xs, lo')
    decreases e.Rank(k), 1
  {
    hide Justified, Env.WellFormed;
    InputsBelow(e, k);
    forall i | 0 <= i < |xs|
      ensures Justified(e, more, e.Inputs(k)[i], xs[i], lo')
    {
      JustifiedOn(e, log, more, e.Inputs(k)[i], xs[i], lo, lo');
    }
  }

  lemma {:induction false} JustifiedOn(e: Env, log: Log, more: Log, k: string, x: Option<Value>, lo: int, lo': int)
    requires e.WellFormed() && log <= more && lo' <= lo && Justified(e, log, k, x, lo)
    ensures Justified(e, more, k, x, lo')
    decreases e.Top(k), 6
  {
    hide LocalExplained, Env.WellFormed;
    if k in e.fields {
      var local :| LocalExplained(e, log, k, local, lo) && x == Finish(e, k, local);
      LocalOn(e, log, more, k, local, lo, lo');
    }
  }

  lemma {:induction false} LocalOn(e: Env, log: Log, more: Log, k: string, local: Option<Value>, lo: int, lo': int)
    requires e.WellFormed() && log <= more && lo' <= lo && k in e.fields && LocalExplained(e, log, k, local, lo)
    ensures LocalExplained(e, more, k, local, lo')
    decreases e.Top(k), 5
  {
    hide Explained, Env.WellFormed, Local;
    var raw, peer :| Validated(e, log, k, raw, peer, lo) && local == Local(e, k, raw, peer);
    ExplainedOn(e, log, more, k, raw, lo, lo');
    if raw != NOTSET && e.Peer(k).Some? {
      PeerOn(e, log, more, e.Peer(k).value, peer, lo, lo');
    }
    assert Validated(e, more, k, raw, peer, lo');
  }

  lemma {:induction false} PeerOn(e: Env, log: Log, more: Log, p: string, peer: Option<Value>, lo: int, lo': int)
    requires e.WellFormed() && log <= more && lo' <= lo && PeerExplained(e, log, p, peer, lo)
    ensures PeerExplained(e, more, p, peer, lo')
    decreases e.Rank(p), 4
  {
    hide Explained, Env.WellFormed;
    var raw :| Explained(e, log, p, raw, lo) && peer == Usable(raw);
    ExplainedOn(e, log, more, p, raw, lo, lo');
  }

  lemma EntryOn(e: Env, log: Log, more: Log, k: string, v: Value, lo: int, lo': int)
    requires e.WellFormed() && log <= more && lo' <= lo && EntryOk(e, log, k, v, lo)
    ensures EntryOk(e, more, k, v, lo')
  {
    hide Origin, Env.WellFormed, Encode;
    var stored :| Origin(e, log, k, stored, lo) && v == Encode(stored);
    OriginOn(e, log, more, k, stored, lo, lo');
  }

  lemma RedisOn(e: Env, log: Log, more: Log, redis: map<string, Entry>)
    requires e.WellFormed() && log <= more && RedisOk(e, log, redis)
    ensures RedisOk(e, more, redis)
  {
    hide EntryOk, Env.WellFormed, Span;
    forall k <- redis
      ensures EntryOk(e, more, k, redis[k].value, redis[k].expires - CACHE_TIMEOUT - Span(e, k))
    {
      var lo := redis[k].expires - CACHE_TIMEOUT - Span(e, k);
      EntryOn(e, log, more, k, redis[k].value, lo, lo);
    }
  }

  lemma MemoOn(e: Env, log: Log, more: Log, memo: map<string, Memo>)
    requires e.WellFormed() && log <= more && MemoOk(e, log, memo)
    ensures MemoOk(e, more, memo)
  {
    hide LocalExplained, Env.WellFormed, SpanFinal;
    forall k <- memo
      ensures k in e.fields && LocalExplained(e, more, k, memo[k].result, memo[k].expires - WINDOW - SpanFinal(e, k))
    {
      var lo := memo[k].expires - WINDOW - SpanFinal(e, k);
      LocalOn(e, log, more, k, memo[k].result, lo, lo);
    }
  }

  lemma FrameOn(e: Env, log: Log, more: Log, f: Frame, now: nat)
    requires e.WellFormed() && log <= more && FrameOk(e, log, f, now)
    ensures FrameOk(e, more, f, now)
  {
    hide Explained, Origin, Read, Unserved, EntryOk, LocalExplained, Env.WellFormed, Span, SpanFinal;
    match f
    case Look(_, _) =>
    case Load(batch, left) =>
      forall k <- batch
        ensures EntryOk(e, more, k, batch[k], now - Span(e, k))
      {
        EntryOn(e, log, more, k, batch[k], now - Span(e, k), now - Span(e, k));
      }
      forall k <- left
        ensures Unserved(e, more, k, now)
      {
        SeenOn(e, log, more, k, NOTSET, now, now);
      }
    case Compute(k, xs, _) =>
      SeenOn(e, log, more, k, NOTSET, now, now);
      ReadOn(e, log, more, k, xs, now - Span(e, k), now - Span(e, k));
    case Store(k, raw, _) =>
      OriginOn(e, log, more, k, raw, now - Span(e, k), now - Span(e, k));
    case Keep(k, local) =>
      LocalOn(e, log, more, k, local, now - CACHE_TIMEOUT - SpanFinal(e, k), now - CACHE_TIMEOUT - SpanFinal(e, k));
    case _ =>
      var lo := now - CACHE_TIMEOUT - Span(e, f.key);
      ExplainedOn(e, log, more, f.key, f.raw, lo, lo);
  }

  lemma {:induction false} StackOn(e: Env, log: Log, more: Log, stack: Stack, now: nat)
    requires e.WellFormed() && log <= more && StackOk(e, log, stack, now)
    ensures StackOk(e, more, stack, now)
  {
    hide FrameOk, Env.WellFormed;
    if stack.Over? {
      FrameOn(e, log, more, stack.top, now);
      StackOn(e, log, more, stack.rest, now);
    }
  }

  // ----- Facts about single values -----

  /** The present instant. */
  lemma Present(e: Env, s: State, k: string)
    requires e.WellFormed() && Inv(e, s) && k in e.fields
    ensures MayDefault(e, Table(s), k) ==> Unserved(e, s.log, k, Now(s))
    ensures forall raw :: Gives(e, Table(s), k, raw) ==> Seen(e, s.log, k, raw, Now(s))
  {
    hide MayDefault, Gives, Clean, RedisOk, ProcOk, Env.WellFormed;
    var m := |s.log| - 1;
    assert Recent(s.log, m, Now(s));
    assert s.log[m].rows == Table(s);
  }

  lemma SeenIsOrigin(e: Env, log: Log, k: string, raw: Value, lo: int, lo': int)
    requires e.WellFormed() && k in e.fields && Seen(e, log, k, raw, lo) && lo' <= lo
    ensures Origin(e, log, k, raw, lo')
  {
    hide Seen, Env.WellFormed;
    SeenOn(e, log, log, k, raw, lo, lo');
  }

  /** A value read from the table now. */
  lemma QueriedOk(e: Env, s: State, k: string, peek: bool)
    requires e.WellFormed() && Inv(e, s) && k in e.fields
    ensures FrameOk(e, s.log, Queried(e, Table(s), k, peek), Now(s))
  {
    hide Env.WellFormed, Inv, Seen, Unserved, First, RowRaw, Origin, FirstSet, Fixed;
    Present(e, s, k);
    var f := Queried(e, Table(s), k, peek);
    if f.Store? {
      assert Gives(e, Table(s), k, f.raw);
      SeenIsOrigin(e, s.log, k, f.raw, Now(s), Now(s) - Span(e, k));
    }
  }

  lemma StoredIsEntry(e: Env, log: Log, k: string, raw: Value, lo: int)
    requires e.WellFormed() && Origin(e, log, k, raw, lo)
    ensures EntryOk(e, log, k, Encode(raw), lo) && Explained(e, log, k, raw, lo)
  {
    hide Origin, Env.WellFormed;
  }

  lemma EntryIsExplained(e: Env, log: Log, k: string, v: Value, lo: int)
    requires e.WellFormed() && EntryOk(e, log, k, v, lo) && Decode(v).Some?
    ensures Explained(e, log, k, Decode(v).value, lo)
  {
    hide Origin, Env.WellFormed, Decode, Encode;
    var stored :| Origin(e, log, k, stored, lo) && v == Encode(stored);
    assert Decode(v).value == ReadBack(stored);
  }

  lemma LoadFromOk(e: Env, s: State)
    requires e.WellFormed() && Inv(e, s)
    ensures FrameOk(e, s.log, LoadFrom(e, Table(s)), Now(s))
  {
    hide Env.WellFormed, Unserved, Inv, EntryOk, Span, RowRaw, FirstSet, Encode, Served;
    var f := LoadFrom(e, Table(s));
    forall k <- f.batch
      ensures EntryOk(e, s.log, k, f.batch[k], Now(s) - Span(e, k))
    {
      LoadedRowOk(e, s, k);
    }
    forall k <- f.left
      ensures k in e.fields && Unserved(e, s.log, k, Now(s))
    {
      Present(e, s, k);
    }
  }

  lemma LoadedRowOk(e: Env, s: State, k: string)
    requires e.WellFormed() && Inv(e, s) && k in e.fields && e.FromDatabase(k) && FirstSet(e, Table(s), k).Some?
    ensures EntryOk(e, s.log, k, Encode(RowRaw(e, FirstSet(e, Table(s), k).value)), Now(s) - Span(e, k))
  {
    hide Env.WellFormed, Seen, Inv, EntryOk, Span, RowRaw, Encode, FirstSet, First;
    var raw := RowRaw(e, FirstSet(e, Table(s), k).value);
    Present(e, s, k);
    assert Gives(e, Table(s), k, raw);
    SeenIsOrigin(e, s.log, k, raw, Now(s), Now(s) - Span(e, k));
    StoredIsEntry(e, s.log, k, raw, Now(s) - Span(e, k));
  }

  /** A default that reads nothing, put in the batch of a load. */
  lemma FixedOk(e: Env, log: Log, k: string, lo: int, lo': int)
    requires e.WellFormed() && k in e.fields && Unserved(e, log, k, lo) && !e.fields[k].default.Computed? && lo' <= lo
    ensures EntryOk(e, log, k, Encode(Fixed(e, k)), lo')
  {
    hide Env.WellFormed, MayDefault, EntryOk, Encode, Fixed;
    var m :| Recent(log, m, lo) && MayDefault(e, log[m].rows, k);
    assert Gives(e, log[m].rows, k, Fixed(e, k));
    SeenIsOrigin(e, log, k, Fixed(e, k), lo, lo');
    StoredIsEntry(e, log, k, Fixed(e, k), lo');
  }

  /** A default computed from inputs read meanwhile. */
  lemma ComputedOk(e: Env, log: Log, k: string, xs: seq<Option<Value>>, now: nat)
    requires e.WellFormed() && k in e.fields && e.fields[k].default.Computed?
    requires |xs| == |e.Inputs(k)| && Unserved(e, log, k, now) && Read(e, log, k, xs, now - Span(e, k))
    ensures Origin(e, log, k, Normal(e.fields[k].default.compute(xs)), now - Span(e, k))
  {
    hide Env.WellFormed, Seen, Unserved, Read;
    SeenOn(e, log, log, k, NOTSET, now, now - Span(e, k));
    assert Derived(e, log, k, Normal(e.fields[k].default.compute(xs)), xs, now - Span(e, k));
  }

  /** Handing a justified value to the frame that waits for it. */
  lemma ReturnOk(e: Env, log: Log, f: Frame, rest: Stack, x: Option<Value>, now: nat)
    requires e.WellFormed() && Shaped(e, Over(f, rest)) && StackOk(e, log, rest, now)
    requires (f.Look? && !f.peek) || f.Keep?
    requires Justified(e, log, f.key, x, now - WINDOW - SpanFinal(e, f.key))
    ensures Shaped(e, Return(rest, x)) && Ready(Return(rest, x)) && StackOk(e, log, Return(rest, x), now)
  {
    hide Env.WellFormed, Justified, Unserved, Span, SpanFinal;
    if rest.Over? {
      var k, xs := rest.top.key, rest.top.xs;
      InputSpan(e, k, |xs|);
      JustifiedOn(e, log, log, f.key, x, now - WINDOW - SpanFinal(e, f.key), now - Span(e, k));
      assert Read(e, log, k, xs + [x], now - Span(e, k));
    }
  }

  lemma MemoJustified(e: Env, log: Log, memo: map<string, Memo>, k: string, now: nat)
    requires e.WellFormed() && MemoOk(e, log, memo) && Fresh(memo, k, now)
    ensures Justified(e, log, k, Finish(e, k, memo[k].result), now - WINDOW - SpanFinal(e, k))
  {
    hide Env.WellFormed, LocalExplained, SpanFinal;
    LocalOn(e, log, log, k, memo[k].result, memo[k].expires - WINDOW - SpanFinal(e, k), now - WINDOW - SpanFinal(e, k));
  }

  lemma SavedJustified(e: Env, log: Log, k: string, local: Option<Value>, now: nat)
    requires e.WellFormed() && FrameOk(e, log, Keep(k, local), now)
    ensures LocalExplained(e, log, k, local, now + MEMORY_TTL - WINDOW - SpanFinal(e, k))
    ensures Justified(e, log, k, Finish(e, k, local), now - WINDOW - SpanFinal(e, k))
  {
    hide Env.WellFormed, LocalExplained, SpanFinal;
    LocalOn(e, log, log, k, local, now - CACHE_TIMEOUT - SpanFinal(e, k), now - WINDOW - SpanFinal(e, k));
  }

  lemma HitOk(e: Env, log: Log, redis: map<string, Entry>, k: string, now: nat)
    requires e.WellFormed() && RedisOk(e, log, redis)
    requires k in redis && now < redis[k].expires && Decode(redis[k].value).Some?
    ensures Explained(e, log, k, Decode(redis[k].value).value, now - CACHE_TIMEOUT - Span(e, k))
  {
    hide Env.WellFormed, Explained, EntryOk, Decode, Span;
    var lo := redis[k].expires - CACHE_TIMEOUT - Span(e, k);
    EntryIsExplained(e, log, k, redis[k].value, lo);
    ExplainedOn(e, log, log, k, Decode(redis[k].value).value, lo, now - CACHE_TIMEOUT - Span(e, k));
  }

  /** Validating a raw value, with that of the peer where there is one. */
  lemma ValidatedOk(e: Env, log: Log, k: string, raw: Value, peer: Option<Value>, now: nat)
    requires e.WellFormed() && k in e.fields && Explained(e, log, k, raw, now - CACHE_TIMEOUT - Span(e, k))
    requires raw != NOTSET && e.Peer(k).Some? ==>
               exists p :: peer == Usable(p) && Explained(e, log, e.Peer(k).value, p, now - CACHE_TIMEOUT - Span(e, e.Peer(k).value))
    requires e.Peer(k).None? ==> peer == None
    ensures FrameOk(e, log, Keep(k, Local(e, k, raw, peer)), now)
  {
    hide Env.WellFormed, Explained, Span, SpanFinal, Local;
    var lo := now - CACHE_TIMEOUT - SpanFinal(e, k);
    ExplainedOn(e, log, log, k, raw, now - CACHE_TIMEOUT - Span(e, k), lo);
    if raw != NOTSET && e.Peer(k).Some? {
      var q := e.Peer(k).value;
      var p :| peer == Usable(p) && Explained(e, log, q, p, now - CACHE_TIMEOUT - Span(e, q));
      ExplainedOn(e, log, log, q, p, now - CACHE_TIMEOUT - Span(e, q), lo);
      assert PeerExplained(e, log, q, peer, lo);
    }
    assert Validated(e, log, k, raw, peer, lo);
  }

  // ----- One lemma for each kind of step of a process -----

  lemma QueryKeeps(e: Env, s: State, proc: Proc)
    requires e.WellFormed() && Inv(e, s) && ProcOk(e, s.log, proc, Now(s)) && proc.stack.Over? && proc.stack.top.Look?
    ensures ProcOk(e, s.log, proc.(stack := Over(Queried(e, Table(s), proc.stack.top.key, proc.stack.top.peek), proc.stack.rest)), Now(s))
    ensures ProcOk(e, s.log, proc.(stack := Over(LoadFrom(e, Table(s)), proc.stack)), Now(s))
  {
    hide Env.WellFormed, Inv, FrameOk, MemoOk, Served, First, RowRaw, Encode, FirstSet, Fixed;
    QueriedOk(e, s, proc.stack.top.key, proc.stack.top.peek);
    LoadFromOk(e, s);
  }

  lemma DefaultKeeps(e: Env, log: Log, proc: Proc, k: string, now: nat)
    requires e.WellFormed() && ProcOk(e, log, proc, now)
    requires proc.stack.Over? && proc.stack.top.Load? && k in proc.stack.top.left
    ensures k in e.fields && ProcOk(e, log, proc.(stack := Defaulted(e, proc.stack.top, k, proc.stack.rest)), now)
  {
    hide Env.WellFormed, MemoOk, Unserved, Encode, EntryOk, Read, Fixed, Span;
    var load := proc.stack.top;
    assert k in e.fields && Unserved(e, log, k, now);
    if e.fields[k].default.Computed? {
      ReadNone(e, log, k, now - Span(e, k));
    } else {
      FixedOk(e, log, k, now, now - Span(e, k));
    }
  }

  lemma ReadNone(e: Env, log: Log, k: string, lo: int)
    requires e.WellFormed() && k in e.fields && e.fields[k].default.Computed?
    ensures Read(e, log, k, [], lo)
  {
  }

  lemma InputKeeps(e: Env, log: Log, proc: Proc, now: nat)
    requires e.WellFormed() && ProcOk(e, log, proc, now)
    requires proc.stack.Over? && proc.stack.top.Compute? && |proc.stack.top.xs| < |e.Inputs(proc.stack.top.key)|
    ensures ProcOk(e, log, proc.(stack := AfterInput(e, proc.stack.top, proc.stack.rest)), now)
  {
    hide Env.WellFormed, MemoOk, Unserved, Origin, LocalExplained, Span;
    var f := proc.stack.top;
    var d := e.Inputs(f.key)[|f.xs|];
    if d !in e.fields {
      assert Justified(e, log, d, e.FileDefault(d), now - Span(e, f.key));
      assert Read(e, log, f.key, f.xs + [e.FileDefault(d)], now - Span(e, f.key));
    }
  }

  lemma ComputedKeeps(e: Env, log: Log, proc: Proc, now: nat)
    requires e.WellFormed() && ProcOk(e, log, proc, now)
    requires proc.stack.Over? && proc.stack.top.Compute? && |proc.stack.top.xs| == |e.Inputs(proc.stack.top.key)|
    ensures ProcOk(e, log, proc.(stack := AfterComputed(e, proc.stack.top, proc.stack.rest)), now)
  {
    hide Env.WellFormed, MemoOk, Unserved, Origin, Explained, LocalExplained, Encode, EntryOk, Normal, Span, Read;
    var f := proc.stack.top;
    ComputedOk(e, log, f.key, f.xs, now);
    var raw := Normal(e.fields[f.key].default.compute(f.xs));
    StoredIsEntry(e, log, f.key, raw, now - Span(e, f.key));
    var rest := proc.stack.rest;
    assert Shaped(e, rest) && StackOk(e, log, rest, now);
    if f.purpose.ForLoad? {
      assert FrameOk(e, log, rest.top, now);
      assert FrameOk(e, log, Load(rest.top.batch[f.key := Encode(raw)], rest.top.left - {f.key}), now);
    }
  }

  lemma ValidateKeeps(e: Env, log: Log, proc: Proc, now: nat)
    requires e.WellFormed() && ProcOk(e, log, proc, now) && proc.stack.Over? && proc.stack.top.Have?
    ensures ProcOk(e, log, proc.(stack := AfterHave(e, proc.stack.top, proc.stack.rest)), now)
  {
    hide Env.WellFormed, MemoOk, Explained, LocalExplained, Span, Local;
    var f, rest := proc.stack.top, proc.stack.rest;
    assert Shaped(e, rest) && StackOk(e, log, rest, now);
    if f.peek {
      var k, raw := rest.top.key, rest.top.raw;
      assert FrameOk(e, log, rest.top, now);
      ValidatedOk(e, log, k, raw, Usable(f.raw), now);
    } else if f.raw == NOTSET || e.Peer(f.key).None? {
      ValidatedOk(e, log, f.key, f.raw, None, now);
    } else {
      PeerKnown(e, f.key);
      assert FrameOk(e, log, Check(f.key, f.raw), now);
      assert Shaped(e, Over(Check(f.key, f.raw), rest)) && StackOk(e, log, Over(Check(f.key, f.raw), rest), now);
    }
  }

  lemma AnswerKeeps(e: Env, log: Log, proc: Proc, now: nat)
    requires e.WellFormed() && ProcOk(e, log, proc, now) && proc.stack.Over?
    ensures ((proc.stack.top.Look? && !proc.stack.top.peek) || proc.stack.top.Keep?) && Fresh(proc.memo, proc.stack.top.key, now) ==>
              var x := MemoResult(e, proc, proc.stack.top.key);
              Justified(e, log, proc.stack.top.key, x, now - WINDOW - SpanFinal(e, proc.stack.top.key))
              && ProcOk(e, log, proc.(stack := Return(proc.stack.rest, x)), now)
  {
    hide Env.WellFormed, LocalExplained, SpanFinal, Justified, MemoOk, FrameOk;
    if ((proc.stack.top.Look? && !proc.stack.top.peek) || proc.stack.top.Keep?) && Fresh(proc.memo, proc.stack.top.key, now) {
      MemoJustified(e, log, proc.memo, proc.stack.top.key, now);
      ReturnOk(e, log, proc.stack.top, proc.stack.rest, MemoResult(e, proc, proc.stack.top.key), now);
    }
  }

  lemma SaveKeeps(e: Env, log: Log, proc: Proc, now: nat)
    requires e.WellFormed() && ProcOk(e, log, proc, now) && proc.stack.Over? && proc.stack.top.Keep?
    ensures var k, local := proc.stack.top.key, proc.stack.top.local;
            && Justified(e, log, k, Finish(e, k, local), now - WINDOW - SpanFinal(e, k))
            && ProcOk(e, log, Proc(Return(proc.stack.rest, Finish(e, k, local)), proc.memo[k := Memo(local, now + MEMORY_TTL)]), now)
  {
    hide Env.WellFormed, LocalExplained, SpanFinal, Justified, FrameOk, Finish;
    var k, local := proc.stack.top.key, proc.stack.top.local;
    SavedJustified(e, log, k, local, now);
    ReturnOk(e, log, proc.stack.top, proc.stack.rest, Finish(e, k, local), now);
  }

  lemma StoreKeeps(e: Env, log: Log, k: string, raw: Value, peek: bool, now: nat)
    requires e.WellFormed() && FrameOk(e, log, Store(k, raw, peek), now)
    ensures FrameOk(e, log, Have(k, raw, peek), now)
    ensures EntryOk(e, log, k, Encode(raw), now - Span(e, k))
  {
    hide Env.WellFormed, Explained, Origin, Span, EntryOk, Encode;
    StoredIsEntry(e, log, k, raw, now - Span(e, k));
    ExplainedOn(e, log, log, k, raw, now - Span(e, k), now - CACHE_TIMEOUT - Span(e, k));
  }

  lemma LoadKeeps(e: Env, log: Log, proc: Proc, k: string, now: nat)
    requires e.WellFormed() && ProcOk(e, log, proc, now) && proc.stack.Over? && proc.stack.top.Load? && k in proc.stack.top.batch
    ensures ProcOk(e, log, proc.(stack := Over(Load(proc.stack.top.batch - {k}, {}), proc.stack.rest)), now)
    ensures EntryOk(e, log, k, proc.stack.top.batch[k], now - Span(e, k))
  {
    hide Env.WellFormed, EntryOk, Span, Unserved, MemoOk;
  }

  /** What a process does leaves it as it should be. */
  lemma ProcKeeps(e: Env, s: State, proc: Proc, a: Action)
    requires e.WellFormed() && Inv(e, s) && ProcOk(e, s.log, proc, Now(s)) && EnabledIn(e, s, proc, a)
    ensures ProcOk(e, s.log, StepProc(e, s, proc, a), Now(s))
  {
    hide EnabledIn, StepProc, Env.WellFormed, ProcOk, Inv;
    if a.Hit? || a.Query? || a.Preload? || a.LoadDefault? || a.LoadWrite? || a.LoadEnd? || a.Write? {
      FetchKeeps(e, s, proc, a);
    } else {
      WorkKeeps(e, s, proc, a);
    }
  }

  lemma FetchKeeps(e: Env, s: State, proc: Proc, a: Action)
    requires e.WellFormed() && Inv(e, s) && ProcOk(e, s.log, proc, Now(s)) && EnabledIn(e, s, proc, a)
    requires a.Hit? || a.Query? || a.Preload? || a.LoadDefault? || a.LoadWrite? || a.LoadEnd? || a.Write?
    ensures ProcOk(e, s.log, StepProc(e, s, proc, a), Now(s))
  {
    hide Env.WellFormed, FrameOk, Decode, Table, Queried, LoadFrom, Defaulted, AfterInput, AfterComputed, AfterHave,
      Return, Finish, LocalExplained, Span, RedisOk, LogOk, Now, Explained;
    match a
    case Hit(_) =>
      HitOk(e, s.log, s.redis, proc.stack.top.key, Now(s));
      HaveOk(e, s.log, proc.stack.top.key, Decode(s.redis[proc.stack.top.key].value).value, proc.stack.top.peek, Now(s));
    case Query(_) => QueryKeeps(e, s, proc);
    case Preload(_) => QueryKeeps(e, s, proc);
    case LoadDefault(_, k) => DefaultKeeps(e, s.log, proc, k, Now(s));
    case LoadWrite(_, k, _) => LoadKeeps(e, s.log, proc, k, Now(s));
    case Write(_, _) => StoreKeeps(e, s.log, proc.stack.top.key, proc.stack.top.raw, proc.stack.top.peek, Now(s));
    case LoadEnd(_) =>
  }

  lemma WorkKeeps(e: Env, s: State, proc: Proc, a: Action)
    requires e.WellFormed() && Inv(e, s) && ProcOk(e, s.log, proc, Now(s)) && EnabledIn(e, s, proc, a)
    requires !(a.Hit? || a.Query? || a.Preload? || a.LoadDefault? || a.LoadWrite? || a.LoadEnd? || a.Write?)
    ensures ProcOk(e, s.log, StepProc(e, s, proc, a), Now(s))
  {
    hide Env.WellFormed, FrameOk, Decode, Table, Queried, LoadFrom, Defaulted, AfterInput, AfterComputed, AfterHave,
      Return, Finish, LocalExplained, Span, RedisOk, LogOk, Now, Explained;
    match a
    case Input(_) => InputKeeps(e, s.log, proc, Now(s));
    case Conclude(_) => ComputedKeeps(e, s.log, proc, Now(s));
    case Validate(_) => ValidateKeeps(e, s.log, proc, Now(s));
    case Remember(_) => AnswerKeeps(e, s.log, proc, Now(s));
    case Save(_) => SaveKeeps(e, s.log, proc, Now(s));
    case Begin(_, k) => LookOk(e, s.log, k, Now(s));
    case _ =>
  }

  lemma HaveOk(e: Env, log: Log, k: string, raw: Value, peek: bool, now: nat)
    requires e.WellFormed() && Explained(e, log, k, raw, now - CACHE_TIMEOUT - Span(e, k))
    ensures FrameOk(e, log, Have(k, raw, peek), now)
  {
  }

  lemma LookOk(e: Env, log: Log, k: string, now: nat)
    requires e.WellFormed()
    ensures FrameOk(e, log, Look(k, false), now)
  {
  }

  lemma RedisKeeps(e: Env, s: State, a: Action)
    requires e.WellFormed() && Inv(e, s) && Enabled(e, s, a)
    ensures RedisOk(e, s.log, StepRedis(e, s, a))
  {
    hide Env.WellFormed, EntryOk, Span, Encode, FrameOk, LogOk, MemoOk, Now;
    match a
    case LoadWrite(p, k, false) => LoadKeeps(e, s.log, s.procs[p], k, Now(s));
    case Write(p, false) =>
      StoreKeeps(e, s.log, s.procs[p].stack.top.key, s.procs[p].stack.top.raw, s.procs[p].stack.top.peek, Now(s));
    case _ =>
  }

  /** A process that waits has read nothing yet, so time may pass for it. */
  lemma WaitingKeeps(e: Env, log: Log, proc: Proc, now: nat, later: nat)
    requires e.WellFormed() && ProcOk(e, log, proc, now) && Waiting(proc.stack)
    ensures ProcOk(e, log, proc, later)
  {
    hide Env.WellFormed, MemoOk;
    assert StackOk(e, log, Bottom, later);
  }

  lemma ProcOn(e: Env, log: Log, more: Log, proc: Proc, now: nat)
    requires e.WellFormed() && log <= more && ProcOk(e, log, proc, now)
    ensures ProcOk(e, more, proc, now)
  {
    hide Env.WellFormed, MemoOk, StackOk;
    StackOn(e, log, more, proc.stack, now);
    MemoOn(e, log, more, proc.memo);
  }

  /** The log gets a new instant, at which time has passed only if every process waits. */
  lemma InstantKeeps(e: Env, s: State, i: Instant)
    requires e.WellFormed() && Inv(e, s) && Clean(e, i.rows) && Now(s) <= i.time
    requires i.time == Now(s) || forall p :: 0 <= p < |s.procs| ==> Waiting(s.procs[p].stack)
    ensures Inv(e, s.(log := s.log + [i]))
  {
    hide Env.WellFormed, ProcOk, RedisOk, Clean, Waiting;
    var more: Log := s.log + [i];
    RedisOn(e, s.log, more, s.redis);
    forall p | 0 <= p < |s.procs|
      ensures ProcOk(e, more, s.procs[p], i.time)
    {
      ProcOn(e, s.log, more, s.procs[p], Now(s));
      if i.time != Now(s) {
        WaitingKeeps(e, more, s.procs[p], Now(s), i.time);
      }
    }
  }

  lemma InvShaped(e: Env, s: State)
    requires e.WellFormed() && Inv(e, s)
    ensures WellShaped(e, s) && Clean(e, Table(s))
  {
    hide Env.WellFormed, Clean, Shaped, StackOk, MemoOk, RedisOk;
  }

  lemma ForkKeeps(e: Env, log: Log, proc: Proc, now: nat)
    requires e.WellFormed() && ProcOk(e, log, proc, now)
    ensures ProcOk(e, log, Proc(Bottom, proc.memo), now)
  {
    hide Env.WellFormed, MemoOk;
  }

  /** Every step of every process, of the table and of the clock keeps the invariant. */
  lemma StepKeeps(e: Env, s: State, a: Action)
    requires e.WellFormed() && Inv(e, s) && Enabled(e, s, a)
    ensures WellShaped(e, s) && Inv(e, Step(e, s, a))
  {
    hide Env.WellFormed, ProcOk, RedisOk, LogOk, WellShaped, Clean, StepProc, StepRedis, EnabledIn, Table, Waiting, Shaped;
    InvShaped(e, s);
    match a
    case DbWrite(rows) => InstantKeeps(e, s, Instant(Now(s), rows));
    case Tick(seconds) => InstantKeeps(e, s, Instant(Now(s) + seconds, Table(s)));
    case Drop(_) => RedisKeeps(e, s, a);
    case Fork(p) => ForkKeeps(e, s.log, s.procs[p], Now(s));
    case _ =>
      RedisKeeps(e, s, a);
      ProcKeeps(e, s, s.procs[a.p], a);
  }
  // ----- The theorems -----

  /** The first processes start with an empty memo and the shared cache is empty. */
  ghost predicate Initial(e: Env, s: State) {
    && LogOk(e, s.log) && s.redis == map[]
    && forall p :: 0 <= p < |s.procs| ==> s.procs[p] == Proc(Bottom, map[])
  }

  ghost predicate Possible(e: Env, s: State, run: seq<Action>)
    requires e.WellFormed() && Inv(e, s)
    decreases |run|
  {
    run == [] || (Enabled(e, s, run[0]) && (StepKeeps(e, s, run[0]); Possible(e, Step(e, s, run[0]), run[1..])))
  }

  ghost function After(e: Env, s: State, run: seq<Action>): (r: State)
    requires e.WellFormed() && Inv(e, s) && Possible(e, s, run)
    ensures Inv(e, r)
    decreases |run|
  {
    if run == [] then s else (StepKeeps(e, s, run[0]); After(e, Step(e, s, run[0]), run[1..]))
  }

  lemma InitialOk(e: Env, s: State)
    requires e.WellFormed() && Initial(e, s)
    ensures Inv(e, s)
  {
  }

  ghost predicate Reaches(e: Env, start: State, run: seq<Action>, s: State)
    requires e.WellFormed()
  {
    Initial(e, start) && (InitialOk(e, start); Possible(e, start, run) && After(e, start, run) == s)
  }

  /** The states that some run of the processes leads to. */
  ghost predicate Reachable(e: Env, s: State)
    requires e.WellFormed()
  {
    exists start, run :: Reaches(e, start, run, s)
  }

  lemma ReachableOk(e: Env, s: State)
    requires e.WellFormed() && Reachable(e, s)
    ensures Inv(e, s) && WellShaped(e, s)
  {
    hide Env.WellFormed, Inv, Initial, Possible;
    var start, run :| Reaches(e, start, run, s);
    InitialOk(e, start);
    InvShaped(e, s);
  }

  ghost function AnswerIn(e: Env, s: State, a: Action): Option<Answer>
    requires e.WellFormed() && Reachable(e, s) && Enabled(e, s, a)
  {
    ReachableOk(e, s);
    Answered(e, s, a)
  }

  /** Some run leads to `s`, and its next step `a` answers a lookup of `k` with `x`. */
  ghost predicate Answers(e: Env, s: State, a: Action, k: string, x: Option<Value>) {
    e.WellFormed() && Reachable(e, s) && Enabled(e, s, a) && AnswerIn(e, s, a) == Some(Answer(k, x))
  }

  /** What a lookup answers rests only on what the table held in the last 65 * (reach + 1)
      seconds. */
  lemma AnswerJustified(e: Env, s: State, a: Action)
    requires e.WellFormed() && Inv(e, s) && Enabled(e, s, a)
    ensures WellShaped(e, s)
    ensures Answered(e, s, a).Some? ==>
              var answer := Answered(e, s, a).value;
              Justified(e, s.log, answer.key, answer.value, Now(s) - WINDOW * (Reach(e, answer.key) + 1))
  {
    hide Env.WellFormed, FrameOk, LocalExplained, RedisOk, LogOk, Reach, Now, Explained, MemoResult, Finish, Local;
    InvShaped(e, s);
    match a
    case Remember(p) => AnswerKeeps(e, s.log, s.procs[p], Now(s));
    case Save(p) => SaveKeeps(e, s.log, s.procs[p], Now(s));
    case _ =>
  }

}
