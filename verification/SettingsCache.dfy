/**
 The cached settings of one process: a five-second memo in front of a shared cache with
 sixty-second entries in front of the database, invalidated by the signals of every save
 and delete (forail/conf/settings.py:125-175, 284-485; forail/conf/signals.py:20-63;
 forail/conf/models.py:36-61).  Whatever the process does, a read of a tame setting returns
 what an uncached lookup would.
 */
module SettingsCache {
  import opened Options
  import opened SettingsModel

  datatype CacheKey = ValueOf(name: string) | IdOf(name: string) | Preloaded
  type Redis = map<CacheKey, Entry>

  function Live(redis: Redis, now: nat, key: CacheKey): Option<Value> {
    if key in redis && now < redis[key].expires then Some(redis[key].value) else None
  }

  /** What is cached stays cached. */
  ghost predicate Kept(was: Redis, redis: Redis, now: nat) {
    forall c <- was :: now < was[c].expires ==> c in redis && now < redis[c].expires
  }

  lemma KeptSame(redis: Redis, now: nat)
    ensures Kept(redis, redis, now)
  {
  }

  lemma KeptTransitive(a: Redis, b: Redis, c: Redis, now: nat)
    requires Kept(a, b, now) && Kept(b, c, now)
    ensures Kept(a, c, now)
  {
  }

  /** Nothing but the values of `keys` is lost. */
  lemma OthersKept(was: Redis, kept: Redis, redis: Redis, now: nat, keys: set<string>)
    requires kept == (map c <- was | !(c.ValueOf? && c.name in keys) :: was[c]) && Kept(kept, redis, now)
    ensures forall c <- was :: now < was[c].expires && !(c.ValueOf? && c.name in keys) ==> c in redis && now < redis[c].expires
  {
    forall c <- was | now < was[c].expires && !(c.ValueOf? && c.name in keys)
      ensures c in redis && now < redis[c].expires
    {
      assert c in kept;
    }
  }

  lemma KeptLive(was: Redis, redis: Redis, now: nat, c: CacheKey)
    requires Kept(was, redis, now) && Live(was, now, c).Some?
    ensures Live(redis, now, c).Some?
  {
  }

  lemma Updated(was: Redis, redis: Redis, now: nat, c: CacheKey, entry: Entry)
    requires now < entry.expires && redis == was[c := entry]
    ensures Kept(was, redis, now) && Live(redis, now, c) == Some(entry.value)
    ensures forall d :: d != c ==> Live(redis, now, d) == Live(was, now, d)
  {
    forall d | d != c
      ensures Live(redis, now, d) == Live(was, now, d)
    {
      assert d in redis <==> d in was;
    }
  }

  function EncodeId(id: Option<nat>): Value {
    match id case Some(n) => Num(n) case None => NOTSET
  }

  function DecodeId(v: Value): Option<nat> {
    if v.Num? && v.n >= 0 then Some(v.n) else None
  }

  /** The cached form of a plain value. */
  function Seal(e: Env, k: string, id: Option<nat>, v: Value): Value
    requires k in e.fields
  {
    if e.fields[k].encrypted && v.Str? then Str(e.crypto.encrypt(id, v.s)) else v
  }

  /** The plain cached form is right: always for an encrypted setting, otherwise if the
      cache can serve the setting at all. */
  ghost predicate PlainOk(e: Env, rows: Rows, k: string, v: Value)
    requires e.WellFormed() && k in e.fields
  {
    e.fields[k].encrypted || Tame(e, rows, k) ==> v == Encode(Raw(e, rows, k))
  }

  /** A cached form decrypts, under the id of the current row, to a right plain one. */
  ghost predicate ValueOk(e: Env, rows: Rows, k: string, v: Value)
    requires e.WellFormed()
  {
    k in e.fields &&
    if e.fields[k].encrypted then
      v.Str? && match e.crypto.decrypt(CurrentId(e, rows, k), v.s)
                case Some(s) => PlainOk(e, rows, k, Str(s))
                case None => false
    else PlainOk(e, rows, k, v)
  }

  /** The entry of one setting: the value is right, and where an id is cached beside it, it
      is the id the value is encrypted under. */
  ghost predicate Paired(e: Env, rows: Rows, redis: Redis, now: nat, k: string)
    requires e.WellFormed()
  {
    var v, id := Live(redis, now, ValueOf(k)), Live(redis, now, IdOf(k));
    v.Some? ==> ValueOk(e, rows, k, v.value) && (e.fields[k].encrypted && id.Some? ==> id.value == EncodeId(CurrentId(e, rows, k)))
  }

  ghost predicate RedisOk(e: Env, rows: Rows, redis: Redis, now: nat)
    requires e.WellFormed()
  {
    forall k: string :: Paired(e, rows, redis, now, k)
  }

  ghost predicate MemoOk(e: Env, rows: Rows, memo: map<string, Memo>, now: nat)
    requires e.WellFormed()
  {
    forall k <- memo :: now < memo[k].expires ==>
      k in e.fields && (TameFinal(e, rows, k) ==> memo[k].result == LocalOf(e, rows, k))
  }

  // ----- Facts about raw values -----

  lemma TameIsKeepable(e: Env, rows: Rows, k: string)
    requires e.WellFormed() && k in e.fields && Tame(e, rows, k)
    ensures Covered(e, k) && Regular(e, rows, k) && Keepable(Raw(e, rows, k))
    ensures Decode(Encode(Raw(e, rows, k))) == Usable(Raw(e, rows, k))
    ensures DefaultUsed(e, rows, k) ==> InputsTame(e, rows, k)
  {
    hide Raw, DefaultOf, Covered, Encode, Decode, TrustedFinal, FaithfulFinal;
    KeepableReadsBack(Raw(e, rows, k));
  }

  lemma TameBoth(e: Env, rows: Rows, k: string)
    requires e.WellFormed() && k in e.fields && TameFinal(e, rows, k)
    ensures Tame(e, rows, k)
    ensures e.Peer(k).Some? ==> e.Peer(k).value in e.fields && Tame(e, rows, e.Peer(k).value)
  {
    hide Trusted, Faithful;
    if e.Peer(k).Some? {
      PeerKnown(e, k);
    }
  }

  ghost predicate InputsTame(e: Env, rows: Rows, k: string)
    requires e.WellFormed()
  {
    forall i :: 0 <= i < |e.Inputs(k)| ==> TameFinal(e, rows, e.Inputs(k)[i])
  }

  lemma SealedIsOk(e: Env, rows: Rows, k: string, v: Value)
    requires e.WellFormed() && Clean(e, rows) && k in e.fields && PlainOk(e, rows, k, v)
    ensures ValueOk(e, rows, k, Seal(e, k, CurrentId(e, rows, k), v))
  {
    hide Raw, Tame, Env.WellFormed, CurrentId;
    assert e.crypto.Sound() by { SoundOf(e); }
    if e.fields[k].encrypted {
      SecretIsTame(e, rows, k);
      TameIsKeepable(e, rows, k);
    }
  }

  lemma SoundOf(e: Env)
    requires e.WellFormed()
    ensures e.crypto.Sound()
  {
  }

  // ----- Facts about writes to the cache -----

  lemma WriteId(e: Env, rows: Rows, redis: Redis, now: nat, k: string, expires: nat)
    requires e.WellFormed() && RedisOk(e, rows, redis, now) && k in e.fields
    ensures RedisOk(e, rows, redis[IdOf(k) := Entry(EncodeId(CurrentId(e, rows, k)), expires)], now)
  {
    hide ValueOk, CurrentId, Env.WellFormed;
    var redis' := redis[IdOf(k) := Entry(EncodeId(CurrentId(e, rows, k)), expires)];
    forall x: string
      ensures Paired(e, rows, redis', now, x)
    {
      assert Paired(e, rows, redis, now, x);
    }
  }

  /** A write keeps all pairs right if the id beside it, where there is one, is the current
      one. */
  lemma WriteValue(e: Env, rows: Rows, redis: Redis, now: nat, k: string, v: Value, expires: nat)
    requires e.WellFormed() && RedisOk(e, rows, redis, now) && ValueOk(e, rows, k, v)
    requires k in e.fields
    requires e.fields[k].encrypted && Live(redis, now, IdOf(k)).Some? ==>
               Live(redis, now, IdOf(k)).value == EncodeId(CurrentId(e, rows, k))
    ensures RedisOk(e, rows, redis[ValueOf(k) := Entry(v, expires)], now)
  {
    hide ValueOk, CurrentId, Env.WellFormed;
    var redis' := redis[ValueOf(k) := Entry(v, expires)];
    forall x: string
      ensures Paired(e, rows, redis', now, x)
    {
      assert Paired(e, rows, redis, now, x);
    }
  }

  lemma WriteFlag(e: Env, rows: Rows, redis: Redis, now: nat, entry: Entry)
    requires e.WellFormed() && RedisOk(e, rows, redis, now)
    ensures RedisOk(e, rows, redis[Preloaded := entry], now)
  {
    hide ValueOk, CurrentId, Env.WellFormed;
    var redis' := redis[Preloaded := entry];
    forall x: string
      ensures Paired(e, rows, redis', now, x)
    {
      assert Paired(e, rows, redis, now, x);
    }
  }

  /** The entry of a setting in which the change of `key` does not show, or which is not
      tame afterwards. */
  lemma StaysOk(e: Env, was: Rows, rows: Rows, key: string, k: string, v: Value)
    requires e.WellFormed() && SameElsewhere(was, rows, key) && ValueOk(e, was, k, v)
    requires k !in {key} + Dependents(e.dependents, key)
    ensures ValueOk(e, rows, k, v)
    ensures e.fields[k].encrypted ==> CurrentId(e, rows, k) == CurrentId(e, was, k)
  {
    hide Raw, Trusted, Faithful, Env.WellFormed, SameElsewhere, CurrentId, Encode, Covered;
    if e.fields[k].encrypted {
      SecretReadsNothing(e, k, key);
      Unaffected(e, was, rows, key, k);
    } else if Tame(e, rows, k) {
      TameIsKeepable(e, rows, k);
      if Sees(e, k, key) {
        CoveredIsDropped(e, k, key);
        assert false;
      }
      StaysFaithful(e, was, rows, key, k);
      Unaffected(e, was, rows, key, k);
    }
  }

  lemma SecretReadsNothing(e: Env, k: string, x: string)
    requires e.WellFormed() && k in e.fields && e.fields[k].encrypted
    ensures !Reads(e, k, x)
  {
    assert e.FieldOk(k);
    assert e.Inputs(k) == [];
  }

  /** After a change of the rows of `key`, everything but the entries of `key` and of the
      settings that list it is still right. */
  lemma Invalidated(e: Env, was: Rows, rows: Rows, redis: Redis, redis': Redis, now: nat, key: string)
    requires e.WellFormed() && RedisOk(e, was, redis, now) && SameElsewhere(was, rows, key)
    requires forall c :: c in redis' <==> c in redis && !(c.ValueOf? && (c.name == key || c.name in Dependents(e.dependents, key)))
    requires forall c <- redis' :: redis'[c] == redis[c]
    ensures RedisOk(e, rows, redis', now)
  {
    hide ValueOk, CurrentId, Env.WellFormed, SameElsewhere;
    forall k: string
      ensures Paired(e, rows, redis', now, k)
    {
      assert Paired(e, was, redis, now, k);
      var v := Live(redis', now, ValueOf(k));
      if v.Some? {
        assert v == Live(redis, now, ValueOf(k));
        StaysOk(e, was, rows, key, k, v.value);
        assert Live(redis', now, IdOf(k)) == Live(redis, now, IdOf(k));
      }
    }
  }

  lemma TimePasses(e: Env, rows: Rows, redis: Redis, now: nat, later: nat)
    requires e.WellFormed() && RedisOk(e, rows, redis, now) && now <= later
    ensures RedisOk(e, rows, redis, later)
  {
    hide ValueOk, CurrentId, Env.WellFormed;
    forall k: string
      ensures Paired(e, rows, redis, later, k)
    {
      assert Paired(e, rows, redis, now, k);
    }
  }

  lemma Dropped(e: Env, rows: Rows, redis: Redis, now: nat, c: CacheKey)
    requires e.WellFormed() && RedisOk(e, rows, redis, now)
    ensures RedisOk(e, rows, redis - {c}, now)
  {
    hide ValueOk, CurrentId, Env.WellFormed;
    var redis' := redis - {c};
    forall k: string
      ensures Paired(e, rows, redis', now, k)
    {
      assert Paired(e, rows, redis, now, k);
    }
  }

  // ----- Changes of the rows -----

  /** The place of the first row of a key, or the end. */
  function IndexOf(rows: Rows, k: string): (i: nat)
    ensures i <= |rows|
    ensures i < |rows| ==> rows[i].key == k
    ensures forall j :: 0 <= j < i ==> rows[j].key != k
  {
    if rows == [] || rows[0].key == k then 0 else 1 + IndexOf(rows[1..], k)
  }

  lemma OneOf(row: Row, k: string)
    ensures Of([row], k) == if row.key == k then [row] else []
  {
    assert [row][1..] == [];
  }

  /** A row put in the place of another of the same key, taken out, or added at the end. */
  lemma Spliced(rows: Rows, i: nat, k: string, mid: Rows)
    requires i < |rows|
    ensures Of(rows, k) == Of(rows[..i], k) + (if rows[i].key == k then [rows[i]] else []) + Of(rows[i + 1..], k)
    ensures Of(rows[..i] + mid + rows[i + 1..], k) == Of(rows[..i], k) + Of(mid, k) + Of(rows[i + 1..], k)
  {
    assert rows == rows[..i] + [rows[i]] + rows[i + 1..];
    OfConcat(rows[..i] + [rows[i]], rows[i + 1..], k);
    OfConcat(rows[..i], [rows[i]], k);
    OneOf(rows[i], k);
    OfConcat(rows[..i] + mid, rows[i + 1..], k);
    OfConcat(rows[..i], mid, k);
  }

  lemma FirstIsAt(rows: Rows, k: string)
    ensures First(rows, k).Some? <==> IndexOf(rows, k) < |rows|
    ensures First(rows, k).Some? ==> First(rows, k).value == rows[IndexOf(rows, k)]
  {
    var i := IndexOf(rows, k);
    NoneOf(rows[..i], k);
    if i < |rows| {
      Spliced(rows, i, k, []);
    } else {
      assert rows[..i] == rows;
    }
  }

  /** Replacing the value of the first row of a key. */
  lemma UpdateFirst(rows: Rows, key: string, v: Value)
    requires First(rows, key).Some?
    ensures IndexOf(rows, key) < |rows|
    ensures var i := IndexOf(rows, key);
            var rows' := rows[i := rows[i].(value := v)];
            First(rows', key) == Some(rows[i].(value := v)) && SameElsewhere(rows, rows', key)
  {
    FirstIsAt(rows, key);
    var i := IndexOf(rows, key);
    var row := rows[i].(value := v);
    var rows' := rows[i := row];
    assert rows' == rows[..i] + [row] + rows[i + 1..];
    forall k: string
      ensures Of(rows', k) == Of(rows[..i], k) + (if row.key == k then [row] else []) + Of(rows[i + 1..], k)
      ensures k != key ==> Of(rows, k) == Of(rows', k)
    {
      Spliced(rows, i, k, [row]);
      OneOf(row, k);
    }
    NoneOf(rows[..i], key);
  }

  lemma AppendFirst(rows: Rows, row: Row)
    requires First(rows, row.key).None?
    ensures First(rows + [row], row.key) == Some(row) && SameElsewhere(rows, rows + [row], row.key)
  {
    forall k: string
      ensures Of(rows + [row], k) == Of(rows, k) + if row.key == k then [row] else []
    {
      OfConcat(rows, [row], k);
      OneOf(row, k);
    }
  }

  lemma NewIsLast(rows: Rows, row: Row)
    requires First(rows, row.key).None?
    ensures IndexOf(rows + [row], row.key) == |rows|
  {
    FirstIsAt(rows, row.key);
    assert (rows + [row])[|rows|] == row;
  }

  lemma RemoveRow(rows: Rows, i: nat)
    requires i < |rows|
    ensures SameElsewhere(rows, rows[..i] + rows[i + 1..], rows[i].key)
  {
    forall k: string | k != rows[i].key
      ensures Of(rows, k) == Of(rows[..i] + rows[i + 1..], k)
    {
      Spliced(rows, i, k, []);
      assert rows[..i] + [] + rows[i + 1..] == rows[..i] + rows[i + 1..];
    }
  }

  lemma SameElsewhereTransitive(a: Rows, b: Rows, c: Rows, key: string)
    requires SameElsewhere(a, b, key) && SameElsewhere(b, c, key)
    ensures SameElsewhere(a, c, key)
  {
  }

  /** A new row of an encrypted setting is first saved empty. */
  lemma AppendClean(e: Env, rows: Rows, row: Row)
    requires e.WellFormed() && Clean(e, rows) && row.key in e.fields
    requires e.fields[row.key].encrypted ==> row.value == Str("")
    ensures Clean(e, rows + [row])
  {
    assert |NOTSET.s| == 12 && |EMPTY_LIST.s| == 8 && |EMPTY_DICT.s| == 8 && |CIPHER_MARK| == 11;
    assert Secret(Str(""));
    assert RowOk(e, row);
  }

  lemma UpdateClean(e: Env, rows: Rows, i: nat, stored: Value)
    requires e.WellFormed() && Clean(e, rows) && i < |rows|
    requires RowOk(e, rows[i].(value := stored))
    ensures Clean(e, rows[i := rows[i].(value := stored)])
  {
  }

  lemma RemoveClean(e: Env, rows: Rows, i: nat)
    requires Clean(e, rows) && i < |rows|
    ensures Clean(e, rows[..i] + rows[i + 1..])
  {
  }

  /** An assignment is skipped when the stored form equals the new value, which for an
      encrypted setting compares cipher text with plain text; if they are equal, the row
      holds that plain text anyway. */
  lemma SameCipher(e: Env, row: Row, v: Value)
    requires e.WellFormed() && row.key in e.fields && row.value == v
    requires e.fields[row.key].encrypted ==> Secret(v)
    ensures RowValue(e, row) == Some(v)
  {
  }

  lemma FinalOfRow(e: Env, rows: Rows, k: string, v: Value)
    requires e.WellFormed() && k in e.fields && e.FromDatabase(k)
    requires First(rows, k).Some? && RowValue(e, First(rows, k).value) == Some(v)
    ensures Final(e, rows, k) == Finish(e, k, Local(e, k, Normal(v), PeerRaw(e, rows, k)))
  {
    hide PeerRaw, First;
    assert Raw(e, rows, k) == Normal(v);
    assert LocalOf(e, rows, k) == Local(e, k, Normal(v), PeerRaw(e, rows, k));
  }

  /** How an assignment or a deletion ends. */
  datatype Outcome = Done | ReadOnly | Invalid

  // ----- The batch a preload collects -----

  /** Values in cached form, and the ids of encrypted settings. */
  datatype Batch = Batch(values: map<string, Value>, ids: map<string, Value>)

  /** The settings kept in the database. */
  function Writeable(e: Env): set<string> {
    set k <- e.fields | e.FromDatabase(k)
  }

  /** Every id in the batch is the current one. */
  ghost predicate IdsOk(e: Env, rows: Rows, ids: map<string, Value>) {
    forall k <- ids :: k in e.fields && ids[k] == EncodeId(CurrentId(e, rows, k))
  }

  /** What the first row that counts as set gives. */
  function SetValue(e: Env, rows: Rows, k: string): (v: Value)
    requires k in e.fields
    ensures v == NOTSET <==> FirstSet(e, rows, k).None?
  {
    if FirstSet(e, rows, k).Some? then Encode(RowValue(e, FirstSet(e, rows, k).value).value) else NOTSET
  }

  ghost predicate RowLoaded(e: Env, rows: Rows, b: Batch, k: string)
    requires k in b.values
  {
    k in e.fields && b.values[k] == SetValue(e, rows, k) && (e.fields[k].encrypted && FirstSet(e, rows, k).Some? ==> k in b.ids)
  }

  /** The batch after the first `i` rows. */
  ghost predicate RowsLoaded(e: Env, rows: Rows, b: Batch, i: nat)
    requires i <= |rows|
  {
    b.values.Keys == Writeable(e) && IdsOk(e, rows, b.ids) && forall k <- b.values :: RowLoaded(e, rows[..i], b, k)
  }

  /** The entry the preload stores for `k`; right even with null rows, as far as what the
      default reads can be served. */
  ghost predicate Loaded(e: Env, rows: Rows, b: Batch, k: string)
    requires e.WellFormed() && k in b.values
  {
    && k in e.fields && (FirstSet(e, rows, k).Some? || InputsTame(e, rows, k) ==> b.values[k] == PreloadEntry(e, rows, k))
    && (e.fields[k].encrypted ==> k in b.ids)
  }

  /** The batch when only `todo` may still lack its default. */
  ghost predicate BatchOk(e: Env, rows: Rows, b: Batch, todo: set<string>)
    requires e.WellFormed()
  {
    b.values.Keys == Writeable(e) && IdsOk(e, rows, b.ids)
    && forall k <- b.values :: Loaded(e, rows, b, k) || (k in todo && RowLoaded(e, rows, b, k))
  }

  lemma {:induction false} HeadSetConcat(e: Env, k: string, a: Rows, b: Rows)
    requires k in e.fields && (forall row <- a :: row.key == k) && (forall row <- b :: row.key == k)
    ensures HeadSet(e, k, a + b) == if HeadSet(e, k, a).Some? then HeadSet(e, k, a) else HeadSet(e, k, b)
  {
    if a == [] {
      assert a + b == b;
    } else {
      assert (a + b)[1..] == a[1..] + b;
      HeadSetConcat(e, k, a[1..], b);
    }
  }

  lemma NextRow(e: Env, rows: Rows, i: nat, k: string)
    requires k in e.fields && i < |rows|
    ensures FirstSet(e, rows[..i + 1], k) ==
              if FirstSet(e, rows[..i], k).Some? then FirstSet(e, rows[..i], k)
              else if rows[i].key == k && IsSet(e, rows[i]) then Some(rows[i]) else None
  {
    assert rows[..i + 1] == rows[..i] + [rows[i]];
    OfConcat(rows[..i], [rows[i]], k);
    OneOf(rows[i], k);
    HeadSetConcat(e, k, Of(rows[..i], k), Of([rows[i]], k));
    if rows[i].key == k {
      assert HeadSet(e, k, [rows[i]]) == if IsSet(e, rows[i]) then Some(rows[i]) else HeadSet(e, k, [rows[i]][1..]);
    }
  }

  lemma NoSecretRow(e: Env, rows: Rows, k: string)
    requires e.WellFormed() && Clean(e, rows) && k in e.fields && e.fields[k].encrypted && FirstSet(e, rows, k).None?
    ensures Of(rows, k) == [] && CurrentId(e, rows, k) == None
  {
    FirstSetIsFirst(e, rows, k);
    assert First(rows, k).Some? ==> RowOk(e, First(rows, k).value);
  }

  /** The first row of an encrypted setting always counts as set. */
  lemma SecretRow(e: Env, rows: Rows, i: nat)
    requires e.WellFormed() && Clean(e, rows) && i < |rows|
    requires rows[i].key in e.fields && e.fields[rows[i].key].encrypted && e.FromDatabase(rows[i].key)
    requires FirstSet(e, rows[..i], rows[i].key).None?
    ensures IsSet(e, rows[i]) && CurrentId(e, rows, rows[i].key) == Some(rows[i].pk)
  {
    var k := rows[i].key;
    assert RowOk(e, rows[i]);
    assert Clean(e, rows[..i]);
    NoSecretRow(e, rows[..i], k);
    Spliced(rows, i, k, []);
  }

  lemma CollectRow(e: Env, rows: Rows, b: Batch, i: nat)
    requires e.WellFormed() && Clean(e, rows) && i < |rows| && RowsLoaded(e, rows, b, i)
    ensures var k := rows[i].key;
            if k in b.values && b.values[k] == NOTSET then
              && k in e.fields && RowValue(e, rows[i]).Some?
              && RowsLoaded(e, rows, Batch(b.values[k := Encode(RowValue(e, rows[i]).value)],
                                           if e.fields[k].encrypted then b.ids[k := Num(rows[i].pk)] else b.ids), i + 1)
            else RowsLoaded(e, rows, b, i + 1)
  {
    hide Encode, RowValue, FirstSet, Env.WellFormed, Clean, CurrentId, Env.FromDatabase, Secret;
    var k := rows[i].key;
    forall x <- b.values
      ensures x in e.fields
      ensures FirstSet(e, rows[..i + 1], x) ==
                if FirstSet(e, rows[..i], x).Some? then FirstSet(e, rows[..i], x)
                else if k == x && IsSet(e, rows[i]) then Some(rows[i]) else None
    {
      assert RowLoaded(e, rows[..i], b, x);
      NextRow(e, rows, i, x);
    }
    if k in b.values {
      assert RowLoaded(e, rows[..i], b, k);
      if b.values[k] == NOTSET {
        RowReadable(e, rows, i);
        if e.fields[k].encrypted {
          assert e.FromDatabase(k);
          SecretRow(e, rows, i);
        }
      }
    }
  }

  lemma RowReadable(e: Env, rows: Rows, i: nat)
    requires Clean(e, rows) && i < |rows| && rows[i].key in e.fields
    ensures RowValue(e, rows[i]).Some?
  {
    assert RowOk(e, rows[i]);
  }

  lemma CollectDefault(e: Env, rows: Rows, b: Batch, todo: set<string>, k: string, v: Value)
    requires e.WellFormed() && Clean(e, rows) && BatchOk(e, rows, b, todo) && k in todo && k in b.values
    requires b.values[k] == NOTSET && k in e.fields && (InputsTame(e, rows, k) ==> v == DefaultOf(e, rows, k))
    ensures BatchOk(e, rows, Batch(b.values[k := Encode(v)], if e.fields[k].encrypted then b.ids[k := NOTSET] else b.ids), todo - {k})
  {
    hide DefaultOf, Encode, FirstSet, RowValue, Env.WellFormed, Clean, InputsTame, CurrentId;
    assert FirstSet(e, rows, k).None?;
    if e.fields[k].encrypted {
      NoSecretRow(e, rows, k);
    }
    var b' := Batch(b.values[k := Encode(v)], if e.fields[k].encrypted then b.ids[k := NOTSET] else b.ids);
    assert Loaded(e, rows, b', k);
    forall x <- b'.values
      ensures Loaded(e, rows, b', x) || (x in todo - {k} && RowLoaded(e, rows, b', x))
    {
      if x != k {
        assert Loaded(e, rows, b, x) || RowLoaded(e, rows, b, x);
      }
    }
  }

  /** An entry that is not "not set" needs no default. */
  lemma SkipDefault(e: Env, rows: Rows, b: Batch, todo: set<string>, k: string)
    requires e.WellFormed() && BatchOk(e, rows, b, todo) && (k in b.values ==> b.values[k] != NOTSET)
    ensures BatchOk(e, rows, b, todo - {k})
  {
    hide Encode, DefaultOf, InputsTame, Env.WellFormed;
  }

  lemma AllRowsLoaded(e: Env, rows: Rows, b: Batch)
    requires e.WellFormed() && RowsLoaded(e, rows, b, |rows|)
    ensures BatchOk(e, rows, b, Writeable(e)) && forall k <- b.values :: RowLoaded(e, rows, b, k)
  {
    hide Env.WellFormed, IdsOk;
    assert rows[..|rows|] == rows;
  }

  lemma NothingLoaded(e: Env, rows: Rows)
    ensures RowsLoaded(e, rows, Batch(map k <- Writeable(e) :: NOTSET, map[]), 0)
  {
    forall k <- Writeable(e)
      ensures FirstSet(e, rows[..0], k) == None
    {
      assert Of(rows[..0], k) == [];
    }
  }

  lemma BatchKeys(e: Env, rows: Rows, b: Batch, todo: set<string>)
    requires e.WellFormed() && BatchOk(e, rows, b, todo)
    ensures b.values.Keys == Writeable(e) && IdsOk(e, rows, b.ids)
  {
  }

  /** A loaded entry is what the one-key path would store, for every tame setting. */
  lemma LoadedEntry(e: Env, rows: Rows, b: Batch, k: string)
    requires e.WellFormed() && Clean(e, rows) && BatchOk(e, rows, b, {}) && k in b.values
    ensures k in e.fields && PlainOk(e, rows, k, b.values[k])
    ensures e.fields[k].encrypted ==> k in b.ids && b.ids[k] == EncodeId(CurrentId(e, rows, k))
  {
    hide Raw, DefaultOf, Encode, FirstSet, Env.WellFormed, Clean, Tame, CurrentId;
    assert Loaded(e, rows, b, k);
    assert e.FromDatabase(k);
    if e.fields[k].encrypted {
      SecretIsTame(e, rows, k);
    }
    if Tame(e, rows, k) {
      TameIsKeepable(e, rows, k);
      FirstSetIsFirst(e, rows, k);
      PreloadAgrees(e, rows, k);
    }
  }

  /** Every setting kept in the database has a live entry, with its id if it is encrypted;
      and the entry is the one of the preload, as far as what its default reads can be
      served. */
  ghost predicate AllCached(e: Env, rows: Rows, redis: Redis, now: nat)
    requires e.WellFormed()
  {
    forall k <- e.fields :: e.FromDatabase(k) ==> CachedByLoad(e, rows, redis, now, k)
  }

  ghost predicate CachedByLoad(e: Env, rows: Rows, redis: Redis, now: nat, k: string)
    requires e.WellFormed() && k in e.fields
  {
    var v := Live(redis, now, ValueOf(k));
    && v.Some? && (e.fields[k].encrypted ==> Live(redis, now, IdOf(k)).Some?)
    && (FirstSet(e, rows, k).Some? || InputsTame(e, rows, k) ==>
          v.value == Seal(e, k, CurrentId(e, rows, k), PreloadEntry(e, rows, k)))
  }

  lemma FlagKeepsAll(e: Env, rows: Rows, was: Redis, redis: Redis, now: nat)
    requires e.WellFormed() && AllCached(e, rows, was, now)
    requires forall d :: d != Preloaded ==> Live(redis, now, d) == Live(was, now, d)
    ensures AllCached(e, rows, redis, now)
  {
    hide Live, PreloadEntry, InputsTame, Env.WellFormed;
    forall k <- e.fields | e.FromDatabase(k)
      ensures CachedByLoad(e, rows, redis, now, k)
    {
      assert CachedByLoad(e, rows, was, now, k);
    }
  }

  lemma AllStored(e: Env, rows: Rows, b: Batch, redis: Redis, now: nat)
    requires e.WellFormed() && BatchOk(e, rows, b, {})
    requires forall k <- b.values :: k in e.fields && Live(redis, now, ValueOf(k)) == Some(Seal(e, k, CurrentId(e, rows, k), b.values[k]))
    requires forall k <- b.ids :: Live(redis, now, IdOf(k)) == Some(b.ids[k])
    ensures AllCached(e, rows, redis, now)
  {
    hide Live, Encode, PreloadEntry, InputsTame, FirstSet, Env.WellFormed, Seal, CurrentId;
    forall k <- e.fields | e.FromDatabase(k)
      ensures CachedByLoad(e, rows, redis, now, k)
    {
      assert k in Writeable(e);
      assert Loaded(e, rows, b, k);
    }
  }

  /** The wrapper of one process, with the shared cache and the table it talks to. */
  class SettingsWrapper {
    const e: Env
    var rows: Rows
    var nextPk: nat
    var redis: Redis
    var memo: map<string, Memo>
    var preloadExpires: nat
    var now: nat

    /** A process starts with nothing cached. */
    constructor (e: Env, rows: Rows, nextPk: nat, now: nat)
      requires e.WellFormed() && Clean(e, rows)
      ensures Inv() && this.e == e && this.rows == rows && this.now == now
    {
      this.e, this.rows, this.nextPk, this.now := e, rows, nextPk, now;
      redis, memo, preloadExpires := map[], map[], 0;
    }

    ghost predicate Inv()
      reads this
    {
      && e.WellFormed() && Clean(e, rows)
      && RedisOk(e, rows, redis, now) && MemoOk(e, rows, memo, now)
    }

    /** Whether the next lookup will try to preload; never while a preload is under way. */
    function Armed(): nat
      reads this
    {
      if preloadExpires > now then 0 else 2
    }

    // ----- The cache behind the encrypting proxy -----

    /** The id the proxy uses: the cached one, or that of the current row. */
    method ProxyId(k: string) returns (id: Option<nat>)
      requires k in e.fields
      ensures Live(redis, now, IdOf(k)).Some? ==> id == DecodeId(Live(redis, now, IdOf(k)).value)
      ensures Live(redis, now, IdOf(k)).None? ==> id == CurrentId(e, rows, k)
    {
      var cached := Live(redis, now, IdOf(k));
      if cached.None? {
        id := CurrentId(e, rows, k);
      } else {
        id := DecodeId(cached.value);
      }
    }

    method ProxyGet(k: string) returns (c: Option<Value>)
      requires Inv() && k in e.fields
      ensures c.Some? <==> Live(redis, now, ValueOf(k)).Some?
      ensures c.Some? ==> PlainOk(e, rows, k, c.value)
    {
      hide Tame, Raw, Env.WellFormed, Clean, MemoOk, PlainOk;
      c := Live(redis, now, ValueOf(k));
      assert Paired(e, rows, redis, now, k);
      if c.Some? && e.fields[k].encrypted {
        var id := ProxyId(k);
        var plain := e.crypto.decrypt(id, c.value.s);
        c := Some(Str(plain.value));
      }
    }

    /** Seals a value under the id of the current row, which has just been cached if the
        setting is encrypted. */
    method ProxySet(k: string, v: Value, timeout: nat)
      requires Inv() && k in e.fields && PlainOk(e, rows, k, v)
      requires Live(redis, now, IdOf(k)).Some? && e.fields[k].encrypted ==>
                 Live(redis, now, IdOf(k)).value == EncodeId(CurrentId(e, rows, k))
      modifies this`redis
      ensures Inv()
      ensures redis == old(redis)[ValueOf(k) := Entry(Seal(e, k, CurrentId(e, rows, k), v), now + timeout)]
      ensures redis[ValueOf(k)].value ==
                if e.fields[k].encrypted && v.Str? then Str(e.crypto.encrypt(CurrentId(e, rows, k), v.s)) else v
    {
      hide Raw, Paired, Tame, PlainOk, Env.WellFormed, Clean;
      var id: Option<nat> := None;
      if e.fields[k].encrypted {
        id := ProxyId(k);
        assert id == CurrentId(e, rows, k);
      }
      SealedIsOk(e, rows, k, v);
      var sealed := Seal(e, k, id, v);
      WriteValue(e, rows, redis, now, k, sealed, now + timeout);
      redis := redis[ValueOf(k) := Entry(sealed, now + timeout)];
    }

    method SetId(k: string)
      requires Inv() && k in e.fields
      modifies this`redis
      ensures Inv()
      ensures redis == old(redis)[IdOf(k) := Entry(EncodeId(CurrentId(e, rows, k)), now + DEFAULT_TIMEOUT)]
    {
      hide Raw, Paired, Tame, Env.WellFormed, Clean;
      WriteId(e, rows, redis, now, k, now + DEFAULT_TIMEOUT);
      redis := redis[IdOf(k) := Entry(EncodeId(CurrentId(e, rows, k)), now + DEFAULT_TIMEOUT)];
    }

    // ----- Lookups -----

    /** `settings.NAME` */
    method GetAttr(name: string) returns (r: Option<Value>)
      requires Inv()
      modifies this`redis, this`memo, this`preloadExpires
      ensures Inv()
      ensures TameFinal(e, rows, name) ==> r == Final(e, rows, name)
      ensures name in e.fields && TameFinal(e, rows, name) && LocalOf(e, rows, name).Some? ==> r == LocalOf(e, rows, name)
      ensures name !in e.fields || (TameFinal(e, rows, name) && LocalOf(e, rows, name).None?) ==>
                r == if name in e.fileDefaults then Some(e.fileDefaults[name]) else None
      ensures Kept(old(redis), redis, now)
      ensures name in e.fields ==> name in memo && now < memo[name].expires
      ensures name in e.fields ==>
                memo[name].expires == if name in old(memo) && now < old(memo)[name].expires then old(memo)[name].expires else now + 5
      ensures old(preloadExpires) > now ==> preloadExpires == old(preloadExpires)
      decreases Armed(), e.Top(name), 5
    {
      hide Raw, RedisOk, Clean, Kept, Live, TameFinal, LocalOf, Env.WellFormed, Env.Top;
      KeptSame(redis, now);
      FilesDecideLast(e, rows, name);
      if name !in e.fields {
        return e.FileDefault(name);
      }
      var local: Option<Value>;
      if name in memo && now < memo[name].expires {
        local := memo[name].result;
      } else {
        local := GetLocal(name);
        memo := memo[name := Memo(local, now + MEMORY_TTL)];
      }
      r := if local.Some? then local else e.FileDefault(name);
    }

    /** `_get_local(name)`: the stored value or default, validated, which may look at the
        stored value of a peer. */
    method GetLocal(name: string) returns (r: Option<Value>)
      requires Inv() && name in e.fields
      modifies this`redis, this`memo, this`preloadExpires
      ensures Inv()
      ensures TameFinal(e, rows, name) ==> r == LocalOf(e, rows, name)
      ensures Kept(old(redis), redis, now) && Live(redis, now, ValueOf(name)).Some?
      ensures Armed() == 0 && (old(preloadExpires) > now ==> preloadExpires == old(preloadExpires))
      decreases Armed(), e.Top(name), 4
    {
      hide Raw, RedisOk, MemoOk, Clean, Kept, Live, Tame, TameFinal, Env.WellFormed;
      ghost var start := redis;
      if TameFinal(e, rows, name) {
        TameBoth(e, rows, name);
      }
      var raw := GetRaw(name);
      if raw == NOTSET {
        return None;
      }
      var peer: Option<Value> := None;
      if e.Peer(name).Some? {
        PeerKnown(e, name);
        ghost var between := redis;
        var stored := GetRaw(e.Peer(name).value);
        KeptTransitive(start, between, redis, now);
        KeptLive(between, redis, now, ValueOf(name));
        peer := Usable(stored);
      }
      r := e.fields[name].validate(raw, peer);
    }

    /** `_get_local(name, validate=False)`, and what comes before validation otherwise. */
    method GetRaw(name: string) returns (raw: Value)
      requires Inv() && name in e.fields
      modifies this`redis, this`memo, this`preloadExpires
      ensures Inv()
      ensures Tame(e, rows, name) ==> raw == Raw(e, rows, name)
      ensures Kept(old(redis), redis, now) && Live(redis, now, ValueOf(name)).Some?
      ensures Armed() == 0 && (old(preloadExpires) > now ==> preloadExpires == old(preloadExpires))
      decreases Armed(), e.Rank(name), 2
    {
      hide RedisOk, MemoOk, DefaultOf, Encode, Decode, Live, Kept, AllCached, Tame, TameFinal, Env.WellFormed, Clean, RowRaw;
      PreloadCache();
      ghost var preloaded := redis;
      KeptSame(redis, now);
      var cached := ProxyGet(name);
      Facts(name);
      var value := if cached.Some? then Decode(cached.value) else None;
      if value.Some? {
        raw := value.value;
      } else {
        if Served(e, rows, name) {
          raw := RowRaw(e, First(rows, name).value);
        } else {
          var v := ComputeDefault(name);
          raw := Normal(v);
        }
        KeptTransitive(old(redis), preloaded, redis, now);
        if cached != Some(raw) {
          ghost var computed := redis;
          StoreRaw(name, raw);
          KeptTransitive(old(redis), computed, redis, now);
        } else {
          KeptLive(preloaded, redis, now, ValueOf(name));
        }
      }
    }

    /** What is known of a tame setting before it is looked up. */
    lemma Facts(name: string)
      requires Inv() && name in e.fields
      ensures e.fields[name].encrypted ==> Tame(e, rows, name)
      ensures Tame(e, rows, name) ==>
                Decode(Encode(Raw(e, rows, name))) == Usable(Raw(e, rows, name))
                && (!Served(e, rows, name) ==> InputsTame(e, rows, name))
    {
      hide Raw, RedisOk, MemoOk, Encode, Decode, Tame, DefaultOf;
      if e.fields[name].encrypted {
        SecretIsTame(e, rows, name);
      }
      if Tame(e, rows, name) {
        TameIsKeepable(e, rows, name);
      }
    }

    /** The id goes before the value, so that the value is sealed under it. */
    method StoreRaw(name: string, raw: Value)
      requires Inv() && name in e.fields && (e.fields[name].encrypted || Tame(e, rows, name) ==> raw == Raw(e, rows, name))
      modifies this`redis
      ensures Inv() && Kept(old(redis), redis, now)
      ensures Live(redis, now, ValueOf(name)) == Some(Seal(e, name, CurrentId(e, rows, name), Encode(raw)))
      ensures e.fields[name].encrypted ==> Live(redis, now, IdOf(name)) == Some(EncodeId(CurrentId(e, rows, name)))
      ensures redis[ValueOf(name)].expires == now + 60
      ensures e.fields[name].encrypted ==> IdOf(name) in redis && redis[IdOf(name)].expires == now + 300
    {
      hide Raw, RedisOk, MemoOk, Clean, Encode, Live, Kept, Tame, Seal, CurrentId, EncodeId;
      ghost var was := redis;
      KeptSame(redis, now);
      if e.fields[name].encrypted {
        SetId(name);
        Updated(was, redis, now, IdOf(name), Entry(EncodeId(CurrentId(e, rows, name)), now + DEFAULT_TIMEOUT));
      }
      ghost var between := redis;
      ProxySet(name, Encode(raw), CACHE_TIMEOUT);
      Updated(between, redis, now, ValueOf(name), Entry(Seal(e, name, CurrentId(e, rows, name), Encode(raw)), now + CACHE_TIMEOUT));
      KeptTransitive(was, between, redis, now);
    }

    /** `field.get_default()`: a computed default reads other settings. */
    method ComputeDefault(name: string) returns (v: Value)
      requires Inv() && name in e.fields && Armed() == 0
      modifies this`redis, this`memo, this`preloadExpires
      ensures Inv() && preloadExpires == old(preloadExpires) && Kept(old(redis), redis, now)
      ensures InputsTame(e, rows, name) ==> v == DefaultOf(e, rows, name)
      decreases Armed(), e.Rank(name), 1
    {
      hide Raw, RedisOk, MemoOk, Clean, Kept, TameFinal, Final, Env.WellFormed;
      KeptSame(redis, now);
      InputsBelow(e, name);
      var f := e.fields[name];
      assert f.default.Computed? ==> f.default.inputs == e.Inputs(name);
      match f.default
      case NoDefault => v := NOTSET;
      case Constant(c) => v := c;
      case Computed(inputs, compute) =>
        var xs: seq<Option<Value>> := [];
        for i := 0 to |inputs|
          invariant Inv() && preloadExpires == old(preloadExpires) && Kept(old(redis), redis, now)
          invariant |xs| == i && forall j :: 0 <= j < i && TameFinal(e, rows, inputs[j]) ==> xs[j] == Final(e, rows, inputs[j])
        {
          ghost var was := redis;
          var x := GetAttr(inputs[i]);
          KeptTransitive(old(redis), was, redis, now);
          xs := xs + [x];
        }
        if InputsTame(e, rows, name) {
          assert forall j :: 0 <= j < |xs| ==> TameFinal(e, rows, e.Inputs(name)[j]);
          DefaultIs(e, rows, name, xs);
        }
        v := compute(xs);
    }

    /** Loads every setting kept in the database into the cache, at most once a minute. */
    method PreloadCache()
      requires Inv()
      modifies this`redis, this`memo, this`preloadExpires
      ensures Inv() && Armed() == 0 && Kept(old(redis), redis, now)
      ensures preloadExpires == if old(preloadExpires) > now then old(preloadExpires) else now + 60
      ensures old(preloadExpires) <= now ==> Live(redis, now, Preloaded).Some?
      ensures old(preloadExpires) <= now && Live(old(redis), now, Preloaded).None? ==>
                AllCached(e, rows, redis, now) && Preloaded in redis && redis[Preloaded].expires == now + 60
      ensures old(preloadExpires) > now || Live(old(redis), now, Preloaded).Some? ==> redis == old(redis) && memo == old(memo)
      decreases Armed(), 0, 0
    {
      hide Raw, RedisOk, MemoOk, Clean, Encode, Live, Kept, AllCached, BatchOk, IdsOk, Env.WellFormed;
      KeptSame(redis, now);
      if preloadExpires > now {
        return;
      }
      preloadExpires := now + CACHE_TIMEOUT;
      if Live(redis, now, Preloaded).Some? {
        return;
      }
      LoadAll();
      ghost var was := redis;
      var entry := Entry(Num(preloadExpires), now + CACHE_TIMEOUT);
      WriteFlag(e, rows, redis, now, entry);
      redis := redis[Preloaded := entry];
      Updated(was, redis, now, Preloaded, entry);
      FlagKeepsAll(e, rows, was, redis, now);
      KeptTransitive(old(redis), was, redis, now);
    }

    method LoadAll()
      requires Inv() && Armed() == 0
      modifies this`redis, this`memo, this`preloadExpires
      ensures Inv() && preloadExpires == old(preloadExpires) && Kept(old(redis), redis, now) && AllCached(e, rows, redis, now)
      decreases 1, 2, 0
    {
      hide Raw, RedisOk, MemoOk, Clean, Encode, Live, Kept, AllCached, BatchOk, IdsOk, Env.WellFormed;
      var batch := LoadRows();
      batch := LoadDefaults(batch);
      ghost var loaded := redis;
      BatchKeys(e, rows, batch, {});
      StoreIds(batch.ids);
      ghost var withIds := redis;
      StoreValues(batch);
      KeptTransitive(old(redis), loaded, withIds, now);
      KeptTransitive(old(redis), withIds, redis, now);
      AllStored(e, rows, batch, redis, now);
    }

    // ----- Changes -----

    /** After the rows of `key` have changed: drop what may be stale, then look the settings
        up again to announce their new values. */
    method HandleSettingChange(key: string, ghost was: Rows) returns (announced: map<string, Option<Value>>)
      requires e.WellFormed() && Clean(e, rows) && SameElsewhere(was, rows, key) && RedisOk(e, was, redis, now)
      modifies this`redis, this`memo, this`preloadExpires
      ensures Inv()
      ensures announced.Keys == {key} + Dependents(e.dependents, key)
      ensures forall c <- old(redis) :: now < old(redis)[c].expires && !(c.ValueOf? && c.name in announced) ==>
                c in redis && now < redis[c].expires
      ensures forall k <- announced :: TameFinal(e, rows, k) ==> announced[k] == Final(e, rows, k)
      decreases 3, 0, 0
    {
      hide Raw, RedisOk, Clean, Env.WellFormed, SameElsewhere, Kept, Live, Final, TameFinal, Dependents;
      var keys := {key} + Dependents(e.dependents, key);
      ghost var start := redis;
      var kept := map c <- redis | !(c.ValueOf? && c.name in keys) :: redis[c];
      Invalidated(e, was, rows, redis, kept, now, key);
      redis := kept;
      memo := map[];
      announced := map[];
      KeptSame(redis, now);
      var todo := keys;
      while todo != {}
        invariant Inv() && todo <= keys && announced.Keys == keys - todo && Kept(kept, redis, now)
        invariant forall k <- announced :: TameFinal(e, rows, k) ==> announced[k] == Final(e, rows, k)
        decreases |todo|
      {
        var k :| k in todo;
        ghost var was := redis;
        var value := GetAttr(k);
        KeptTransitive(kept, was, redis, now);
        announced := announced[k := value];
        todo := todo - {k};
      }
      OthersKept(start, kept, redis, now, keys);
    }

    /** `Setting.save` of a new row.  An encrypted value can only be sealed once the row has
        an id, so the row is first saved with an empty value. */
    method SaveNew(key: string, v: Value)
      requires Inv() && key in e.fields && First(rows, key).None? && (e.fields[key].encrypted ==> Secret(v))
      modifies this`rows, this`nextPk, this`redis, this`memo, this`preloadExpires
      ensures Inv() && SameElsewhere(old(rows), rows, key)
      ensures First(rows, key).Some? && RowValue(e, First(rows, key).value) == Some(v)
      ensures var row := First(rows, key).value;
              row.value == if e.fields[key].encrypted then Str(e.crypto.encrypt(Some(row.pk), v.s)) else v
      ensures var stored := if e.fields[key].encrypted then Str(e.crypto.encrypt(Some(old(nextPk)), v.s)) else v;
              rows == old(rows) + [Row(old(nextPk), key, stored)] && nextPk == old(nextPk) + 1
    {
      hide Raw, RedisOk, MemoOk, SameElsewhere, First, IndexOf, Of, Clean;
      var pk := nextPk;
      nextPk := nextPk + 1;
      ghost var was := rows;
      var row := Row(pk, key, if e.fields[key].encrypted then Str("") else v);
      AppendFirst(rows, row);
      NewIsLast(was, row);
      rows := rows + [row];
      AppendClean(e, was, row);
      var _ := HandleSettingChange(key, was);
      if e.fields[key].encrypted {
        ghost var between := rows;
        SaveExisting(key, v);
        SameElsewhereTransitive(was, between, rows, key);
        assert rows == was + [row.(value := rows[|was|].value)] && rows[|was|].pk == pk;
      }
    }

    /** `Setting.save` of the existing first row. */
    method SaveExisting(key: string, v: Value)
      requires Inv() && key in e.fields && First(rows, key).Some? && (e.fields[key].encrypted ==> Secret(v))
      modifies this`rows, this`redis, this`memo, this`preloadExpires
      ensures Inv() && SameElsewhere(old(rows), rows, key)
      ensures First(rows, key).Some? && RowValue(e, First(rows, key).value) == Some(v)
      ensures var row := First(rows, key).value;
              row.value == if e.fields[key].encrypted then Str(e.crypto.encrypt(Some(row.pk), v.s)) else v
      ensures var i := IndexOf(old(rows), key);
              && i < |rows| == |old(rows)| && rows == old(rows)[i := old(rows)[i].(value := rows[i].value)]
              && rows[i].value == if e.fields[key].encrypted then Str(e.crypto.encrypt(Some(rows[i].pk), v.s)) else v
    {
      hide Raw, RedisOk, MemoOk, SameElsewhere, First;
      ghost var was := rows;
      FirstIsAt(rows, key);
      var i := IndexOf(rows, key);
      var stored := if e.fields[key].encrypted then Str(e.crypto.encrypt(Some(rows[i].pk), v.s)) else v;
      UpdateFirst(rows, key, stored);
      rows := rows[i := rows[i].(value := stored)];
      UpdateClean(e, was, i, stored);
      var _ := HandleSettingChange(key, was);
    }

    /** `settings.NAME = value` */
    method SetLocal(name: string, value: Value) returns (outcome: Outcome)
      requires Inv() && name in e.fields
      requires e.fields[name].encrypted && e.fields[name].represent(value).Some? ==> Secret(e.fields[name].represent(value).value)
      modifies this`rows, this`nextPk, this`redis, this`memo, this`preloadExpires
      ensures Inv() && SameElsewhere(old(rows), rows, name)
      ensures outcome == if e.fields[name].readOnly then ReadOnly else if e.fields[name].represent(value).None? then Invalid else Done
      ensures outcome != Done ==> rows == old(rows)
      ensures outcome == Done ==> First(rows, name).Some? && RowValue(e, First(rows, name).value) == e.fields[name].represent(value)
      ensures outcome == Done ==>
                var row, db := First(rows, name).value, e.fields[name].represent(value).value;
                || row.value == (if e.fields[name].encrypted then Str(e.crypto.encrypt(Some(row.pk), db.s)) else db)
                || (rows == old(rows) && row.value == db)
      ensures outcome == Done ==>
                var db := e.fields[name].represent(value).value;
                Final(e, rows, name) == Finish(e, name, Local(e, name, Normal(db), PeerRaw(e, rows, name)))
    {
      hide Raw, RedisOk, MemoOk, Final, PeerRaw, First, Clean, Of;
      var field := e.fields[name];
      if field.readOnly {
        return ReadOnly;
      }
      var db := field.represent(value);
      if db.None? {
        return Invalid;
      }
      if First(rows, name).None? {
        SaveNew(name, db.value);
      } else if First(rows, name).value.value != db.value {
        SaveExisting(name, db.value);
      } else {
        SameCipher(e, First(rows, name).value, db.value);
      }
      FinalOfRow(e, rows, name, db.value);
      outcome := Done;
    }

    /** `del settings.NAME`: every row of the setting goes, each with its signals. */
    method DelLocal(name: string) returns (outcome: Outcome)
      requires Inv() && name in e.fields
      modifies this`rows, this`redis, this`memo, this`preloadExpires
      ensures Inv() && SameElsewhere(old(rows), rows, name)
      ensures outcome == if e.fields[name].readOnly then ReadOnly else Done
      ensures outcome == ReadOnly ==> rows == old(rows)
      ensures outcome == Done ==> First(rows, name).None?
    {
      hide Raw, RedisOk, MemoOk, First, Of;
      if e.fields[name].readOnly {
        return ReadOnly;
      }
      while First(rows, name).Some?
        invariant Inv() && SameElsewhere(old(rows), rows, name)
        decreases |rows|
      {
        ghost var was := rows;
        FirstIsAt(rows, name);
        var i := IndexOf(rows, name);
        RemoveRow(rows, i);
        rows := rows[..i] + rows[i + 1..];
        RemoveClean(e, was, i);
        var _ := HandleSettingChange(name, was);
      }
      outcome := Done;
    }

    // ----- The environment -----

    /** Time passes. */
    method Tick(seconds: nat)
      requires Inv()
      modifies this`now
      ensures Inv() && now == old(now) + seconds
    {
      hide Raw, RedisOk, TameFinal, LocalOf, Clean;
      TimePasses(e, rows, redis, now, now + seconds);
      now := now + seconds;
    }

    /** The shared cache may drop any entry at any time, an id without its value too. */
    method Evict(c: CacheKey)
      requires Inv()
      modifies this`redis
      ensures Inv() && redis == old(redis) - {c}
    {
      hide Raw, RedisOk, MemoOk, Clean;
      Dropped(e, rows, redis, now, c);
      redis := redis - {c};
    }

    /** Every request starts with an empty memo. */
    method ClearMemo()
      requires Inv()
      modifies this`memo
      ensures Inv() && memo == map[]
    {
      memo := map[];
    }

    // ----- The preload -----

    /** The lowest row of every setting that counts as set. */
    method LoadRows() returns (b: Batch)
      requires Inv()
      ensures BatchOk(e, rows, b, Writeable(e))
      ensures forall k <- b.values :: RowLoaded(e, rows, b, k)
    {
      hide Raw, RedisOk, MemoOk, Clean, Encode, RowsLoaded, BatchOk, RowValue, RowLoaded, Env.WellFormed;
      b := Batch(map k <- Writeable(e) :: NOTSET, map[]);
      NothingLoaded(e, rows);
      for i := 0 to |rows|
        invariant RowsLoaded(e, rows, b, i)
      {
        var k := rows[i].key;
        CollectRow(e, rows, b, i);
        if k in b.values && b.values[k] == NOTSET {
          var ids := b.ids;
          if e.fields[k].encrypted {
            ids := ids[k := Num(rows[i].pk)];
          }
          b := Batch(b.values[k := Encode(RowValue(e, rows[i]).value)], ids);
        }
      }
      AllRowsLoaded(e, rows, b);
    }

    /** The defaults of the settings without a row that counts as set. */
    method LoadDefaults(fromRows: Batch) returns (b: Batch)
      requires Inv() && Armed() == 0 && BatchOk(e, rows, fromRows, Writeable(e))
      modifies this`redis, this`memo, this`preloadExpires
      ensures Inv() && preloadExpires == old(preloadExpires) && BatchOk(e, rows, b, {}) && Kept(old(redis), redis, now)
      decreases 1, 1, 0
    {
      hide Raw, RedisOk, MemoOk, Clean, Encode, DefaultOf, BatchOk, Env.WellFormed, Kept;
      KeptSame(redis, now);
      b := fromRows;
      var todo := Writeable(e);
      while todo != {}
        invariant Inv() && preloadExpires == old(preloadExpires) && Kept(old(redis), redis, now)
        invariant BatchOk(e, rows, b, todo)
        decreases |todo|
      {
        var k :| k in todo;
        ghost var was := redis;
        b := LoadDefault(b, todo, k);
        KeptTransitive(old(redis), was, redis, now);
        todo := todo - {k};
      }
    }

    method LoadDefault(before: Batch, ghost todo: set<string>, k: string) returns (b: Batch)
      requires Inv() && Armed() == 0 && BatchOk(e, rows, before, todo) && k in todo
      modifies this`redis, this`memo, this`preloadExpires
      ensures Inv() && preloadExpires == old(preloadExpires) && BatchOk(e, rows, b, todo - {k}) && Kept(old(redis), redis, now)
      decreases 1, 0, 0
    {
      hide Raw, RedisOk, MemoOk, Clean, Encode, DefaultOf, BatchOk, Env.WellFormed, Kept, Loaded, RowLoaded, InputsTame;
      KeptSame(redis, now);
      b := before;
      if k in b.values && b.values[k] == NOTSET {
        BatchHas(e, rows, b, todo, k);
        var v := ComputeDefault(k);
        CollectDefault(e, rows, b, todo, k, v);
        var ids := b.ids;
        if e.fields[k].encrypted {
          ids := ids[k := NOTSET];
        }
        b := Batch(b.values[k := Encode(v)], ids);
      } else {
        SkipDefault(e, rows, b, todo, k);
      }
    }

    /** The ids go first, so that every value is sealed under the id that stands beside it. */
    method StoreIds(ids: map<string, Value>)
      requires Inv() && IdsOk(e, rows, ids)
      modifies this`redis
      ensures Inv() && Kept(old(redis), redis, now)
      ensures forall k <- ids :: Live(redis, now, IdOf(k)) == Some(ids[k])
      ensures forall k <- ids :: IdOf(k) in redis && redis[IdOf(k)].expires == now + 300
    {
      hide Raw, RedisOk, MemoOk, Clean, Live, CurrentId, EncodeId, Kept, Env.WellFormed;
      KeptSame(redis, now);
      var todo := ids.Keys;
      while todo != {}
        invariant Inv() && todo <= ids.Keys && Kept(old(redis), redis, now)
        invariant forall k <- ids :: k !in todo ==> Live(redis, now, IdOf(k)) == Some(ids[k])
        invariant forall k <- ids :: k !in todo ==> IdOf(k) in redis && redis[IdOf(k)].expires == now + 300
        decreases |todo|
      {
        var k :| k in todo;
        ghost var was := redis;
        SetId(k);
        Updated(was, redis, now, IdOf(k), Entry(ids[k], now + DEFAULT_TIMEOUT));
        KeptTransitive(old(redis), was, redis, now);
        todo := todo - {k};
      }
    }

    method StoreValues(b: Batch)
      requires Inv() && BatchOk(e, rows, b, {})
      requires forall k <- b.ids :: Live(redis, now, IdOf(k)) == Some(b.ids[k])
      modifies this`redis
      ensures Inv() && Kept(old(redis), redis, now)
      ensures forall k <- b.values ::
                k in e.fields && Live(redis, now, ValueOf(k)) == Some(Seal(e, k, CurrentId(e, rows, k), b.values[k]))
      ensures forall k <- b.values :: ValueOf(k) in redis && redis[ValueOf(k)].expires == now + 60
      ensures forall k <- b.ids :: Live(redis, now, IdOf(k)) == Some(b.ids[k])
    {
      hide Raw, RedisOk, MemoOk, Clean, Live, Encode, CurrentId, EncodeId, Env.WellFormed, BatchOk, Kept, Seal, PlainOk, TameFinal, LocalOf;
      KeptSame(redis, now);
      var todo := b.values.Keys;
      while todo != {}
        invariant Inv() && todo <= b.values.Keys && Kept(old(redis), redis, now)
        invariant forall k <- b.values :: k !in todo ==>
                    k in e.fields && Live(redis, now, ValueOf(k)) == Some(Seal(e, k, CurrentId(e, rows, k), b.values[k]))
        invariant forall k <- b.values :: k !in todo ==> ValueOf(k) in redis && redis[ValueOf(k)].expires == now + 60
        invariant forall k <- b.ids :: Live(redis, now, IdOf(k)) == Some(b.ids[k])
        decreases |todo|
      {
        var k :| k in todo;
        LoadedEntry(e, rows, b, k);
        ghost var was := redis;
        ProxySet(k, b.values[k], CACHE_TIMEOUT);
        Updated(was, redis, now, ValueOf(k), Entry(Seal(e, k, CurrentId(e, rows, k), b.values[k]), now + CACHE_TIMEOUT));
        KeptTransitive(old(redis), was, redis, now);
        todo := todo - {k};
      }
    }
  }

  lemma BatchHas(e: Env, rows: Rows, b: Batch, todo: set<string>, k: string)
    requires e.WellFormed() && BatchOk(e, rows, b, todo) && k in b.values
    ensures k in e.fields
  {
  }
}
