/**
 What a setting is worth when nothing is cached: the reference every cache layer is
 measured against (forail/conf/settings.py:197-221, 364-412, 435-441; forail/sso/fields.py:58-74).
 */
module SettingsModel {
  import opened Options

  datatype Value = Null | Bool(b: bool) | Num(n: int) | Str(s: string) | List(items: seq<Value>) | Dict(entries: seq<(string, Value)>)

  // ----- Times -----

  const MEMORY_TTL: nat := 5
  const CACHE_TIMEOUT: nat := 60
  /** Ids are cached without a timeout of their own, so with the default of the cache. */
  const DEFAULT_TIMEOUT: nat := 300

  /** An entry of the shared cache, and one of the memo of a process. */
  datatype Entry = Entry(value: Value, expires: nat)
  datatype Memo = Memo(result: Option<Value>, expires: nat)

  // ----- Sentinels -----

  const NOTSET: Value := Str("___notset___")
  const EMPTY_LIST: Value := Str("___[]___")
  const EMPTY_DICT: Value := Str("___{}___")

  /** The form in which a value is cached; None shares its sentinel with "not set". */
  function Encode(v: Value): Value {
    if v == Null then NOTSET
    else if v == List([]) then EMPTY_LIST
    else if v == Dict([]) then EMPTY_DICT
    else v
  }

  /** What a cached form is read as; None is "look it up". */
  function Decode(c: Value): Option<Value> {
    if c == NOTSET then None
    else if c == EMPTY_LIST then Some(List([]))
    else if c == EMPTY_DICT then Some(Dict([]))
    else Some(c)
  }

  predicate Storable(v: Value) {
    v != Null && v != NOTSET && v != EMPTY_LIST && v != EMPTY_DICT
  }

  lemma SentinelsDiffer()
    ensures NOTSET != EMPTY_LIST && NOTSET != EMPTY_DICT && EMPTY_LIST != EMPTY_DICT
  {
    assert |NOTSET.s| == 12 && |EMPTY_LIST.s| == 8 && |EMPTY_DICT.s| == 8;
    assert EMPTY_LIST.s[3] == '[' && EMPTY_DICT.s[3] == '{';
  }

  /** A value survives the cache exactly when it is neither None nor one of the three
      sentinel strings. */
  lemma RoundTrip(v: Value)
    ensures Decode(Encode(v)) == Some(v) <==> Storable(v)
  {
    SentinelsDiffer();
  }

  /** The cached forms: three values have a string that stands for them. */
  lemma CachedForms(v: Value)
    ensures Encode(Null) == Str("___notset___") && Encode(List([])) == Str("___[]___") && Encode(Dict([])) == Str("___{}___")
    ensures v != Null && v != List([]) && v != Dict([]) ==> Encode(v) == v
    ensures Decode(Str("___notset___")) == None && Decode(Str("___[]___")) == Some(List([])) && Decode(Str("___{}___")) == Some(Dict([]))
    ensures v != Str("___notset___") && v != Str("___[]___") && v != Str("___{}___") ==> Decode(v) == Some(v)
  {
    SentinelsDiffer();
  }

  /** None counts as "not set". */
  function Normal(v: Value): Value {
    if v == Null then NOTSET else v
  }

  function Usable(raw: Value): Option<Value> {
    if raw == NOTSET then None else Some(raw)
  }

  /** A looked-up value that the cache gives back as it is, "not set" included. */
  predicate Keepable(raw: Value) {
    raw != Null && raw != EMPTY_LIST && raw != EMPTY_DICT
  }

  lemma KeepableReadsBack(raw: Value)
    requires Keepable(raw)
    ensures Decode(Encode(raw)) == Usable(raw)
  {
    RoundTrip(raw);
  }

  lemma NormalEncoded(v: Value)
    ensures Encode(Normal(v)) == Encode(v)
  {
  }

  // ----- Registered fields -----

  /** A default may be computed from other settings. */
  datatype Default = NoDefault | Constant(value: Value) | Computed(inputs: seq<string>, compute: seq<Option<Value>> -> Value)

  /** `represent` is the validated form in which an assigned value is stored, and
      `validate` what a stored value is read as; None is a failed validation.  Validation
      may also look at the stored value of one other setting, the `peer`.  `level` bounds
      the chains of defaults that read other settings. */
  datatype Field = Field(readOnly: bool, encrypted: bool, default: Default, dependsOn: set<string>, peer: Option<string>,
                         represent: Value -> Option<Value>, validate: (Value, Option<Value>) -> Option<Value>, level: nat)

  const INSTALL_UUID: string := "INSTALL_UUID"
  const CIPHER_MARK: string := "$encrypted$"

  predicate Plain(s: string) {
    !(CIPHER_MARK <= s)
  }

  /** What an encrypted setting can hold. */
  predicate Secret(v: Value) {
    v.Str? && Plain(v.s) && Storable(v)
  }

  /** Encryption under a key derived from a row id, or from none; decryption may fail. */
  datatype Crypto = Crypto(encrypt: (Option<nat>, string) -> string, decrypt: (Option<nat>, string) -> Option<string>) {
    ghost predicate Sound() {
      && (forall id, s :: Plain(s) ==> decrypt(id, encrypt(id, s)) == Some(s))
      && (forall id, s :: Plain(s) ==> decrypt(id, s) == Some(s))
    }
  }

  // ----- Rows -----

  datatype Row = Row(pk: nat, key: string, value: Value)

  /** The rows of settings that belong to no user, by increasing primary key. */
  type Rows = seq<Row>

  /** The rows of one setting. */
  function Of(rows: Rows, k: string): (r: Rows)
    ensures forall row <- r :: row in rows && row.key == k
  {
    if rows == [] then []
    else if rows[0].key == k then [rows[0]] + Of(rows[1..], k)
    else Of(rows[1..], k)
  }

  function First(rows: Rows, k: string): (r: Option<Row>)
    ensures r.Some? ==> r.value in rows && r.value.key == k
  {
    if Of(rows, k) == [] then None else Some(Of(rows, k)[0])
  }

  lemma {:induction false} OfConcat(a: Rows, b: Rows, k: string)
    ensures Of(a + b, k) == Of(a, k) + Of(b, k)
  {
    if a == [] {
      assert a + b == b;
    } else {
      assert (a + b)[1..] == a[1..] + b;
      OfConcat(a[1..], b, k);
    }
  }

  /** The rows of every other setting are the same. */
  ghost predicate SameElsewhere(rows: Rows, rows': Rows, key: string) {
    forall k: string :: k != key ==> Of(rows, k) == Of(rows', k)
  }

  /** The settings listed as depending on `d`. */
  function Dependents(dependents: map<string, set<string>>, d: string): set<string> {
    if d in dependents then dependents[d] else {}
  }

  // ----- The environment a lookup depends on -----

  datatype Env = Env(fields: map<string, Field>, dependents: map<string, set<string>>, fileDefaults: map<string, Value>, crypto: Crypto) {

    /** Read-only settings are not looked up in the database, with one exception. */
    predicate FromDatabase(k: string)
      requires k in fields
    {
      !fields[k].readOnly || k == INSTALL_UUID
    }

    function FileDefault(k: string): Option<Value> {
      if k in fileDefaults then Some(fileDefaults[k]) else None
    }

    function Rank(k: string): nat {
      if k in fields then fields[k].level + 1 else 0
    }

    /** The higher rank of a setting and its peer. */
    function Top(k: string): (r: nat)
      ensures Rank(k) <= r
      ensures k in fields && fields[k].peer.Some? ==> Rank(fields[k].peer.value) <= r
    {
      if k in fields && fields[k].peer.Some? && Rank(fields[k].peer.value) > Rank(k) then Rank(fields[k].peer.value) else Rank(k)
    }

    /** Encrypted settings have a constant default; peers are registered and not read-only;
        and the settings a default reads, peers included, are of a lower level. */
    ghost predicate FieldOk(k: string)
      requires k in fields
    {
      var f := fields[k];
      && (f.encrypted ==> f.default.Constant? && (f.default.value == Null || Secret(f.default.value)))
      && (f.peer.Some? ==> f.peer.value in fields && !fields[f.peer.value].readOnly)
      && (f.default.Computed? ==> forall i :: 0 <= i < |f.default.inputs| ==> Top(f.default.inputs[i]) < Rank(k))
    }

    /** The registry's index is the inverse of `dependsOn`. */
    ghost predicate Inverse() {
      forall k, d: string :: k in Dependents(dependents, d) <==> k in fields && d in fields[k].dependsOn
    }

    ghost predicate WellFormed() {
      crypto.Sound() && Inverse() && forall k <- fields :: FieldOk(k)
    }

    /** The settings a default reads. */
    function Inputs(k: string): seq<string> {
      if k in fields && fields[k].default.Computed? then fields[k].default.inputs else []
    }

    function Peer(k: string): Option<string> {
      if k in fields then fields[k].peer else None
    }
  }

  lemma InputsBelow(e: Env, k: string)
    requires e.WellFormed()
    ensures forall i :: 0 <= i < |e.Inputs(k)| ==> e.Top(e.Inputs(k)[i]) < e.Rank(k)
  {
    if k in e.fields {
      assert e.FieldOk(k);
    }
  }

  lemma PeerKnown(e: Env, k: string)
    requires e.WellFormed() && e.Peer(k).Some?
    ensures e.Peer(k).value in e.fields && !e.fields[e.Peer(k).value].readOnly
  {
    assert e.FieldOk(k);
  }

  // ----- What a setting reads -----

  /** Looking up the stored value or default of `k` may read `x`. */
  ghost predicate Reads(e: Env, k: string, x: string)
    requires e.WellFormed()
    decreases e.Rank(k), 0
  {
    InputsBelow(e, k);
    exists i :: 0 <= i < |e.Inputs(k)| && Consults(e, e.Inputs(k)[i], x)
  }

  /** Looking up the validated value of `d` reads `x`, which may be `d` itself. */
  ghost predicate Consults(e: Env, d: string, x: string)
    requires e.WellFormed()
    decreases e.Top(d), 1
  {
    d == x || Reads(e, d, x) || (e.Peer(d).Some? && (e.Peer(d).value == x || Reads(e, e.Peer(d).value, x)))
  }

  /** No setting reads itself. */
  lemma {:induction false} ReadsBelow(e: Env, k: string, x: string)
    requires e.WellFormed() && Reads(e, k, x)
    ensures e.Rank(x) < e.Rank(k)
    decreases e.Rank(k)
  {
    hide Env.WellFormed;
    InputsBelow(e, k);
    var i :| 0 <= i < |e.Inputs(k)| && Consults(e, e.Inputs(k)[i], x);
    var d := e.Inputs(k)[i];
    if Reads(e, d, x) {
      ReadsBelow(e, d, x);
    } else if d != x && e.Peer(d).value != x {
      ReadsBelow(e, e.Peer(d).value, x);
    }
  }

  /** `k` declares every setting kept in the database that its default reads, directly or
      through other settings. */
  ghost predicate Covered(e: Env, k: string)
    requires e.WellFormed() && k in e.fields
  {
    forall x <- e.fields :: e.FromDatabase(x) && Reads(e, k, x) ==> x in e.fields[k].dependsOn
  }

  /** A change of the rows of `key` can show in `k`. */
  ghost predicate Sees(e: Env, k: string, key: string)
    requires e.WellFormed()
  {
    key in e.fields && e.FromDatabase(key) && (k == key || Reads(e, k, key))
  }

  /** What invalidation relies on: a covered setting is dropped whenever it could change. */
  lemma CoveredIsDropped(e: Env, k: string, key: string)
    requires e.WellFormed() && k in e.fields && Covered(e, k) && Sees(e, k, key)
    ensures k in {key} + Dependents(e.dependents, key)
  {
  }

  // ----- Row values -----

  /** The plain text of a row; None if it does not decrypt. */
  function RowValue(e: Env, row: Row): Option<Value>
    requires row.key in e.fields
  {
    if !e.fields[row.key].encrypted then Some(row.value)
    else if !row.value.Str? then None
    else match e.crypto.decrypt(Some(row.pk), row.value.s)
         case Some(s) => Some(Str(s))
         case None => None
  }

  ghost predicate RowOk(e: Env, row: Row) {
    row.key in e.fields && e.fields[row.key].encrypted ==> RowValue(e, row).Some? && Secret(RowValue(e, row).value)
  }

  /** Every encrypted row decrypts under its id. */
  ghost predicate Clean(e: Env, rows: Rows) {
    forall row <- rows :: RowOk(e, row)
  }

  function RowRaw(e: Env, row: Row): Value
    requires row.key in e.fields
  {
    match RowValue(e, row) case Some(v) => Normal(v) case None => NOTSET
  }

  predicate Served(e: Env, rows: Rows, k: string)
    requires k in e.fields
  {
    e.FromDatabase(k) && First(rows, k).Some?
  }

  /** The id under which the value of `k` is encrypted in the cache. */
  function CurrentId(e: Env, rows: Rows, k: string): Option<nat>
    requires k in e.fields
  {
    if Served(e, rows, k) then Some(First(rows, k).value.pk) else None
  }

  // ----- The uncached lookup -----

  /** The stored value, or the default; `NOTSET` when there is neither, or the value is None. */
  ghost function Raw(e: Env, rows: Rows, k: string): (r: Value)
    requires k in e.fields && e.WellFormed()
    ensures r != Null
    decreases e.Rank(k), 2
  {
    if Served(e, rows, k) then RowRaw(e, First(rows, k).value) else Normal(DefaultOf(e, rows, k))
  }

  ghost function DefaultOf(e: Env, rows: Rows, k: string): Value
    requires k in e.fields && e.WellFormed()
    decreases e.Rank(k), 1
  {
    InputsBelow(e, k);
    match e.fields[k].default
    case NoDefault => NOTSET
    case Constant(v) => v
    case Computed(inputs, compute) => compute(ReadAll(e, rows, k, inputs))
  }

  ghost function ReadAll(e: Env, rows: Rows, k: string, inputs: seq<string>): (r: seq<Option<Value>>)
    requires k in e.fields && e.WellFormed()
    requires forall i :: 0 <= i < |inputs| ==> e.Top(inputs[i]) < e.Rank(k)
    ensures |r| == |inputs|
    ensures forall i :: 0 <= i < |inputs| ==> r[i] == Final(e, rows, inputs[i])
    decreases e.Rank(k), 0, |inputs|
  {
    if inputs == [] then [] else [Final(e, rows, inputs[0])] + ReadAll(e, rows, k, inputs[1..])
  }

  /** What validation makes of a raw value; None is "nothing usable". */
  function Local(e: Env, k: string, raw: Value, peer: Option<Value>): Option<Value>
    requires k in e.fields
  {
    if raw == NOTSET then None else e.fields[k].validate(raw, peer)
  }

  /** The value of the setting: None is an AttributeError. */
  function Finish(e: Env, k: string, local: Option<Value>): Option<Value> {
    if local.Some? then local else e.FileDefault(k)
  }

  ghost function PeerRaw(e: Env, rows: Rows, k: string): Option<Value>
    requires e.WellFormed()
    decreases e.Top(k), 3
  {
    if e.Peer(k).None? then None else (PeerKnown(e, k); Usable(Raw(e, rows, e.Peer(k).value)))
  }

  ghost function LocalOf(e: Env, rows: Rows, k: string): Option<Value>
    requires e.WellFormed() && k in e.fields
    decreases e.Top(k), 4
  {
    Local(e, k, Raw(e, rows, k), PeerRaw(e, rows, k))
  }

  ghost function Final(e: Env, rows: Rows, k: string): Option<Value>
    requires e.WellFormed()
    decreases e.Top(k), 5
  {
    if k in e.fields then Finish(e, k, LocalOf(e, rows, k)) else e.FileDefault(k)
  }

  lemma DefaultIs(e: Env, rows: Rows, k: string, xs: seq<Option<Value>>)
    requires e.WellFormed() && k in e.fields && e.fields[k].default.Computed?
    requires |xs| == |e.Inputs(k)|
    requires forall i :: 0 <= i < |xs| ==> xs[i] == Final(e, rows, e.Inputs(k)[i])
    ensures DefaultOf(e, rows, k) == e.fields[k].default.compute(xs)
  {
    hide Final;
    InputsBelow(e, k);
    assert ReadAll(e, rows, k, e.fields[k].default.inputs) == xs;
  }

  // ----- The uncached lookup in terms of rows, fields and settings files -----

  lemma {:induction false} NoneOf(rows: Rows, k: string)
    requires forall row <- rows :: row.key != k
    ensures Of(rows, k) == []
  {
    if rows != [] {
      assert rows[0] in rows;
      NoneOf(rows[1..], k);
    }
  }

  lemma {:induction false} FirstRowIs(rows: Rows, k: string, i: nat)
    requires i < |rows| && rows[i].key == k && forall j: nat :: j < i ==> rows[j].key != k
    ensures First(rows, k) == Some(rows[i])
  {
    if i > 0 {
      FirstRowIs(rows[1..], k, i - 1);
    }
  }

  /** A setting that is not read-only, or the identifier of the installation, is worth what its
      lowest row holds; a secret what the row decrypts to under its own id. */
  lemma RowDecides(e: Env, rows: Rows, k: string, i: nat)
    requires e.WellFormed() && k in e.fields && (!e.fields[k].readOnly || k == "INSTALL_UUID")
    requires i < |rows| && rows[i].key == k && forall j: nat :: j < i ==> rows[j].key != k
    ensures !e.fields[k].encrypted && rows[i].value != Null ==> Raw(e, rows, k) == rows[i].value
    ensures e.fields[k].encrypted && rows[i].value.Str? && e.crypto.decrypt(Some(rows[i].pk), rows[i].value.s).Some? ==>
              Raw(e, rows, k) == Str(e.crypto.decrypt(Some(rows[i].pk), rows[i].value.s).value)
    ensures Raw(e, rows, k) == Str("___notset___") <==>
              if !e.fields[k].encrypted then rows[i].value == Null || rows[i].value == Str("___notset___")
              else rows[i].value.Str? ==> e.crypto.decrypt(Some(rows[i].pk), rows[i].value.s) in {None, Some("___notset___")}
  {
    FirstRowIs(rows, k, i);
  }

  /** Without a row, or if it is read-only, it is worth its default, computed from the final
      values of the settings the default reads. */
  lemma DefaultDecides(e: Env, rows: Rows, k: string) returns (v: Value, xs: seq<Option<Value>>)
    requires e.WellFormed() && k in e.fields
    requires (e.fields[k].readOnly && k != "INSTALL_UUID") || forall row <- rows :: row.key != k
    ensures Raw(e, rows, k) == if v == Null then Str("___notset___") else v
    ensures match e.fields[k].default
            case NoDefault => v == Str("___notset___")
            case Constant(c) => v == c
            case Computed(inputs, compute) =>
              v == compute(xs) && |xs| == |inputs| && forall i :: 0 <= i < |xs| ==> xs[i] == Final(e, rows, inputs[i])
  {
    if e.FromDatabase(k) {
      NoneOf(rows, k);
    }
    v, xs := DefaultOf(e, rows, k), [];
    InputsBelow(e, k);
    if e.fields[k].default.Computed? {
      xs := ReadAll(e, rows, k, e.fields[k].default.inputs);
    }
  }

  /** What it is worth is validated, together with the raw value of its peer; if nothing comes of
      that, or nobody has registered it, the settings files decide. */
  lemma FilesDecideLast(e: Env, rows: Rows, k: string)
    requires e.WellFormed()
    ensures k !in e.fields || LocalOf(e, rows, k) == None ==>
              Final(e, rows, k) == if k in e.fileDefaults then Some(e.fileDefaults[k]) else None
    ensures k in e.fields && LocalOf(e, rows, k).Some? ==> Final(e, rows, k) == LocalOf(e, rows, k)
    ensures k in e.fields ==> (e.fields[k].peer.Some? ==> e.fields[k].peer.value in e.fields)
    ensures k in e.fields && Raw(e, rows, k) == Str("___notset___") ==> LocalOf(e, rows, k) == None
    ensures k in e.fields && Raw(e, rows, k) != Str("___notset___") ==>
              LocalOf(e, rows, k) ==
              match e.fields[k].peer
              case None => e.fields[k].validate(Raw(e, rows, k), None)
              case Some(p) =>
                var stored := Raw(e, rows, p);
                e.fields[k].validate(Raw(e, rows, k), if stored == Str("___notset___") then None else Some(stored))
  {
    hide Raw;
    if e.Peer(k).Some? {
      PeerKnown(e, k);
    }
  }

  // ----- The bulk preload -----

  /** The row as the preload caches it counts as a value. */
  predicate IsSet(e: Env, row: Row)
    requires row.key in e.fields
  {
    RowValue(e, row).Some? && Encode(RowValue(e, row).value) != NOTSET
  }

  function HeadSet(e: Env, k: string, own: Rows): (r: Option<Row>)
    requires k in e.fields && forall row <- own :: row.key == k
    ensures r.Some? ==> r.value in own && r.value.key == k && IsSet(e, r.value)
  {
    if own == [] then None else if IsSet(e, own[0]) then Some(own[0]) else HeadSet(e, k, own[1..])
  }

  /** The first row of `k` that is not cached as "not set". */
  function FirstSet(e: Env, rows: Rows, k: string): (r: Option<Row>)
    requires k in e.fields
    ensures r.Some? ==> r.value in rows && r.value.key == k && IsSet(e, r.value)
  {
    HeadSet(e, k, Of(rows, k))
  }

  /** What the preload stores for `k`: unlike the one-key path it passes over rows that
      count as not set, and then takes the default. */
  ghost function PreloadEntry(e: Env, rows: Rows, k: string): Value
    requires k in e.fields && e.WellFormed()
  {
    match FirstSet(e, rows, k)
    case Some(row) => Encode(RowValue(e, row).value)
    case None => Encode(DefaultOf(e, rows, k))
  }

  /** The lowest row of `k` exists but counts as not set. */
  predicate NullFirst(e: Env, rows: Rows, k: string)
    requires k in e.fields
  {
    First(rows, k).Some? && !IsSet(e, First(rows, k).value)
  }

  lemma FirstSetIsFirst(e: Env, rows: Rows, k: string)
    requires k in e.fields
    ensures !NullFirst(e, rows, k) ==> FirstSet(e, rows, k) == First(rows, k)
    ensures FirstSet(e, rows, k).Some? ==> First(rows, k).Some?
  {
  }

  /** For a setting kept in the database, the preload stores what the one-key path stores
      exactly when the lowest row is not a null row, or there is nothing behind it that the
      preload would take instead. */
  lemma PreloadAgrees(e: Env, rows: Rows, k: string)
    requires k in e.fields && e.WellFormed() && e.FromDatabase(k)
    ensures PreloadEntry(e, rows, k) == Encode(Raw(e, rows, k)) <==>
              !NullFirst(e, rows, k) || (FirstSet(e, rows, k).None? && Encode(DefaultOf(e, rows, k)) == NOTSET)
  {
    hide DefaultOf, HeadSet;
    FirstSetIsFirst(e, rows, k);
    NormalEncoded(DefaultOf(e, rows, k));
    if First(rows, k).Some? && RowValue(e, First(rows, k).value).Some? {
      NormalEncoded(RowValue(e, First(rows, k).value).value);
    }
  }

  // ----- Settings the cache can serve -----

  /** The default takes part in what is stored for `k`. */
  predicate DefaultUsed(e: Env, rows: Rows, k: string)
    requires k in e.fields
  {
    !Served(e, rows, k) || NullFirst(e, rows, k)
  }

  /** The value survives the cache, and preload and one-key path agree on it. */
  ghost predicate Regular(e: Env, rows: Rows, k: string)
    requires e.WellFormed() && k in e.fields
  {
    && Keepable(Raw(e, rows, k))
    && (e.FromDatabase(k) ==>
          !NullFirst(e, rows, k) || (FirstSet(e, rows, k).None? && Encode(DefaultOf(e, rows, k)) == NOTSET))
  }

  /** Nothing is lost between storing and reading `k`: it is regular, and so is whatever its
      default is at present computed from. */
  ghost predicate Faithful(e: Env, rows: Rows, k: string)
    requires e.WellFormed() && k in e.fields
    decreases e.Rank(k), 0
  {
    InputsBelow(e, k);
    Regular(e, rows, k) && (DefaultUsed(e, rows, k) ==> forall i :: 0 <= i < |e.Inputs(k)| ==> FaithfulFinal(e, rows, e.Inputs(k)[i]))
  }

  /** The same for the validated value. */
  ghost predicate FaithfulFinal(e: Env, rows: Rows, k: string)
    requires e.WellFormed()
    decreases e.Top(k), 1
  {
    k in e.fields ==> Faithful(e, rows, k) && (e.Peer(k).Some? ==> (PeerKnown(e, k); Faithful(e, rows, e.Peer(k).value)))
  }

  /** `k` and all its default is computed from are covered. */
  ghost predicate Trusted(e: Env, k: string)
    requires e.WellFormed() && k in e.fields
    decreases e.Rank(k), 0
  {
    InputsBelow(e, k);
    Covered(e, k) && forall i :: 0 <= i < |e.Inputs(k)| ==> TrustedFinal(e, e.Inputs(k)[i])
  }

  ghost predicate TrustedFinal(e: Env, k: string)
    requires e.WellFormed()
    decreases e.Top(k), 1
  {
    k in e.fields ==> Trusted(e, k) && (e.Peer(k).Some? ==> (PeerKnown(e, k); Trusted(e, e.Peer(k).value)))
  }

  /** The cache can serve the stored value or default of `k`. */
  ghost predicate Tame(e: Env, rows: Rows, k: string)
    requires e.WellFormed() && k in e.fields
  {
    Trusted(e, k) && Faithful(e, rows, k)
  }

  /** And its validated value. */
  ghost predicate TameFinal(e: Env, rows: Rows, k: string)
    requires e.WellFormed()
  {
    TrustedFinal(e, k) && FaithfulFinal(e, rows, k)
  }

  /** Encrypted settings always are. */
  lemma SecretIsTame(e: Env, rows: Rows, k: string)
    requires e.WellFormed() && Clean(e, rows) && k in e.fields && e.fields[k].encrypted
    ensures Tame(e, rows, k) && Raw(e, rows, k).Str? && Plain(Raw(e, rows, k).s)
  {
    hide HeadSet, Of, Env.WellFormed;
    SentinelsDiffer();
    assert e.FieldOk(k) by { KnownField(e, k); }
    assert e.Inputs(k) == [];
    FirstSetIsFirst(e, rows, k);
    assert NOTSET.s[0] == '_' && CIPHER_MARK[0] == '$';
    if First(rows, k).Some? {
      assert RowOk(e, First(rows, k).value);
      assert !NullFirst(e, rows, k);
    }
    assert Keepable(Raw(e, rows, k));
    assert Covered(e, k);
  }

  lemma KnownField(e: Env, k: string)
    requires e.WellFormed() && k in e.fields
    ensures e.FieldOk(k)
  {
  }

  // ----- What a change of one key can affect -----

  /** A change of the rows of `key` shows in no setting that does not read it. */
  lemma {:induction false} Unaffected(e: Env, rows: Rows, rows': Rows, key: string, k: string)
    requires e.WellFormed() && SameElsewhere(rows, rows', key) && k in e.fields && !Sees(e, k, key)
    ensures Raw(e, rows, k) == Raw(e, rows', k) && CurrentId(e, rows, k) == CurrentId(e, rows', k)
    ensures DefaultOf(e, rows, k) == DefaultOf(e, rows', k)
    decreases e.Rank(k), 1
  {
    hide Final, Env.WellFormed, SameElsewhere;
    SameRows(e, rows, rows', key, k);
    UnaffectedDefault(e, rows, rows', key, k);
  }

  lemma SameRows(e: Env, rows: Rows, rows': Rows, key: string, k: string)
    requires SameElsewhere(rows, rows', key) && k in e.fields && (k == key ==> !e.FromDatabase(k))
    ensures Served(e, rows, k) <==> Served(e, rows', k)
    ensures Served(e, rows, k) ==> First(rows, k) == First(rows', k)
    ensures e.FromDatabase(k) ==> First(rows, k) == First(rows', k) && FirstSet(e, rows, k) == FirstSet(e, rows', k)
  {
  }

  lemma UnaffectedDefault(e: Env, rows: Rows, rows': Rows, key: string, k: string)
    requires e.WellFormed() && SameElsewhere(rows, rows', key) && k in e.fields
    requires key in e.fields && e.FromDatabase(key) ==> !Reads(e, k, key)
    ensures DefaultOf(e, rows, k) == DefaultOf(e, rows', k)
    decreases e.Rank(k), 0
  {
    hide Final, Env.WellFormed, SameElsewhere;
    InputsBelow(e, k);
    var inputs := e.Inputs(k);
    forall i | 0 <= i < |inputs|
      ensures Final(e, rows, inputs[i]) == Final(e, rows', inputs[i])
    {
      UnaffectedFinal(e, rows, rows', key, inputs[i]);
    }
    if e.fields[k].default.Computed? {
      assert ReadAll(e, rows, k, inputs) == ReadAll(e, rows', k, inputs);
    }
  }

  lemma UnaffectedFinal(e: Env, rows: Rows, rows': Rows, key: string, d: string)
    requires e.WellFormed() && SameElsewhere(rows, rows', key)
    requires key in e.fields && e.FromDatabase(key) ==> !Consults(e, d, key)
    ensures Final(e, rows, d) == Final(e, rows', d)
    decreases e.Top(d), 2
  {
    hide Env.WellFormed, SameElsewhere, Raw, DefaultOf;
    if d in e.fields {
      Unaffected(e, rows, rows', key, d);
      if e.Peer(d).Some? {
        PeerKnown(e, d);
        Unaffected(e, rows, rows', key, e.Peer(d).value);
      }
      assert PeerRaw(e, rows, d) == PeerRaw(e, rows', d);
      assert LocalOf(e, rows, d) == LocalOf(e, rows', d);
    }
  }

  /** Nor does it change whether anything is lost in storing it. */
  lemma {:induction false} StaysFaithful(e: Env, rows: Rows, rows': Rows, key: string, k: string)
    requires e.WellFormed() && SameElsewhere(rows, rows', key) && k in e.fields && !Sees(e, k, key)
    ensures Faithful(e, rows, k) <==> Faithful(e, rows', k)
    decreases e.Rank(k), 0
  {
    hide Final, Env.WellFormed, SameElsewhere, Raw, DefaultOf, Encode, HeadSet, Of, RowValue;
    InputsBelow(e, k);
    SameRows(e, rows, rows', key, k);
    Unaffected(e, rows, rows', key, k);
    var inputs := e.Inputs(k);
    forall i | 0 <= i < |inputs|
      ensures FaithfulFinal(e, rows, inputs[i]) <==> FaithfulFinal(e, rows', inputs[i])
    {
      StaysFaithfulFinal(e, rows, rows', key, inputs[i]);
    }
  }

  lemma StaysFaithfulFinal(e: Env, rows: Rows, rows': Rows, key: string, d: string)
    requires e.WellFormed() && SameElsewhere(rows, rows', key)
    requires key in e.fields && e.FromDatabase(key) ==> !Consults(e, d, key)
    ensures FaithfulFinal(e, rows, d) <==> FaithfulFinal(e, rows', d)
    decreases e.Top(d), 1
  {
    hide Env.WellFormed, SameElsewhere, Faithful;
    if d in e.fields {
      StaysFaithful(e, rows, rows', key, d);
      if e.Peer(d).Some? {
        PeerKnown(e, d);
        StaysFaithful(e, rows, rows', key, e.Peer(d).value);
      }
    }
  }

  // ----- A null row -----

  /** A setting with a default, for which a null has been stored. */
  lemma NullRowDiffers()
    returns (e: Env, rows: Rows)
    ensures e.WellFormed() && "A" in e.fields && e.FromDatabase("A") && rows == [Row(1, "A", Null)]
    ensures Raw(e, rows, "A") == NOTSET && PreloadEntry(e, rows, "A") == Num(5)
    ensures !Faithful(e, rows, "A")
  {
    e := Env(map["A" := Field(false, false, Constant(Num(5)), {}, None, v => Some(v), (v, p) => Some(v), 0)], map[], map[],
             Crypto((id, s) => s, (id, s) => Some(s)));
    rows := [Row(1, "A", Null)];
    assert e.FieldOk("A");
    assert Of(rows, "A") == rows;
    assert HeadSet(e, "A", rows[1..]) == None;
    PreloadAgrees(e, rows, "A");
  }
}
