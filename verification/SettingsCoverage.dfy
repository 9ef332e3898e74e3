/**
 Invalidation drops a changed setting and those that list it, one level deep
 (forail/conf/signals.py:20-32; forail/conf/registry.py:48-69).  The entry it leaves of a setting
 is right exactly when the setting lists everything its default reads, through other settings
 too.  That is about one entry; what is answered is another matter (SettingsHistory).
 */
module SettingsCoverage {
  import opened Options
  import opened SettingsModel

  /** The same settings with the same dependencies and the same reads; what defaults compute,
      what validation accepts and what the rows hold may differ. */
  ghost predicate Alike(e: Env, other: Env) {
    && other.fields.Keys == e.fields.Keys && other.dependents == e.dependents
    && forall k <- e.fields ::
         var f, g := e.fields[k], other.fields[k];
         && g.readOnly == f.readOnly && g.encrypted == f.encrypted && g.dependsOn == f.dependsOn
         && g.peer == f.peer && g.level == f.level
         && g.default.Computed? == f.default.Computed? && other.Inputs(k) == e.Inputs(k)
  }

  /** A change that does not drop the entry of `k` leaves it right. */
  ghost predicate StaysRight(e: Env, k: string, was: Rows, rows: Rows, key: string)
    requires e.WellFormed() && k in e.fields
  {
    SameElsewhere(was, rows, key) && k !in {key} + Dependents(e.dependents, key) ==> Raw(e, was, k) == Raw(e, rows, k)
  }

  ghost predicate AlwaysRight(e: Env, k: string)
    requires k in e.fields
  {
    forall other: Env, was, rows, key :: Alike(e, other) && other.WellFormed() ==> StaysRight(other, k, was, rows, key)
  }

  // ----- Enough -----

  lemma {:induction false} SameReads(e: Env, other: Env, k: string, x: string)
    requires e.WellFormed() && other.WellFormed() && Alike(e, other)
    ensures Reads(e, k, x) <==> Reads(other, k, x)
    decreases e.Rank(k), 0
  {
    hide Env.WellFormed;
    InputsBelow(e, k);
    assert e.Inputs(k) == other.Inputs(k);
    forall i | 0 <= i < |e.Inputs(k)|
      ensures Consults(e, e.Inputs(k)[i], x) <==> Consults(other, e.Inputs(k)[i], x)
    {
      var d := e.Inputs(k)[i];
      SameReads(e, other, d, x);
      assert e.Peer(d) == other.Peer(d);
      if e.Peer(d).Some? {
        SameReads(e, other, e.Peer(d).value, x);
      }
    }
  }

  lemma CoverageSuffices(e: Env, k: string)
    requires e.WellFormed() && k in e.fields && Covered(e, k)
    ensures AlwaysRight(e, k)
  {
    hide Env.WellFormed, Raw, SameElsewhere;
    forall other: Env, was, rows, key | Alike(e, other) && other.WellFormed()
      ensures StaysRight(other, k, was, rows, key)
    {
      if SameElsewhere(was, rows, key) && k !in {key} + Dependents(e.dependents, key) {
        SameReads(e, other, k, key);
        StillCovered(e, other, k, key);
        Unaffected(other, was, rows, key, k);
      }
    }
  }

  lemma StillCovered(e: Env, other: Env, k: string, key: string)
    requires e.WellFormed() && other.WellFormed() && Alike(e, other) && k in e.fields && Covered(e, k)
    requires Reads(e, k, key) <==> Reads(other, k, key)
    requires k !in {key} + Dependents(e.dependents, key)
    ensures !Sees(other, k, key)
  {
    if key in e.fields && e.FromDatabase(key) {
      assert !Reads(e, k, key);
    }
  }

  // ----- Necessary -----

  const ONE: Value := Str("1")
  const ZERO: Value := Str("0")

  function Witness(f: Field): Field {
    Field(f.readOnly, f.encrypted, if f.default.Computed? then Computed(f.default.inputs, AnyOne) else Constant(ZERO),
          f.dependsOn, f.peer, v => Some(v), PassOne, f.level)
  }

  /** A default that shows whether any of its inputs is one. */
  function AnyOne(xs: seq<Option<Value>>): Value {
    if Some(ONE) in xs then ONE else ZERO
  }

  /** A validation that shows whether the value or that of the peer is one. */
  function PassOne(v: Value, peer: Option<Value>): Option<Value> {
    if peer == Some(ONE) then peer else Some(v)
  }

  /** The settings of `e` with defaults and validations that pass a one on. */
  function Tracer(e: Env): Env {
    Env(map k <- e.fields :: Witness(e.fields[k]), e.dependents, map[], Crypto((id, s) => s, (id, s) => Some(s)))
  }

  lemma TokensDiffer()
    ensures ONE != ZERO && ONE != NOTSET && ZERO != NOTSET && Secret(ZERO)
  {
    SentinelsDiffer();
    assert |ZERO.s| == 1 && |ONE.s| == 1 && |NOTSET.s| == 12 && |EMPTY_LIST.s| == 8 && |EMPTY_DICT.s| == 8;
    assert ONE.s[0] == '1' && ZERO.s[0] == '0' && CIPHER_MARK[0] == '$';
  }

  lemma TracerAlike(e: Env)
    requires e.WellFormed()
    ensures Alike(e, Tracer(e)) && Tracer(e).WellFormed()
  {
    TokensDiffer();
    var t := Tracer(e);
    forall k <- t.fields
      ensures t.FieldOk(k)
    {
      assert e.FieldOk(k);
      assert forall d :: t.Top(d) == e.Top(d);
    }
    assert t.Inverse();
  }

  lemma OneRowOf(key: string, v: Value, x: string)
    ensures Of([Row(0, key, v)], x) == if x == key then [Row(0, key, v)] else []
  {
    assert [Row(0, key, v)][1..] == [];
  }

  /** With a one in the row of `key`, exactly `key` and what reads it come to one. */
  lemma {:induction false} TraceRaw(e: Env, key: string, v: Value, x: string)
    requires e.WellFormed() && Tracer(e).WellFormed() && key in e.fields && e.FromDatabase(key) && x in e.fields
    requires v == ONE || v == ZERO
    ensures Raw(Tracer(e), [Row(0, key, v)], x) == if v == ONE && (x == key || Reads(Tracer(e), x, key)) then ONE else ZERO
    decreases e.Rank(x), 1
  {
    hide Env.WellFormed, Final;
    TokensDiffer();
    var t, rows := Tracer(e), [Row(0, key, v)];
    OneRowOf(key, v, x);
    InputsBelow(t, x);
    if x != key {
      var inputs := t.Inputs(x);
      if t.fields[x].default.Computed? {
        var xs := ReadAll(t, rows, x, inputs);
        forall i | 0 <= i < |inputs|
          ensures xs[i] == Some(ONE) <==> v == ONE && Consults(t, inputs[i], key)
        {
          TraceFinal(e, key, v, inputs[i]);
        }
        TraceAny(t, v, x, key, xs);
      }
    }
  }

  lemma TraceAny(t: Env, v: Value, x: string, key: string, xs: seq<Option<Value>>)
    requires t.WellFormed() && |xs| == |t.Inputs(x)|
    requires forall i :: 0 <= i < |xs| ==> (xs[i] == Some(ONE) <==> v == ONE && Consults(t, t.Inputs(x)[i], key))
    ensures AnyOne(xs) == if v == ONE && Reads(t, x, key) then ONE else ZERO
  {
    hide Env.WellFormed, Consults;
    if Some(ONE) in xs {
      var i :| 0 <= i < |xs| && xs[i] == Some(ONE);
      assert Consults(t, t.Inputs(x)[i], key);
    }
    if v == ONE && Reads(t, x, key) {
      var i :| 0 <= i < |t.Inputs(x)| && Consults(t, t.Inputs(x)[i], key);
      assert xs[i] == Some(ONE);
    }
  }

  lemma {:induction false} TraceFinal(e: Env, key: string, v: Value, d: string)
    requires e.WellFormed() && Tracer(e).WellFormed() && key in e.fields && e.FromDatabase(key)
    requires v == ONE || v == ZERO
    ensures Final(Tracer(e), [Row(0, key, v)], d) == Some(ONE) <==> v == ONE && Consults(Tracer(e), d, key)
    decreases e.Top(d), 2
  {
    hide Env.WellFormed, Raw;
    TokensDiffer();
    var t, rows := Tracer(e), [Row(0, key, v)];
    if d in e.fields {
      TraceRaw(e, key, v, d);
      if e.Peer(d).Some? {
        PeerKnown(e, d);
        PeerKnown(t, d);
        TraceRaw(e, key, v, e.Peer(d).value);
        assert PeerRaw(t, rows, d) == Some(Raw(t, rows, e.Peer(d).value));
      }
      assert t.Peer(d) == e.Peer(d);
      assert LocalOf(t, rows, d) == PassOne(Raw(t, rows, d), PeerRaw(t, rows, d));
    } else {
      assert !Reads(t, d, key);
    }
  }

  /** An undeclared read: the tracer, a row that changes from one to zero, and an entry that
      was right, is not dropped, and is wrong. */
  lemma UndeclaredGoesStale(e: Env, k: string, key: string)
    requires e.WellFormed() && k in e.fields && key in e.fields && e.FromDatabase(key)
    requires Reads(e, k, key) && key !in e.fields[k].dependsOn && k != key
    ensures Alike(e, Tracer(e)) && Tracer(e).WellFormed()
    ensures !StaysRight(Tracer(e), k, [Row(0, key, ONE)], [Row(0, key, ZERO)], key)
  {
    hide Env.WellFormed, Raw, Reads;
    TracerAlike(e);
    SameReads(e, Tracer(e), k, key);
    TokensDiffer();
    TraceRaw(e, key, ONE, k);
    TraceRaw(e, key, ZERO, k);
    forall x: string | x != key
      ensures Of([Row(0, key, ONE)], x) == Of([Row(0, key, ZERO)], x)
    {
      OneRowOf(key, ONE, x);
      OneRowOf(key, ZERO, x);
    }
    assert e.Inverse() by { InverseOf(e); }
  }

  lemma InverseOf(e: Env)
    requires e.WellFormed()
    ensures e.Inverse()
  {
  }

  /** Invalidation never leaves a wrong entry of `k`, whatever is computed and stored, exactly
      when `k` lists every database setting that its default reads directly or indirectly. */
  lemma CoveredIff(e: Env, k: string)
    requires e.WellFormed() && k in e.fields
    ensures AlwaysRight(e, k) <==> Covered(e, k)
  {
    hide Env.WellFormed, Reads, StaysRight;
    if Covered(e, k) {
      CoverageSuffices(e, k);
    } else {
      var key :| key in e.fields && e.FromDatabase(key) && Reads(e, k, key) && key !in e.fields[k].dependsOn;
      ReadsBelow(e, k, key);
      UndeclaredGoesStale(e, k, key);
    }
  }
}
