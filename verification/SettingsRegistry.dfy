/**
 The registry of settings with its index of dependent settings
 (forail/conf/registry.py:20-69).  Cache invalidation trusts the index, so it has to be
 the exact inverse of what the registered settings declare.
 */
module SettingsRegistry {
  import opened SettingsModel

  lemma ListedIsKey(dependents: map<string, set<string>>)
    ensures forall x, d: string :: x in Dependents(dependents, d) ==> d in dependents.Keys
  {
  }

  class Registry {
    var fields: map<string, Field>
    var dependents: map<string, set<string>>

    ghost predicate Valid()
      reads this
    {
      forall k, d: string :: k in Dependents(dependents, d) <==> k in fields && d in fields[k].dependsOn
    }

    constructor ()
      ensures Valid() && fields.Keys == {}
    {
      fields, dependents := map[], map[];
    }

    method AddDependent(d: string, k: string)
      modifies this`dependents
      ensures forall x, c: string :: x in Dependents(dependents, c) <==> x in Dependents(old(dependents), c) || (x == k && c == d)
    {
      if d !in dependents {
        dependents := dependents[d := {}];
      }
      dependents := dependents[d := dependents[d] + {k}];
    }

    method DropDependent(d: string, k: string)
      modifies this`dependents
      ensures forall x, c: string :: x in Dependents(dependents, c) <==> x in Dependents(old(dependents), c) && !(x == k && c == d)
    {
      if d in dependents {
        dependents := dependents[d := dependents[d] - {k}];
      }
    }

    /** Fails for a name that is taken, for a reserved category and without a field class. */
    method Register(k: string, field: Field, reserved: bool, hasFieldClass: bool) returns (ok: bool)
      requires Valid()
      modifies this
      ensures Valid()
      ensures ok <==> k !in old(fields) && !reserved && hasFieldClass
      ensures fields.Keys == if ok then old(fields).Keys + {k} else old(fields).Keys
      ensures ok ==> fields[k] == field
      ensures forall x <- old(fields) :: fields[x] == old(fields)[x]
    {
      if k in fields || reserved || !hasFieldClass {
        return false;
      }
      hide Dependents;
      fields := fields[k := field];
      AddEverywhere(field.dependsOn, k);
      ok := true;
    }

    method AddEverywhere(ds: set<string>, k: string)
      modifies this`dependents
      ensures forall x, c: string :: x in Dependents(dependents, c) <==> x in Dependents(old(dependents), c) || (x == k && c in ds)
    {
      hide Dependents;
      var todo := ds;
      ghost var done: set<string> := {};
      while todo != {}
        invariant todo + done == ds && todo !! done
        invariant forall x, c: string :: x in Dependents(dependents, c) <==> x in Dependents(old(dependents), c) || (x == k && c in done)
        decreases |todo|
      {
        var d :| d in todo;
        AddDependent(d, k);
        todo, done := todo - {d}, done + {d};
      }
    }

    method Unregister(k: string)
      requires Valid()
      modifies this
      ensures Valid()
      ensures fields.Keys == old(fields).Keys - {k}
      ensures forall x <- fields :: fields[x] == old(fields)[x]
    {
      hide Dependents;
      fields := fields - {k};
      DropEverywhere(k);
    }

    method DropEverywhere(k: string)
      modifies this`dependents
      ensures forall x, c: string :: x in Dependents(dependents, c) <==> x in Dependents(old(dependents), c) && x != k
    {
      hide Dependents;
      var todo := dependents.Keys;
      ListedIsKey(dependents);
      while todo != {}
        invariant forall x, c: string :: x in Dependents(dependents, c) <==>
                    x in Dependents(old(dependents), c) && (x != k || c in todo)
        decreases |todo|
      {
        var d :| d in todo;
        DropDependent(d, k);
        todo := todo - {d};
      }
    }

    /** The settings whose cache entries a change of `d` invalidates. */
    function GetDependentSettings(d: string): (r: set<string>)
      requires Valid()
      reads this
      ensures forall k :: k in r <==> k in fields && d in fields[k].dependsOn
    {
      Dependents(dependents, d)
    }

    /** The registered settings as a lookup sees them: the index is what invalidation takes
        it for, and it drops a setting with every change its default could show exactly if
        the setting lists all that its default reads. */
    lemma IndexServesInvalidation(fileDefaults: map<string, Value>, crypto: Crypto, k: string)
      requires Valid() && k in fields
      requires var e := Env(fields, dependents, fileDefaults, crypto); crypto.Sound() && forall x <- fields :: e.FieldOk(x)
      ensures Env(fields, dependents, fileDefaults, crypto).WellFormed()
      ensures var e := Env(fields, dependents, fileDefaults, crypto);
              Covered(e, k) <==> forall x :: Sees(e, k, x) ==> k in {x} + GetDependentSettings(x)
    {
      var e := Env(fields, dependents, fileDefaults, crypto);
      if Covered(e, k) {
        forall x | Sees(e, k, x)
          ensures k in {x} + GetDependentSettings(x)
        {
          CoveredIsDropped(e, k, x);
        }
      } else {
        var x :| x in e.fields && e.FromDatabase(x) && Reads(e, k, x) && x !in e.fields[k].dependsOn;
        ReadsBelow(e, k, x);
        assert Sees(e, k, x) && k !in {x} + GetDependentSettings(x);
      }
    }
  }
}
