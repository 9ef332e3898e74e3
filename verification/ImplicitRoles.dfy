/**
 The implicit parents of the roles of an instance (forail/main/fields.py:149-174, 213-238,
 365-387).  Every role stores, as a sorted list, which of its parents follow from the
 model; when the instance changes, that part of the parents is recomputed and the rest,
 which users granted, should be left alone.
 */
module ImplicitRoles {

  import opened Options

  // ----- Objects and the paths that lead from them to roles -----

  datatype Ref = RoleRef(id: nat) | ObjRef(id: nat)
  /** What an attribute of an object holds. */
  datatype Attr = Missing | Null | Is(ref: Ref)
  type Objects = map<(Ref, string), Attr>

  function Get(objects: Objects, obj: Ref, name: string): Attr {
    if (obj, name) in objects then objects[(obj, name)] else Missing
  }

  /** Where the first component of a path ends. */
  function Dot(path: string): (d: nat)
    ensures d <= |path|
    ensures d < |path| ==> path[d] == '.'
    ensures forall i :: 0 <= i < d ==> path[i] != '.'
  {
    if path == "" || path[0] == '.' then 0 else 1 + Dot(path[1..])
  }

  /** The role at the end of a path; None if the path ends at something else. */
  function ResolveRoleField(objects: Objects, obj: Ref, path: string): Option<seq<nat>>
    decreases |path|
  {
    var d := Dot(path);
    var attr := Get(objects, obj, path[..d]);
    if !attr.Is? then Some([])
    else if d == |path| then if attr.ref.RoleRef? then Some([attr.ref.id]) else None
    else ResolveRoleField(objects, attr.ref, path[d + 1..])
  }

  /** A path as its components, one after the other. */
  function Joined(components: seq<string>): string
    requires components != []
  {
    if |components| == 1 then components[0] else components[0] + "." + Joined(components[1..])
  }

  predicate Plain(component: string) {
    forall i :: 0 <= i < |component| ==> component[i] != '.'
  }

  /** Following the components leads through `refs`. */
  ghost predicate Leads(objects: Objects, components: seq<string>, refs: seq<Ref>) {
    |refs| == |components| + 1 && forall i :: 0 <= i < |components| ==> Get(objects, refs[i], components[i]) == Is(refs[i + 1])
  }

  ghost predicate LeadsTo(objects: Objects, obj: Ref, components: seq<string>, end: Ref) {
    exists refs :: Leads(objects, components, refs) && refs[0] == obj && refs[|refs| - 1] == end
  }

  lemma DotIs(component: string, rest: string)
    requires Plain(component) && (rest == "" || rest[0] == '.')
    ensures Dot(component + rest) == |component|
  {
    var path := component + rest;
    assert forall i :: 0 <= i < |component| ==> path[i] == component[i];
    assert rest != "" ==> path[|component|] == '.';
  }

  lemma LeadsFrom(objects: Objects, obj: Ref, components: seq<string>, refs: seq<Ref>)
    requires components != [] && Leads(objects, components[1..], refs) && Get(objects, obj, components[0]) == Is(refs[0])
    ensures Leads(objects, components, [obj] + refs)
  {
    forall i | 0 <= i < |components|
      ensures Get(objects, ([obj] + refs)[i], components[i]) == Is(([obj] + refs)[i + 1])
    {
      if i > 0 {
        assert Get(objects, refs[i - 1], components[1..][i - 1]) == Is(refs[i]);
      }
    }
  }

  lemma LeadsOn(objects: Objects, obj: Ref, components: seq<string>, end: Ref)
    requires |components| > 1
    ensures LeadsTo(objects, obj, components, end) <==>
              Get(objects, obj, components[0]).Is? && LeadsTo(objects, Get(objects, obj, components[0]).ref, components[1..], end)
  {
    if LeadsTo(objects, obj, components, end) {
      var refs :| Leads(objects, components, refs) && refs[0] == obj && refs[|refs| - 1] == end;
      assert Get(objects, refs[0], components[0]) == Is(refs[1]);
      assert Leads(objects, components[1..], refs[1..]) && refs[1..][|refs| - 2] == end;
    }
    if Get(objects, obj, components[0]).Is? && LeadsTo(objects, Get(objects, obj, components[0]).ref, components[1..], end) {
      var refs :| Leads(objects, components[1..], refs) && refs[0] == Get(objects, obj, components[0]).ref && refs[|refs| - 1] == end;
      LeadsFrom(objects, obj, components, refs);
      assert ([obj] + refs)[|refs|] == end;
    }
  }

  lemma LeadsOnce(objects: Objects, obj: Ref, component: string, end: Ref)
    ensures LeadsTo(objects, obj, [component], end) <==> Get(objects, obj, component) == Is(end)
  {
    if LeadsTo(objects, obj, [component], end) {
      var refs :| Leads(objects, [component], refs) && refs[0] == obj && refs[|refs| - 1] == end;
      assert Get(objects, refs[0], [component][0]) == Is(refs[1]);
    }
    if Get(objects, obj, component) == Is(end) {
      assert Leads(objects, [component], [obj, end]);
    }
  }

  /** A path resolves to a role exactly when following its components leads there, to no
      more than one, and fails exactly when they lead to something that is not a role. */
  lemma {:induction false} ResolvesWhereItLeads(objects: Objects, obj: Ref, components: seq<string>, r: nat)
    requires components != [] && forall i :: 0 <= i < |components| ==> Plain(components[i])
    decreases |components|
    ensures var roles := ResolveRoleField(objects, obj, Joined(components));
            && (roles.None? <==> exists o :: LeadsTo(objects, obj, components, ObjRef(o)))
            && (roles.Some? ==> |roles.value| <= 1 && (r in roles.value <==> LeadsTo(objects, obj, components, RoleRef(r))))
  {
    var c := components[0];
    if |components| == 1 {
      DotIs(c, "");
      assert c + "" == c && c[..|c|] == c && components == [c];
      LeadsOnce(objects, obj, c, RoleRef(r));
      forall o
        ensures LeadsTo(objects, obj, components, ObjRef(o)) <==> Get(objects, obj, c) == Is(ObjRef(o))
      {
        LeadsOnce(objects, obj, c, ObjRef(o));
      }
      var attr := Get(objects, obj, c);
      if attr.Is? && attr.ref.ObjRef? {
        assert LeadsTo(objects, obj, components, ObjRef(attr.ref.id));
      }
    } else {
      var rest := Joined(components[1..]);
      var path := c + "." + rest;
      assert path == c + ("." + rest) && path[..|c|] == c && path[|c| + 1..] == rest;
      DotIs(c, "." + rest);
      var attr := Get(objects, obj, c);
      forall end: Ref
        ensures LeadsTo(objects, obj, components, end) <==> attr.Is? && LeadsTo(objects, attr.ref, components[1..], end)
      {
        LeadsOn(objects, obj, components, end);
      }
      if attr.Is? {
        ResolvesWhereItLeads(objects, attr.ref, components[1..], r);
      }
    }
  }

  // ----- The stored list -----

  predicate Least(m: nat, s: set<nat>) {
    m in s && forall x <- s :: m <= x
  }

  lemma LeastExists(s: set<nat>)
    requires s != {}
    ensures exists m :: Least(m, s)
    decreases |s|
  {
    var y :| y in s;
    if s == {y} {
      assert Least(y, s);
    } else {
      assert s - {y} != {};
      LeastExists(s - {y});
      var m :| Least(m, s - {y});
      assert forall x <- s :: x == y || x in s - {y};
      assert Least(if y < m then y else m, s);
    }
  }

  /** The elements in increasing order. */
  function Sorted(s: set<nat>): seq<nat>
    decreases |s|
  {
    if s == {} then []
    else
      LeastExists(s);
      var m :| Least(m, s);
      [m] + Sorted(s - {m})
  }

  lemma {:induction false} SortedHas(s: set<nat>)
    ensures forall x :: x in Sorted(s) <==> x in s
    ensures forall i, j :: 0 <= i < j < |Sorted(s)| ==> Sorted(s)[i] < Sorted(s)[j]
    decreases |s|
  {
    if s != {} {
      LeastExists(s);
      var m :| Least(m, s);
      var rest := Sorted(s - {m});
      assert Sorted(s) == [m] + rest;
      SortedHas(s - {m});
      assert forall x :: x in [m] + rest <==> x == m || x in rest;
      forall i, j | 0 <= i < j < |Sorted(s)|
        ensures Sorted(s)[i] < Sorted(s)[j]
      {
        assert rest[j - 1] in s - {m};
      }
    }
  }

  function Elements(list: seq<nat>): set<nat> {
    set x <- list
  }

  lemma ElementsOfSorted(s: set<nat>)
    ensures Elements(Sorted(s)) == s
  {
    SortedHas(s);
  }

  // ----- One recomputation -----

  /** The parents of a role when its implicit parents change. */
  function Updated(parents: set<nat>, before: set<nat>, after: set<nat>): set<nat> {
    parents - (before - after) + (after - before)
  }

  /** The update in the two steps in which it is made. */
  lemma UpdatedInSteps(parents: set<nat>, before: set<nat>, after: set<nat>)
    ensures var fewer := if before - after == {} then parents else parents - (before - after);
            Updated(parents, before, after) == if after - before == {} then fewer else fewer + (after - before)
    ensures before - after == {} <==> before <= after
    ensures after - before == {} <==> after <= before
  {
    if before - after == {} {
      forall x <- before
        ensures x in after
      {
        assert x !in before - after;
      }
    }
    if after - before == {} {
      forall x <- after
        ensures x in before
      {
        assert x !in after - before;
      }
    }
  }

  /** The parents somebody granted. */
  function Granted(parents: set<nat>, implicitParents: set<nat>): set<nat> {
    parents - implicitParents
  }

  /** What an update does to granted parents: those that become implicit stop being
      granted, and no other. */
  lemma GrantedAfterUpdate(parents: set<nat>, before: set<nat>, after: set<nat>)
    ensures Granted(Updated(parents, before, after), after) == Granted(parents, before) - after
  {
  }

  /** The implicit parents are parents after an update exactly when none of those that stay
      implicit had been taken away; an update does not put those back. */
  lemma ImplicitAreParents(parents: set<nat>, before: set<nat>, after: set<nat>)
    ensures after <= Updated(parents, before, after) <==> before * after <= parents
  {
    if after <= Updated(parents, before, after) {
      assert before * after <= parents;
    } else {
      var x :| x in after && x !in Updated(parents, before, after);
      assert x in before * after;
    }
  }

  // ----- Any number of recomputations -----

  /** The parents after the implicit parents have in turn been resolved to `resolved`. */
  function UpdatedAll(parents: set<nat>, before: set<nat>, resolved: seq<set<nat>>): set<nat>
    decreases |resolved|
  {
    if resolved == [] then parents else UpdatedAll(Updated(parents, before, resolved[0]), resolved[0], resolved[1..])
  }

  function Latest(before: set<nat>, resolved: seq<set<nat>>): set<nat> {
    if resolved == [] then before else resolved[|resolved| - 1]
  }

  predicate EverImplicit(p: nat, resolved: seq<set<nat>>) {
    exists i :: 0 <= i < |resolved| && p in resolved[i]
  }

  /** Over any sequence of changes of the instance: what is implicit is a parent, and a role
      that was granted is still a granted parent exactly when it was never implicit on the
      way.  A grant does not outlive a spell of being implicit. */
  lemma {:induction false} GrantsOverChanges(parents: set<nat>, before: set<nat>, resolved: seq<set<nat>>, p: nat)
    requires before <= parents
    ensures Latest(before, resolved) <= UpdatedAll(parents, before, resolved)
    ensures p in UpdatedAll(parents, before, resolved) <==>
              p in Latest(before, resolved) || (p in Granted(parents, before) && !EverImplicit(p, resolved))
    ensures p in Granted(UpdatedAll(parents, before, resolved), Latest(before, resolved)) <==>
              p in Granted(parents, before) && !EverImplicit(p, resolved)
    decreases |resolved|
  {
    if resolved != [] {
      var first, rest := resolved[0], resolved[1..];
      ImplicitAreParents(parents, before, first);
      GrantedAfterUpdate(parents, before, first);
      GrantsOverChanges(Updated(parents, before, first), first, rest, p);
      EverFirstOrLater(p, resolved);
      assert Latest(first, rest) == Latest(before, resolved);
    }
  }

  lemma EverFirstOrLater(p: nat, resolved: seq<set<nat>>)
    requires resolved != []
    ensures EverImplicit(p, resolved) <==> p in resolved[0] || EverImplicit(p, resolved[1..])
    ensures p in Latest({}, resolved) ==> EverImplicit(p, resolved)
  {
    if EverImplicit(p, resolved[1..]) {
      var i :| 0 <= i < |resolved[1..]| && p in resolved[1..][i];
      assert p in resolved[i + 1];
    }
    if EverImplicit(p, resolved) && p !in resolved[0] {
      var i :| 0 <= i < |resolved| && p in resolved[i];
      assert p in resolved[1..][i - 1];
    }
  }

  // ----- Recomputations between grants and revocations -----

  /** What happens to a role: its implicit parents are resolved again, or somebody adds or
      removes a parent. */
  datatype Edit = Resolve(roles: set<nat>) | Grant(parent: nat) | Revoke(parent: nat)

  datatype Parents = Parents(all: set<nat>, implicitOnes: set<nat>)

  function Apply(r: Parents, e: Edit): Parents {
    match e
    case Resolve(after) => Parents(Updated(r.all, r.implicitOnes, after), after)
    case Grant(p) => r.(all := r.all + {p})
    case Revoke(p) => r.(all := r.all - {p})
  }

  function ApplyAll(r: Parents, edits: seq<Edit>): Parents
    decreases |edits|
  {
    if edits == [] then r else Apply(ApplyAll(r, edits[..|edits| - 1]), edits[|edits| - 1])
  }

  /** The implicit parents: those resolved last. */
  function LastResolved(before: set<nat>, edits: seq<Edit>): set<nat>
    decreases |edits|
  {
    if edits == [] then before
    else if edits[|edits| - 1].Resolve? then edits[|edits| - 1].roles
    else LastResolved(before, edits[..|edits| - 1])
  }

  /** What is said last about `p`: somebody adds or removes it, or it starts or ceases to be
      implicit.  That it stays implicit says nothing. */
  function LastSaid(before: set<nat>, edits: seq<Edit>, p: nat): Option<bool>
    decreases |edits|
  {
    if edits == [] then None
    else
      var n := |edits| - 1;
      var rest := LastSaid(before, edits[..n], p);
      match edits[n]
      case Grant(x) => if x == p then Some(true) else rest
      case Revoke(x) => if x == p then Some(false) else rest
      case Resolve(after) =>
        if (p in after) != (p in LastResolved(before, edits[..n])) then Some(p in after) else rest
  }

  /** Whatever the order of grants, revocations and recomputations, the parents are those about
      which it was last said that they are, or nothing was said. */
  lemma {:induction false} ParentsAfterEdits(r: Parents, edits: seq<Edit>, p: nat)
    ensures ApplyAll(r, edits).implicitOnes == LastResolved(r.implicitOnes, edits)
    ensures var said := LastSaid(r.implicitOnes, edits, p);
            p in ApplyAll(r, edits).all <==> if said.Some? then said.value else p in r.all
    decreases |edits|
  {
    if edits != [] {
      ParentsAfterEdits(r, edits[..|edits| - 1], p);
    }
  }

  /** A grant lasts, as long as it is not made again, exactly until it is revoked or the parent is
      implicit for a while. */
  lemma {:induction false} GrantsAfterEdits(r: Parents, edits: seq<Edit>, p: nat)
    requires Grant(p) !in edits
    ensures var end := ApplyAll(r, edits);
            p in Granted(end.all, end.implicitOnes) <==>
              && p in Granted(r.all, r.implicitOnes) && Revoke(p) !in edits
              && forall e <- edits :: e.Resolve? ==> p !in e.roles
    decreases |edits|
  {
    if edits != [] {
      var n := |edits| - 1;
      var front, last := edits[..n], edits[n];
      assert edits == front + [last];
      GrantsAfterEdits(r, front, p);
      assert forall e <- edits :: e in front || e == last;
      assert last in edits;
    }
  }

  // ----- The table of roles -----

  /** A role field of a model: its name and the paths its parents are found by. */
  datatype RoleField = RoleField(name: string, parentRoles: seq<string>)

  const SINGLETON: string := "singleton:"

  predicate NamesSingleton(path: string) {
    SINGLETON <= path
  }

  /** The parents a path stands for, once its singleton role exists. */
  function PathRoles(objects: Objects, singletons: map<string, nat>, instance: Ref, path: string): Option<set<nat>> {
    if NamesSingleton(path) then
      if path[10..] in singletons then Some({singletons[path[10..]]}) else Some({})
    else match ResolveRoleField(objects, instance, path)
         case Some(ids) => Some(Elements(ids))
         case None => None
  }

  /** The parents all paths stand for; None if one of them ends at something else. */
  function PathsRoles(objects: Objects, singletons: map<string, nat>, instance: Ref, paths: seq<string>): (r: Option<set<nat>>)
    ensures r.None? <==> exists i :: 0 <= i < |paths| && PathRoles(objects, singletons, instance, paths[i]).None?
    ensures r.Some? ==> forall p :: p in r.value <==>
              exists i :: 0 <= i < |paths| && PathRoles(objects, singletons, instance, paths[i]).Some?
                          && p in PathRoles(objects, singletons, instance, paths[i]).value
  {
    if paths == [] then Some({})
    else
      var n := |paths| - 1;
      var before, last := PathsRoles(objects, singletons, instance, paths[..n]), PathRoles(objects, singletons, instance, paths[n]);
      assert forall i :: 0 <= i < n ==> paths[..n][i] == paths[i];
      if before.Some? && last.Some? then Some(before.value + last.value) else None
  }

  /** Every singleton role the paths name exists. */
  predicate SingletonsExist(singletons: map<string, nat>, paths: seq<string>) {
    forall i :: 0 <= i < |paths| && NamesSingleton(paths[i]) ==> paths[i][10..] in singletons
  }

  lemma NoPaths(objects: Objects, singletons: map<string, nat>, instance: Ref)
    ensures PathsRoles(objects, singletons, instance, []) == Some({}) && SingletonsExist(singletons, [])
  {
  }

  lemma OnePathMore(objects: Objects, singletons: map<string, nat>, instance: Ref, paths: seq<string>, n: nat)
    requires n < |paths| && PathsRoles(objects, singletons, instance, paths[..n]).Some?
    requires PathRoles(objects, singletons, instance, paths[n]).Some?
    requires SingletonsExist(singletons, paths[..n]) && SingletonsExist(singletons, [paths[n]])
    ensures PathsRoles(objects, singletons, instance, paths[..n + 1]) ==
              Some(PathsRoles(objects, singletons, instance, paths[..n]).value + PathRoles(objects, singletons, instance, paths[n]).value)
    ensures SingletonsExist(singletons, paths[..n + 1])
  {
    assert paths[..n + 1][..n] == paths[..n];
    assert NamesSingleton([paths[n]][0]) ==> paths[n][10..] in singletons;
    assert paths[..n + 1] == paths[..n] + [paths[n]];
    AllSingletonsExist(singletons, paths[..n], [paths[n]]);
  }

  lemma AllSingletonsExist(singletons: map<string, nat>, a: seq<string>, b: seq<string>)
    requires SingletonsExist(singletons, a) && SingletonsExist(singletons, b)
    ensures SingletonsExist(singletons, a + b)
  {
  }

  predicate Extends(singletons: map<string, nat>, more: map<string, nat>) {
    forall name <- singletons :: name in more && more[name] == singletons[name]
  }

  lemma PathsRolesExtend(objects: Objects, singletons: map<string, nat>, more: map<string, nat>, instance: Ref, paths: seq<string>)
    requires SingletonsExist(singletons, paths) && Extends(singletons, more)
    ensures PathsRoles(objects, singletons, instance, paths) == PathsRoles(objects, more, instance, paths)
    ensures SingletonsExist(more, paths)
  {
    forall i | 0 <= i < |paths|
      ensures PathRoles(objects, singletons, instance, paths[i]) == PathRoles(objects, more, instance, paths[i])
    {
    }
    if paths != [] {
      var n := |paths| - 1;
      assert forall i :: 0 <= i < n ==> paths[..n][i] == paths[i];
      PathsRolesExtend(objects, singletons, more, instance, paths[..n]);
    }
  }

  /** Whether every path of every field can be resolved. */
  predicate Resolvable(objects: Objects, instance: Ref, path: string) {
    NamesSingleton(path) || ResolveRoleField(objects, instance, path).Some?
  }

  /** The role of a field of an instance. */
  predicate HasRole(objects: Objects, instance: Ref, name: string) {
    var attr := Get(objects, instance, name);
    attr.Is? && attr.ref.RoleRef?
  }

  function RoleOf(objects: Objects, instance: Ref, name: string): nat
    requires HasRole(objects, instance, name)
  {
    Get(objects, instance, name).ref.id
  }

  /** The parents of every role and the stored lists of implicit ones. */
  datatype Links = Links(parents: map<nat, set<nat>>, stored: map<nat, seq<nat>>) {
    predicate Has(role: nat) {
      role in parents && role in stored
    }

    predicate Agrees(other: Links, role: nat) {
      Has(role) && other.Has(role) && parents[role] == other.parents[role] && stored[role] == other.stored[role]
    }
  }

  /** From `was` to `now`, `role` got the implicit parents `resolved`. */
  predicate Became(was: Links, now: Links, role: nat, resolved: set<nat>) {
    && was.Has(role) && now.Has(role)
    && now.stored[role] == Sorted(resolved)
    && now.parents[role] == Updated(was.parents[role], Elements(was.stored[role]), resolved)
  }

  /** What recomputing the parents of one field comes to. */
  predicate Recomputed(objects: Objects, instance: Ref, field: RoleField, singletons: map<string, nat>, was: Links, now: Links,
                       added: set<nat>, removed: set<nat>)
    requires HasRole(objects, instance, field.name)
  {
    var role := RoleOf(objects, instance, field.name);
    var resolved := PathsRoles(objects, singletons, instance, field.parentRoles);
    && SingletonsExist(singletons, field.parentRoles)
    && resolved.Some? && Became(was, now, role, resolved.value)
    && (role in added <==> !(resolved.value <= Elements(was.stored[role])))
    && (role in removed <==> !(Elements(was.stored[role]) <= resolved.value))
  }

  lemma RecomputedStays(objects: Objects, instance: Ref, field: RoleField, singletons: map<string, nat>, more: map<string, nat>,
                        was: Links, now: Links, later: Links, added: set<nat>, removed: set<nat>, added': set<nat>, removed': set<nat>)
    requires HasRole(objects, instance, field.name)
    requires Recomputed(objects, instance, field, singletons, was, now, added, removed) && Extends(singletons, more)
    requires var role := RoleOf(objects, instance, field.name);
             now.Agrees(later, role) && (role in added <==> role in added') && (role in removed <==> role in removed')
    ensures Recomputed(objects, instance, field, more, was, later, added', removed')
  {
    hide Sorted, Elements, Updated, PathsRoles;
    PathsRolesExtend(objects, singletons, more, instance, field.parentRoles);
  }

  lemma RecomputedSince(objects: Objects, instance: Ref, field: RoleField, singletons: map<string, nat>,
                        start: Links, was: Links, now: Links, added: set<nat>, removed: set<nat>)
    requires HasRole(objects, instance, field.name) && start.Agrees(was, RoleOf(objects, instance, field.name))
    requires Recomputed(objects, instance, field, singletons, was, now, added, removed)
    ensures Recomputed(objects, instance, field, singletons, start, now, added, removed)
  {
    hide Sorted, Elements, Updated, PathsRoles;
  }

  // ----- Which roles a field makes parents -----

  /** The components of a path. */
  function Components(path: string): (components: seq<string>)
    ensures components != []
    decreases |path|
  {
    var d := Dot(path);
    if d == |path| then [path] else [path[..d]] + Components(path[d + 1..])
  }

  lemma {:induction false} Split(path: string)
    ensures Joined(Components(path)) == path
    ensures forall i :: 0 <= i < |Components(path)| ==> Plain(Components(path)[i])
    decreases |path|
  {
    var d := Dot(path);
    if d < |path| {
      Split(path[d + 1..]);
      assert path == path[..d] + "." + path[d + 1..];
      assert Components(path)[1..] == Components(path[d + 1..]);
    }
  }

  /** `p` is the singleton role a path names, or the role at which its components end. */
  ghost predicate Means(objects: Objects, singletons: map<string, nat>, instance: Ref, path: string, p: nat) {
    if "singleton:" <= path then exists name :: path == "singleton:" + name && (name, p) in singletons.Items
    else LeadsTo(objects, instance, Components(path), RoleRef(p))
  }

  ghost predicate MeansParent(objects: Objects, singletons: map<string, nat>, instance: Ref, field: RoleField, p: nat) {
    exists k :: 0 <= k < |field.parentRoles| && Means(objects, singletons, instance, field.parentRoles[k], p)
  }

  lemma PathMeans(objects: Objects, singletons: map<string, nat>, instance: Ref, path: string, p: nat)
    ensures var roles := PathRoles(objects, singletons, instance, path);
            && (roles.None? <==> !("singleton:" <= path) && exists o :: LeadsTo(objects, instance, Components(path), ObjRef(o)))
            && (roles.Some? ==> (p in roles.value <==> Means(objects, singletons, instance, path, p)))
  {
    hide ResolveRoleField, LeadsTo;
    if "singleton:" <= path {
      assert path == "singleton:" + path[10..];
      assert forall name :: path == "singleton:" + name ==> name == path[10..];
    } else {
      Split(path);
      ResolvesWhereItLeads(objects, instance, Components(path), p);
    }
  }

  /** The parents of a role field: a recomputation fails where some path ends at something that is no
      role, and otherwise stores exactly the roles the paths mean, in increasing order.  Of the other
      parents the role keeps those it did not store; of these it gains those it did not store. */
  lemma RecomputedIs(objects: Objects, instance: Ref, field: RoleField, singletons: map<string, nat>, was: Links, now: Links,
                     added: set<nat>, removed: set<nat>, role: nat, p: nat)
    requires Get(objects, instance, field.name) == Is(RoleRef(role))
    requires Recomputed(objects, instance, field, singletons, was, now, added, removed)
    ensures role in was.parents && role in was.stored && role in now.parents && role in now.stored
    ensures var parent := MeansParent(objects, singletons, instance, field, p);
            && (p in now.stored[role] <==> parent)
            && (p in now.parents[role] <==>
                  if p in was.stored[role] then parent && p in was.parents[role] else parent || p in was.parents[role])
            && (parent && p !in was.stored[role] ==> role in added)
            && (!parent && p in was.stored[role] ==> role in removed)
    ensures forall i, j :: 0 <= i < j < |now.stored[role]| ==> now.stored[role][i] < now.stored[role][j]
    ensures role in added ==> exists x <- now.stored[role] :: x !in was.stored[role]
    ensures role in removed ==> exists x <- was.stored[role] :: x !in now.stored[role]
  {
    hide Means, PathRoles, LeadsTo, Sorted;
    var resolved := PathsRoles(objects, singletons, instance, field.parentRoles).value;
    SortedHas(resolved);
    forall k | 0 <= k < |field.parentRoles|
      ensures PathRoles(objects, singletons, instance, field.parentRoles[k]).Some? ==>
                (p in PathRoles(objects, singletons, instance, field.parentRoles[k]).value
                 <==> Means(objects, singletons, instance, field.parentRoles[k], p))
    {
      PathMeans(objects, singletons, instance, field.parentRoles[k], p);
    }
  }

  /** A path can be resolved unless it leads to something that is no role. */
  lemma ResolvableIs(objects: Objects, instance: Ref, path: string)
    ensures Resolvable(objects, instance, path) <==>
              "singleton:" <= path || forall o :: !LeadsTo(objects, instance, Components(path), ObjRef(o))
  {
    hide LeadsTo;
    PathMeans(objects, map[], instance, path, 0);
  }

  class Roles {
    var parents: map<nat, set<nat>>
    var implicitParents: map<nat, seq<nat>>
    var singletons: map<string, nat>
    var nextId: nat

    ghost predicate Valid()
      reads this
    {
      && parents.Keys == implicitParents.Keys
      && (forall id <- parents :: id < nextId)
      && (forall name <- singletons :: singletons[name] in parents)
    }

    function Now(): Links
      reads this
    {
      Links(parents, implicitParents)
    }

    /** The roles that were there keep everything. */
    twostate predicate OnlyNewRoles()
      reads this
    {
      Extends(old(singletons), singletons) && forall id: nat :: old(Now()).Has(id) ==> old(Now()).Agrees(Now(), id)
    }

    method SingletonRole(name: string) returns (id: nat)
      requires Valid()
      modifies this
      ensures Valid() && OnlyNewRoles()
      ensures singletons == old(singletons)[name := id]
      ensures name in old(singletons) ==> id == old(singletons)[name] && Now() == old(Now())
      ensures name !in old(singletons) ==>
                id !in old(parents) && parents == old(parents)[id := {}] && implicitParents == old(implicitParents)[id := []]
    {
      if name in singletons {
        id := singletons[name];
      } else {
        id := nextId;
        nextId := nextId + 1;
        parents, implicitParents := parents[id := {}], implicitParents[id := []];
        singletons := singletons[name := id];
      }
    }

    method ResolvePath(objects: Objects, instance: Ref, path: string) returns (r: Option<set<nat>>)
      requires Valid()
      modifies this
      ensures Valid() && OnlyNewRoles()
      ensures r.Some? ==> SingletonsExist(singletons, [path]) && r == PathRoles(objects, singletons, instance, path)
      ensures r.Some? <==> Resolvable(objects, instance, path)
    {
      if NamesSingleton(path) {
        var id := SingletonRole(path[10..]);
        r := Some({id});
      } else {
        var ids := ResolveRoleField(objects, instance, path);
        r := if ids.Some? then Some(Elements(ids.value)) else None;
      }
    }

    /** The parents a field should have; None if a path ends at something that is no role. */
    method ResolveParentRoles(objects: Objects, instance: Ref, field: RoleField) returns (r: Option<set<nat>>)
      requires Valid()
      modifies this
      ensures Valid() && OnlyNewRoles()
      ensures r.Some? ==> SingletonsExist(singletons, field.parentRoles)
      ensures r.Some? ==> r == PathsRoles(objects, singletons, instance, field.parentRoles)
      ensures r.Some? <==> forall i :: 0 <= i < |field.parentRoles| ==> Resolvable(objects, instance, field.parentRoles[i])
    {
      hide Sorted, NamesSingleton, ResolveRoleField, PathsRoles, PathRoles, SingletonsExist, Resolvable;
      var paths := field.parentRoles;
      NoPaths(objects, singletons, instance);
      assert paths[..0] == [];
      var roles: set<nat> := {};
      for n := 0 to |paths|
        invariant Valid() && OnlyNewRoles() && SingletonsExist(singletons, paths[..n])
        invariant PathsRoles(objects, singletons, instance, paths[..n]) == Some(roles)
        invariant forall i :: 0 <= i < n ==> Resolvable(objects, instance, paths[i])
      {
        ghost var before := singletons;
        var found := this.ResolvePath(objects, instance, paths[n]);
        if found.None? {
          return None;
        }
        PathsRolesExtend(objects, before, singletons, instance, paths[..n]);
        OnePathMore(objects, singletons, instance, paths, n);
        roles := roles + found.value;
      }
      assert paths[..|paths|] == paths;
      r := Some(roles);
    }

    /** The new implicit parents of one role. */
    method UpdateRole(role: nat, resolved: set<nat>) returns (added: bool, removed: bool)
      requires Valid() && role in parents
      modifies this`parents, this`implicitParents
      ensures Valid()
      ensures Became(old(Now()), Now(), role, resolved)
      ensures forall id: nat :: id != role && old(Now()).Has(id) ==> old(Now()).Agrees(Now(), id)
      ensures added <==> !(resolved <= Elements(old(implicitParents)[role]))
      ensures removed <==> !(Elements(old(implicitParents)[role]) <= resolved)
    {
      hide Sorted, Elements, Updated;
      var original := Elements(implicitParents[role]);
      UpdatedInSteps(parents[role], original, resolved);
      var removals := original - resolved;
      removed := removals != {};
      if removed {
        parents := parents[role := parents[role] - removals];
      }
      var additions := resolved - original;
      added := additions != {};
      if added {
        parents := parents[role := parents[role] + additions];
      }
      if implicitParents[role] != Sorted(resolved) {
        implicitParents := implicitParents[role := Sorted(resolved)];
      }
    }

    method UpdateField(objects: Objects, instance: Ref, field: RoleField, added: set<nat>, removed: set<nat>)
      returns (ok: bool, added': set<nat>, removed': set<nat>)
      requires Valid() && HasRole(objects, instance, field.name)
      requires var role := RoleOf(objects, instance, field.name); Now().Has(role) && role !in added && role !in removed
      modifies this
      ensures Valid() && Extends(old(singletons), singletons) && old(parents).Keys <= parents.Keys
      ensures ok <==> forall k :: 0 <= k < |field.parentRoles| ==> Resolvable(objects, instance, field.parentRoles[k])
      ensures ok ==> Recomputed(objects, instance, field, singletons, old(Now()), Now(), added', removed')
      ensures forall id: nat :: id != RoleOf(objects, instance, field.name) && old(Now()).Has(id) ==>
                old(Now()).Agrees(Now(), id) && (id in added' <==> id in added) && (id in removed' <==> id in removed)
    {
      hide Sorted, Elements, Updated, SingletonsExist, Resolvable, PathsRoles;
      added', removed' := added, removed;
      var role := RoleOf(objects, instance, field.name);
      var resolved := ResolveParentRoles(objects, instance, field);
      ok := resolved.Some?;
      if ok {
        var more, less := UpdateRole(role, resolved.value);
        added' := if more then added + {role} else added;
        removed' := if less then removed + {role} else removed;
      }
      forall id | id in old(parents).Keys
        ensures id in parents.Keys
      {
        assert old(Now()).Has(id);
      }
    }

    /** Recomputes the parents of all roles of an instance and reports which of the roles
        gained or lost any.  Fails at a path that ends at something that is no role. */
    method UpdateRoleParentage(objects: Objects, instance: Ref, fields: seq<RoleField>)
      returns (ok: bool, added: set<nat>, removed: set<nat>)
      requires Valid()
      requires forall i :: 0 <= i < |fields| ==> HasRole(objects, instance, fields[i].name)
                                                        && Now().Has(RoleOf(objects, instance, fields[i].name))
      requires forall i, j :: 0 <= i < j < |fields| ==>
                 RoleOf(objects, instance, fields[i].name) != RoleOf(objects, instance, fields[j].name)
      modifies this
      ensures Valid()
      ensures ok <==> forall i, k :: 0 <= i < |fields| && 0 <= k < |fields[i].parentRoles| ==>
                        Resolvable(objects, instance, fields[i].parentRoles[k])
      ensures ok ==> forall i :: 0 <= i < |fields| ==>
                       Recomputed(objects, instance, fields[i], singletons, old(Now()), Now(), added, removed)
      ensures forall id: nat :: old(Now()).Has(id)
                                && (forall i :: 0 <= i < |fields| ==> id != RoleOf(objects, instance, fields[i].name)) ==>
                old(Now()).Agrees(Now(), id) && id !in added && id !in removed
    {
      hide Sorted, Elements, Updated, SingletonsExist, Resolvable, PathsRoles, Recomputed, HasRole, RoleOf;
      added, removed := {}, {};
      for n := 0 to |fields|
        invariant Valid() && Extends(old(singletons), singletons)
        invariant forall i, k :: 0 <= i < n && 0 <= k < |fields[i].parentRoles| ==> Resolvable(objects, instance, fields[i].parentRoles[k])
        invariant forall i :: 0 <= i < n ==> Recomputed(objects, instance, fields[i], singletons, old(Now()), Now(), added, removed)
        invariant old(parents).Keys <= parents.Keys
        invariant forall id: nat :: old(Now()).Has(id) && (forall i :: 0 <= i < n ==> id != RoleOf(objects, instance, fields[i].name)) ==>
                    old(Now()).Agrees(Now(), id) && id !in added && id !in removed
      {
        ghost var before, names, added0, removed0 := Now(), singletons, added, removed;
        ok, added, removed := UpdateField(objects, instance, fields[n], added, removed);
        if !ok {
          return;
        }
        RecomputedSince(objects, instance, fields[n], singletons, old(Now()), before, Now(), added, removed);
        forall i | 0 <= i < n
          ensures Recomputed(objects, instance, fields[i], singletons, old(Now()), Now(), added, removed)
        {
          RecomputedStays(objects, instance, fields[i], names, singletons, old(Now()), before, Now(), added0, removed0, added, removed);
        }
      }
      ok := true;
    }
  }

  /** Once a role stores what its field resolves to, recomputing it changes nothing and
      reports nothing, even if other singleton roles have been created meanwhile. */
  lemma SecondUpdateIsQuiet(objects: Objects, singletons: map<string, nat>, more: map<string, nat>, instance: Ref, field: RoleField,
                            parents: set<nat>, stored: seq<nat>)
    requires SingletonsExist(singletons, field.parentRoles) && Extends(singletons, more)
    requires PathsRoles(objects, singletons, instance, field.parentRoles).Some?
    requires stored == Sorted(PathsRoles(objects, singletons, instance, field.parentRoles).value)
    ensures var resolved := PathsRoles(objects, more, instance, field.parentRoles);
            && resolved.Some? && stored == Sorted(resolved.value)
            && resolved.value <= Elements(stored) <= resolved.value
            && Updated(parents, Elements(stored), resolved.value) == parents
  {
    PathsRolesExtend(objects, singletons, more, instance, field.parentRoles);
    ElementsOfSorted(PathsRoles(objects, singletons, instance, field.parentRoles).value);
  }
}
