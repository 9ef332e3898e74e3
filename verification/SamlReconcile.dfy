/**
 A SAML login computes which organization and team roles its user ought to have, from
 the attributes of the assertion and from two configured maps, creates what is missing
 and reconciles the user's roles (forail/sso/saml_pipeline.py:17-200;
 forail/sso/common.py:20-156).
 */
module SamlReconcile {

  import opened Options

  datatype Role = Admin | Member | Auditor

  // ----- Map expressions -----

  datatype User = User(username: string, email: string)

  /** A literal, or one of the given regular expressions. */
  datatype Test = Literal(text: string) | Pattern(id: nat)

  datatype Expression = Unset | Everyone | One(test: Test) | Many(tests: seq<Test>)

  /** Which regular expressions match which texts is given. */
  type Matches = set<(nat, string)>

  predicate Passes(user: User, test: Test, matches: Matches) {
    match test
    case Literal(text) => user.username == text || user.email == text
    case Pattern(id) => (id, user.username) in matches || (id, user.email) in matches
  }

  ghost predicate Grants(user: User, e: Expression, matches: Matches) {
    match e
    case Unset => false
    case Everyone => true
    case One(test) => test != Literal("") && Passes(user, test, matches)
    case Many(tests) => exists j :: 0 <= j < |tests| && Passes(user, tests[j], matches)
  }

  /** A test passes for the name or the mail address of the user. */
  predicate Hits(user: User, t: Test, matches: Matches, text: string) {
    text in {user.username, user.email} && (t == Literal(text) || (t.Pattern? && (t.id, text) in matches))
  }

  lemma GrantsIfHit(user: User, e: Expression, matches: Matches)
    ensures Grants(user, e, matches) <==>
              || e == Everyone
              || (e.One? && e != One(Literal("")) && exists text :: Hits(user, e.test, matches, text))
              || (e.Many? && exists j, text :: 0 <= j < |e.tests| && Hits(user, e.tests[j], matches, text))
  {
    forall t: Test
      ensures Passes(user, t, matches) <==> Hits(user, t, matches, user.username) || Hits(user, t, matches, user.email)
    {
    }
    if e.Many? && Grants(user, e, matches) {
      var j :| 0 <= j < |e.tests| && Passes(user, e.tests[j], matches);
      assert Hits(user, e.tests[j], matches, user.username) || Hits(user, e.tests[j], matches, user.email);
    }
  }

  /** True, False, or None: add the user, remove the user, leave the user alone. */
  type Verdict = Option<bool>

  ghost function Decide(user: User, e: Expression, remove: bool, matches: Matches): Verdict {
    if Grants(user, e, matches) then Some(true) else if remove then Some(false) else None
  }

  method UpdateM2mFromExpression(user: User, e: Expression, remove: bool, matches: Matches) returns (v: Verdict)
    ensures v == Decide(user, e, remove, matches)
    ensures v == Some(true) <==>
              || e == Everyone
              || (e.One? && e != One(Literal("")) && exists text :: Hits(user, e.test, matches, text))
              || (e.Many? && exists j, text :: 0 <= j < |e.tests| && Hits(user, e.tests[j], matches, text))
    ensures v != Some(true) ==> v == if remove then Some(false) else None
  {
    GrantsIfHit(user, e, matches);
    var shouldAdd := false;
    if e.Unset? || e == One(Literal("")) {
    } else if e.Everyone? {
      shouldAdd := true;
    } else {
      var tests := if e.One? then [e.test] else e.tests;
      for i := 0 to |tests|
        invariant shouldAdd <==> exists j :: 0 <= j < i && Passes(user, tests[j], matches)
      {
        if Passes(user, tests[i], matches) {
          shouldAdd := true;
        }
      }
      assert e.One? ==> tests[0] == e.test;
    }
    v := if shouldAdd then Some(true) else if remove then Some(false) else None;
  }

  // ----- Configuration -----

  datatype Rule = Rule(expression: Expression, remove: Option<bool>)

  datatype OrgEntry = OrgEntry(name: string, alias: Option<string>, remove: bool, admins: Rule, users: Rule, auditors: Rule) {
    /** The organization an entry of the map is about. */
    function Target(): string {
      if alias.Some? && alias.value != "" then alias.value else name
    }

    function RuleFor(r: Role): Rule {
      match r case Admin => admins case Member => users case Auditor => auditors
    }

    ghost function VerdictFor(user: User, r: Role, matches: Matches): Verdict {
      var rule := RuleFor(r);
      Decide(user, rule.expression, if rule.remove.Some? then rule.remove.value else remove, matches)
    }
  }

  /** For one role: whether the attribute mechanism starts by removing it everywhere, and
      the organizations the assertion names, if an attribute is configured. */
  datatype RoleAttribute = RoleAttribute(remove: bool, names: Option<seq<string>>)

  datatype OrgAttributes = OrgAttributes(member: RoleAttribute, admin: RoleAttribute, auditor: RoleAttribute) {
    function For(r: Role): RoleAttribute {
      match r case Admin => admin case Member => member case Auditor => auditor
    }
  }

  /** The organization a name in the assertion stands for: unlike in the map itself, an
      alias that is the empty string counts here. */
  function Resolve(orgMap: seq<OrgEntry>, name: string): string {
    if orgMap == [] then name
    else if orgMap[0].name == name then if orgMap[0].alias.Some? then orgMap[0].alias.value else name
    else Resolve(orgMap[1..], name)
  }

  function Resolved(orgMap: seq<OrgEntry>, names: seq<string>): set<string> {
    set n <- names :: Resolve(orgMap, n)
  }

  // ----- The folded organization state, declaratively -----

  type OrgState = map<(string, Role), Verdict>

  function Cell(s: OrgState, o: string, r: Role): Option<Verdict> {
    if (o, r) in s then Some(s[(o, r)]) else None
  }

  ghost predicate AttributeGrants(attributes: OrgAttributes, orgMap: seq<OrgEntry>, o: string, r: Role) {
    o in NamedBy(orgMap, attributes.For(r))
  }

  ghost predicate MapGrants(user: User, entries: seq<OrgEntry>, matches: Matches, o: string, r: Role) {
    exists e <- entries :: e.Target() == o && e.VerdictFor(user, r, matches) == Some(true)
  }

  /** The verdict of the last entry about `o`, if there is one. */
  ghost function LastVerdict(user: User, entries: seq<OrgEntry>, matches: Matches, o: string, r: Role): Option<Verdict>
    decreases |entries|
  {
    if entries == [] then None
    else
      var last := entries[|entries| - 1];
      if last.Target() == o then Some(last.VerdictFor(user, r, matches))
      else LastVerdict(user, entries[..|entries| - 1], matches, o, r)
  }

  /** Granted if anything grants it; otherwise what the last map entry says; otherwise the
      removal the attributes ask for. */
  ghost function Folded(user: User, attributes: OrgAttributes, orgMap: seq<OrgEntry>, entries: seq<OrgEntry>,
                        matches: Matches, orgs: set<string>, o: string, r: Role): Option<Verdict>
  {
    if AttributeGrants(attributes, orgMap, o, r) || MapGrants(user, entries, matches, o, r) then Some(Some(true))
    else if LastVerdict(user, entries, matches, o, r).Some? then LastVerdict(user, entries, matches, o, r)
    else if o in orgs && attributes.For(r).remove then Some(Some(false))
    else None
  }

  lemma FoldedSnoc(user: User, attributes: OrgAttributes, orgMap: seq<OrgEntry>, entries: seq<OrgEntry>, e: OrgEntry,
                   matches: Matches, orgs: set<string>, o: string, r: Role)
    ensures var before := Folded(user, attributes, orgMap, entries, matches, orgs, o, r);
            Folded(user, attributes, orgMap, entries + [e], matches, orgs, o, r)
            == if e.Target() != o || before == Some(Some(true)) then before else Some(e.VerdictFor(user, r, matches))
  {
    var all := entries + [e];
    assert all[..|all| - 1] == entries;
    assert forall x :: x in all <==> x in entries || x == e;
    LastIsGrant(user, entries, matches, o, r);
  }

  lemma {:induction false} LastIsGrant(user: User, entries: seq<OrgEntry>, matches: Matches, o: string, r: Role)
    ensures LastVerdict(user, entries, matches, o, r) == Some(Some(true)) ==> MapGrants(user, entries, matches, o, r)
    decreases |entries|
  {
    if entries != [] {
      var last := entries[|entries| - 1];
      if last.Target() != o {
        LastIsGrant(user, entries[..|entries| - 1], matches, o, r);
      }
    }
  }

  // ----- Filling the dictionaries -----

  function Fill(names: set<string>, r: Role, v: Verdict): OrgState {
    map o | o in names :: (o, r) := v
  }

  function Elements(list: seq<string>): set<string> {
    set x <- list
  }

  lemma FillOne(base: OrgState, names: set<string>, o: string, r: Role, v: Verdict)
    ensures (base + Fill(names, r, v))[(o, r) := v] == base + Fill(names + {o}, r, v)
  {
  }

  lemma FillCells(base: OrgState, names: set<string>, r: Role, v: Verdict)
    ensures forall o: string, q: Role :: Cell(base + Fill(names, r, v), o, q) == if q == r && o in names then Some(v) else Cell(base, o, q)
  {
  }

  lemma FillNone(base: OrgState, r: Role, v: Verdict)
    ensures base + Fill({}, r, v) == base
  {
  }

  lemma ResolvedSnoc(orgMap: seq<OrgEntry>, names: seq<string>, i: nat)
    requires i < |names|
    ensures Resolved(orgMap, names[..i + 1]) == Resolved(orgMap, names[..i]) + {Resolve(orgMap, names[i])}
  {
    assert names[..i + 1] == names[..i] + [names[i]];
  }

  function NamedBy(orgMap: seq<OrgEntry>, attribute: RoleAttribute): set<string> {
    if attribute.names.Some? then Resolved(orgMap, attribute.names.value) else {}
  }

  function AttributeOrgs(attributes: OrgAttributes, orgMap: seq<OrgEntry>): set<string> {
    NamedBy(orgMap, attributes.member) + NamedBy(orgMap, attributes.admin) + NamedBy(orgMap, attributes.auditor)
  }

  function Targets(entries: seq<OrgEntry>): set<string> {
    set e <- entries :: e.Target()
  }

  lemma TargetsNone(entries: seq<OrgEntry>)
    ensures Targets(entries[..0]) == {}
  {
  }

  lemma TargetsSnoc(entries: seq<OrgEntry>, i: nat)
    requires i < |entries|
    ensures Targets(entries[..i + 1]) == Targets(entries[..i]) + {entries[i].Target()}
  {
    assert entries[..i + 1] == entries[..i] + [entries[i]];
  }

  /** `current or verdict`: what is True stays True. */
  function Combine(current: Option<Verdict>, verdict: Verdict): Verdict {
    if current == Some(Some(true)) then Some(true) else verdict
  }

  lemma NothingYet()
    ensures Elements([]) == {} && forall o: string, r: Role :: Cell(map[], o, r) == None
  {
  }

  /** Without entries the attributes decide. */
  lemma FoldedNone(user: User, attributes: OrgAttributes, orgMap: seq<OrgEntry>, matches: Matches, orgs: set<string>, o: string, r: Role)
    ensures Folded(user, attributes, orgMap, [], matches, orgs, o, r)
            == if o in NamedBy(orgMap, attributes.For(r)) then Some(Some(true))
               else if attributes.For(r).remove && o in orgs then Some(Some(false)) else None
  {
  }

  class Desired {
    var orgs: OrgState
    var orgsToCreate: seq<string>

    constructor ()
      ensures orgs == map[] && orgsToCreate == []
    {
      orgs, orgsToCreate := map[], [];
    }

    method RemoveEverywhere(existing: set<string>, r: Role)
      modifies this`orgs
      ensures orgs == old(orgs) + Fill(existing, r, Some(false))
    {
      hide Fill;
      var todo := existing;
      FillNone(orgs, r, Some(false));
      assert existing - todo == {};
      while todo != {}
        invariant todo <= existing
        invariant orgs == old(orgs) + Fill(existing - todo, r, Some(false))
        decreases |todo|
      {
        var o :| o in todo;
        FillOne(old(orgs), existing - todo, o, r, Some(false));
        orgs := orgs[(o, r) := Some(false)];
        assert existing - (todo - {o}) == (existing - todo) + {o};
        todo := todo - {o};
      }
      assert existing - todo == existing;
    }

    method NoteOrg(o: string)
      modifies this`orgsToCreate
      ensures Elements(orgsToCreate) == Elements(old(orgsToCreate)) + {o}
    {
      if o !in orgsToCreate {
        orgsToCreate := orgsToCreate + [o];
      }
    }

    method AddByAttribute(orgMap: seq<OrgEntry>, names: seq<string>, r: Role)
      modifies this
      ensures orgs == old(orgs) + Fill(Resolved(orgMap, names), r, Some(true))
      ensures Elements(orgsToCreate) == Elements(old(orgsToCreate)) + Resolved(orgMap, names)
    {
      assert Resolved(orgMap, names[..0]) == {};
      hide Fill, Resolved, Resolve, Elements;
      FillNone(orgs, r, Some(true));
      for i := 0 to |names|
        invariant orgs == old(orgs) + Fill(Resolved(orgMap, names[..i]), r, Some(true))
        invariant Elements(orgsToCreate) == Elements(old(orgsToCreate)) + Resolved(orgMap, names[..i])
      {
        var o := Resolve(orgMap, names[i]);
        ResolvedSnoc(orgMap, names, i);
        FillOne(old(orgs), Resolved(orgMap, names[..i]), o, r, Some(true));
        NoteOrg(o);
        orgs := orgs[(o, r) := Some(true)];
      }
      assert names[..|names|] == names;
    }

    method ClearRole(existing: set<string>, r: Role, attribute: RoleAttribute)
      modifies this`orgs
      ensures forall o: string, q: Role :: Cell(orgs, o, q) ==
                if q == r && attribute.remove && o in existing then Some(Some(false)) else Cell(old(orgs), o, q)
    {
      hide Fill, Cell;
      FillCells(orgs, existing, r, Some(false));
      if attribute.remove {
        RemoveEverywhere(existing, r);
      }
    }

    method AddRole(orgMap: seq<OrgEntry>, r: Role, attribute: RoleAttribute)
      modifies this
      ensures forall o: string, q: Role :: Cell(orgs, o, q) ==
                if q == r && o in NamedBy(orgMap, attribute) then Some(Some(true)) else Cell(old(orgs), o, q)
      ensures Elements(orgsToCreate) == Elements(old(orgsToCreate)) + NamedBy(orgMap, attribute)
    {
      hide Fill, Cell, Elements, Resolved;
      if attribute.names.Some? {
        FillCells(orgs, Resolved(orgMap, attribute.names.value), r, Some(true));
        AddByAttribute(orgMap, attribute.names.value, r);
      }
    }

    /** What the attributes say: first the removals of every role, then the additions. */
    method UpdateUserOrgsBySamlAttr(user: User, orgMap: seq<OrgEntry>, attributes: OrgAttributes, matches: Matches, existing: set<string>)
      requires orgs == map[] && orgsToCreate == []
      modifies this
      ensures forall o: string, r: Role :: Cell(orgs, o, r) == Folded(user, attributes, orgMap, [], matches, existing, o, r)
      ensures Elements(orgsToCreate) == AttributeOrgs(attributes, orgMap)
    {
      hide Resolved, NamedBy, Cell, Folded, Elements;
      NothingYet();
      ClearRole(existing, Member, attributes.member);
      ClearRole(existing, Admin, attributes.admin);
      ClearRole(existing, Auditor, attributes.auditor);
      AddRole(orgMap, Member, attributes.member);
      AddRole(orgMap, Admin, attributes.admin);
      AddRole(orgMap, Auditor, attributes.auditor);
      forall o: string, r: Role
        ensures Cell(orgs, o, r) == Folded(user, attributes, orgMap, [], matches, existing, o, r)
      {
        FoldedNone(user, attributes, orgMap, matches, existing, o, r);
      }
    }

    /** One role of one entry of the map. */
    method ApplyRule(user: User, e: OrgEntry, r: Role, matches: Matches)
      modifies this`orgs
      ensures forall o: string, q: Role :: Cell(orgs, o, q) ==
                if q == r && o == e.Target() then Some(Combine(Cell(old(orgs), o, q), e.VerdictFor(user, q, matches)))
                else Cell(old(orgs), o, q)
    {
      var rule := e.RuleFor(r);
      var has := UpdateM2mFromExpression(user, rule.expression, if rule.remove.Some? then rule.remove.value else e.remove, matches);
      var o := e.Target();
      var now := if (o, r) in orgs && orgs[(o, r)] == Some(true) then Some(true) else has;
      orgs := orgs[(o, r) := now];
    }

    /** The map, entry by entry. */
    method UpdateUserOrgs(user: User, orgMap: seq<OrgEntry>, entries: seq<OrgEntry>, attributes: OrgAttributes,
                          matches: Matches, ghost existing: set<string>)
      requires forall o: string, r: Role :: Cell(orgs, o, r) == Folded(user, attributes, orgMap, [], matches, existing, o, r)
      modifies this
      ensures forall o: string, r: Role :: Cell(orgs, o, r) == Folded(user, attributes, orgMap, entries, matches, existing, o, r)
      ensures Elements(orgsToCreate) == Elements(old(orgsToCreate)) + Targets(entries)
    {
      hide Decide, AttributeGrants, MapGrants, LastVerdict, Elements, Cell, Folded;
      TargetsNone(entries);
      assert entries[..0] == [];
      for i := 0 to |entries|
        invariant forall o: string, r: Role :: Cell(orgs, o, r) == Folded(user, attributes, orgMap, entries[..i], matches, existing, o, r)
        invariant Elements(orgsToCreate) == Elements(old(orgsToCreate)) + Targets(entries[..i])
      {
        var e := entries[i];
        ghost var before := orgs;
        NoteOrg(e.Target());
        TargetsSnoc(entries, i);
        ApplyRule(user, e, Admin, matches);
        ApplyRule(user, e, Member, matches);
        ApplyRule(user, e, Auditor, matches);
        assert entries[..i + 1] == entries[..i] + [e];
        forall o: string, r: Role
          ensures Cell(orgs, o, r) == Folded(user, attributes, orgMap, entries[..i + 1], matches, existing, o, r)
        {
          FoldedSnoc(user, attributes, orgMap, entries[..i], e, matches, existing, o, r);
          assert Cell(orgs, o, r) == if o == e.Target() then Some(Combine(Cell(before, o, r), e.VerdictFor(user, r, matches)))
                                     else Cell(before, o, r);
        }
      }
      assert entries[..|entries|] == entries;
    }
  }

  // ----- Teams: the last write about a team wins -----

  type TeamKey = (Option<string>, string)
  type Write = Option<(TeamKey, bool)>

  /** A line of the attribute mapping. */
  datatype TeamLink = TeamLink(team: string, alias: Option<string>, organization: Option<string>) {
    predicate NoOrganization() {
      organization.None? || organization.value == ""
    }

    function Name(): string {
      if alias.Some? && alias.value != "" then alias.value else team
    }

    /** Only a team the assertion names goes by its alias. */
    function WriteFor(named: set<string>): Write {
      if team !in named then Some(((organization, team), false))
      else if NoOrganization() then None
      else Some(((organization, Name()), true))
    }

    function CreateFor(named: set<string>): Option<(string, string)> {
      if team in named && !NoOrganization() then Some((Name(), organization.value)) else None
    }
  }

  datatype TeamAttributes = TeamAttributes(remove: bool, named: set<string>, links: seq<TeamLink>)

  datatype TeamEntry = TeamEntry(name: string, organization: Option<string>, users: Expression, remove: bool) {
    ghost function WriteFor(user: User, matches: Matches): Write {
      if organization.None? then None
      else match Decide(user, users, remove, matches)
           case None => None
           case Some(b) => Some(((organization, name), b))
    }

    function CreateFor(): Option<(string, string)> {
      if organization.None? then None else Some((name, organization.value))
    }
  }

  /** What the last write about `k` says. */
  ghost function LastWrite(writes: seq<Write>, k: TeamKey): Option<bool>
    decreases |writes|
  {
    if writes == [] then None
    else
      var last := writes[|writes| - 1];
      if last.Some? && last.value.0 == k then Some(last.value.1) else LastWrite(writes[..|writes| - 1], k)
  }

  predicate About(w: Write, k: TeamKey) {
    w.Some? && w.value.0 == k
  }

  /** Nothing is written about `k`. */
  ghost predicate Silent(writes: seq<Write>, k: TeamKey) {
    forall i :: 0 <= i < |writes| ==> !About(writes[i], k)
  }

  /** Something is written about `k`, and in the end it is `b`. */
  ghost predicate EndsWith(writes: seq<Write>, k: TeamKey, b: bool) {
    exists i :: 0 <= i < |writes| && writes[i] == Some((k, b)) && forall j :: i < j < |writes| ==> !About(writes[j], k)
  }

  lemma {:induction false} LastWriteIs(writes: seq<Write>, k: TeamKey)
    ensures LastWrite(writes, k).None? <==> Silent(writes, k)
    ensures forall b :: LastWrite(writes, k) == Some(b) <==> EndsWith(writes, k, b)
    decreases |writes|
  {
    if writes != [] {
      var front, last := writes[..|writes| - 1], writes[|writes| - 1];
      LastWriteIs(front, k);
      assert writes == front + [last];
      forall b
        ensures EndsWith(writes, k, b) <==> if About(last, k) then b == last.value.1 else EndsWith(front, k, b)
      {
        EndsWithSnoc(front, last, k, b);
      }
    }
  }

  lemma EndsWithSnoc(front: seq<Write>, last: Write, k: TeamKey, b: bool)
    ensures EndsWith(front + [last], k, b) <==> if About(last, k) then b == last.value.1 else EndsWith(front, k, b)
  {
    var writes, n := front + [last], |front|;
    assert writes[n] == last && forall j :: 0 <= j < n ==> writes[j] == front[j];
    if About(last, k) {
      if EndsWith(writes, k, b) {
        var i :| 0 <= i <= n && writes[i] == Some((k, b)) && forall j :: i < j <= n ==> !About(writes[j], k);
        assert i == n;
      }
      assert b == last.value.1 ==> writes[n] == Some((k, b));
    } else {
      if EndsWith(writes, k, b) {
        var i :| 0 <= i <= n && writes[i] == Some((k, b)) && forall j :: i < j <= n ==> !About(writes[j], k);
        assert front[i] == Some((k, b));
      }
      if EndsWith(front, k, b) {
        var i :| 0 <= i < n && front[i] == Some((k, b)) && forall j :: i < j < n ==> !About(front[j], k);
        assert writes[i] == Some((k, b));
      }
    }
  }

  ghost function Lookup(teams: map<TeamKey, bool>, k: TeamKey): Option<bool> {
    if k in teams then Some(teams[k]) else None
  }

  /** The state of a dictionary after `writes`. */
  ghost predicate Written(before: map<TeamKey, bool>, writes: seq<Write>, after: map<TeamKey, bool>) {
    forall k: TeamKey :: Lookup(after, k) == if LastWrite(writes, k).Some? then LastWrite(writes, k) else Lookup(before, k)
  }

  lemma WrittenSnoc(before: map<TeamKey, bool>, writes: seq<Write>, now: map<TeamKey, bool>, w: Write, after: map<TeamKey, bool>)
    requires Written(before, writes, now)
    requires after == if w.Some? then now[w.value.0 := w.value.1] else now
    ensures Written(before, writes + [w], after)
  {
    forall k: TeamKey
      ensures Lookup(after, k) == if LastWrite(writes + [w], k).Some? then LastWrite(writes + [w], k) else Lookup(before, k)
    {
      assert (writes + [w])[..|writes + [w]| - 1] == writes;
      assert Lookup(now, k) == if LastWrite(writes, k).Some? then LastWrite(writes, k) else Lookup(before, k);
    }
  }

  ghost function LinesWrite(links: seq<TeamLink>, named: set<string>): seq<Write> {
    seq(|links|, i requires 0 <= i < |links| => links[i].WriteFor(named))
  }

  ghost function EntryWrites(user: User, entries: seq<TeamEntry>, matches: Matches): seq<Write> {
    seq(|entries|, i requires 0 <= i < |entries| => entries[i].WriteFor(user, matches))
  }

  /** Team names with the organization they are to be created in; later lines win. */
  function Assign(before: map<string, string>, lines: seq<Option<(string, string)>>): map<string, string>
    decreases |lines|
  {
    if lines == [] then before
    else
      var last := lines[|lines| - 1];
      var rest := Assign(before, lines[..|lines| - 1]);
      if last.Some? then rest[last.value.0 := last.value.1] else rest
  }

  function LinkLines(links: seq<TeamLink>, named: set<string>): seq<Option<(string, string)>> {
    seq(|links|, i requires 0 <= i < |links| => links[i].CreateFor(named))
  }

  function EntryLines(entries: seq<TeamEntry>): seq<Option<(string, string)>> {
    seq(|entries|, i requires 0 <= i < |entries| => entries[i].CreateFor())
  }

  function FalseFor(existing: set<(string, string)>): map<TeamKey, bool> {
    map t | t in existing :: (Some(t.0), t.1) := false
  }

  lemma FalseForOne(done: set<(string, string)>, t: (string, string))
    ensures FalseFor(done)[(Some(t.0), t.1) := false] == FalseFor(done + {t})
  {
  }

  class DesiredTeams {
    var teams: map<TeamKey, bool>
    var toCreate: map<string, string>

    constructor ()
      ensures teams == map[] && toCreate == map[]
    {
      teams, toCreate := map[], map[];
    }

    method RemoveEverywhere(existing: set<(string, string)>)
      requires teams == map[]
      modifies this`teams
      ensures teams == FalseFor(existing)
    {
      hide FalseFor;
      var todo := existing;
      assert existing - todo == {} && FalseFor({}) == map[] by { FalseForNone(); }
      while todo != {}
        invariant todo <= existing
        invariant teams == FalseFor(existing - todo)
        decreases |todo|
      {
        var t :| t in todo;
        FalseForOne(existing - todo, t);
        teams := teams[(Some(t.0), t.1) := false];
        assert existing - (todo - {t}) == (existing - todo) + {t};
        todo := todo - {t};
      }
      assert existing - todo == existing;
    }

    /** What the attributes say about teams, if an attribute is configured at all. */
    method UpdateUserTeamsBySamlAttr(attributes: TeamAttributes, existing: set<(string, string)>)
      requires teams == map[] && toCreate == map[]
      modifies this
      ensures Written(if attributes.remove then FalseFor(existing) else map[], LinesWrite(attributes.links, attributes.named), teams)
      ensures toCreate == Assign(map[], LinkLines(attributes.links, attributes.named))
    {
      hide FalseFor;
      if attributes.remove {
        RemoveEverywhere(existing);
      }
      ghost var base := teams;
      ghost var writes, lines := LinesWrite(attributes.links, attributes.named), LinkLines(attributes.links, attributes.named);
      for i := 0 to |attributes.links|
        invariant Written(base, writes[..i], teams)
        invariant toCreate == Assign(map[], lines[..i])
      {
        var link := attributes.links[i];
        ghost var before := teams;
        if link.team in attributes.named {
          if !link.NoOrganization() {
            toCreate := toCreate[link.Name() := link.organization.value];
            teams := teams[(link.organization, link.Name()) := true];
          }
        } else {
          teams := teams[(link.organization, link.team) := false];
        }
        WrittenSnoc(base, writes[..i], before, writes[i], teams);
        assert writes[..i + 1] == writes[..i] + [writes[i]];
        assert lines[..i + 1][..i] == lines[..i];
      }
      assert writes[..|writes|] == writes && lines[..|lines|] == lines;
    }

    /** The team map, entry by entry; entries without an organization are skipped. */
    method UpdateUserTeams(user: User, entries: seq<TeamEntry>, matches: Matches)
      modifies this
      ensures Written(old(teams), EntryWrites(user, entries, matches), teams)
      ensures toCreate == Assign(old(toCreate), EntryLines(entries))
    {
      hide Decide;
      ghost var writes, lines := EntryWrites(user, entries, matches), EntryLines(entries);
      for i := 0 to |entries|
        invariant Written(old(teams), writes[..i], teams)
        invariant toCreate == Assign(old(toCreate), lines[..i])
      {
        var e := entries[i];
        ghost var before := teams;
        if e.organization.Some? {
          toCreate := toCreate[e.name := e.organization.value];
          var verdict := UpdateM2mFromExpression(user, e.users, e.remove, matches);
          if verdict.Some? {
            teams := teams[(e.organization, e.name) := verdict.value];
          }
        }
        WrittenSnoc(old(teams), writes[..i], before, writes[i], teams);
        assert writes[..i + 1] == writes[..i] + [writes[i]];
        assert lines[..i + 1][..i] == lines[..i];
      }
      assert writes[..|writes|] == writes && lines[..|lines|] == lines;
    }
  }

  lemma FalseForNone()
    ensures FalseFor({}) == map[]
  {
  }

  lemma FalseForLookup(existing: set<(string, string)>, o: string, t: string)
    ensures Lookup(FalseFor(existing), (Some(o), t)) == if (o, t) in existing then Some(false) else None
  {
  }

  // ----- The directory -----

  /** A role a user can hold; roles of anything but organizations and teams are `Other`. */
  datatype RoleKey = OrgRole(org: string, role: Role) | TeamMember(org: string, team: string) | Other(id: nat)

  datatype Db = Db(orgs: set<string>, teams: set<(string, string)>, roles: set<RoleKey>) {
    predicate Exists(k: RoleKey) {
      match k case OrgRole(o, _) => o in orgs case TeamMember(o, t) => (o, t) in teams case Other(_) => true
    }

    /** A user holds roles of existing objects only. */
    ghost predicate Valid() {
      forall k <- roles :: Exists(k)
    }
  }

  /** What the desired states say about one role; `undefined` are roles that an existing
      object lacks. */
  ghost function Wish(orgs: OrgState, teams: map<TeamKey, bool>, undefined: set<RoleKey>, k: RoleKey): Option<bool> {
    if k in undefined then None
    else match k
         case OrgRole(o, r) => (match Cell(orgs, o, r) case Some(v) => v case None => None)
         case TeamMember(o, t) => Lookup(teams, (Some(o), t))
         case Other(_) => None
  }

  ghost predicate Settled(before: Db, roles: set<RoleKey>, orgs: OrgState, teams: map<TeamKey, bool>, undefined: set<RoleKey>) {
    forall k: RoleKey :: k in roles <==>
      if before.Exists(k) && Wish(orgs, teams, undefined, k).Some? then Wish(orgs, teams, undefined, k).value else k in before.roles
  }

  function OrgsToAdd(wanted: set<string>, teams: map<string, string>): set<string> {
    (set o <- wanted | o != "") + (set t <- teams | teams[t] != "" :: teams[t])
  }

  function TeamsToAdd(existing: set<(string, string)>, teams: map<string, string>): set<(string, string)> {
    var names := set e <- existing :: e.1;
    set t <- teams | teams[t] != "" && t !in names :: (teams[t], t)
  }

  function NewTeams(all: set<string>, names: set<string>, teams: map<string, string>): set<(string, string)>
    requires all <= teams.Keys
  {
    set t <- all | t !in names :: (teams[t], t)
  }

  lemma NewTeamsNone(names: set<string>, teams: map<string, string>)
    ensures NewTeams({}, names, teams) == {}
  {
  }

  lemma NewTeamsOne(done: set<string>, t: string, names: set<string>, teams: map<string, string>)
    requires done <= teams.Keys && t in teams
    ensures NewTeams(done + {t}, names, teams) == NewTeams(done, names, teams) + if t in names then {} else {(teams[t], t)}
  {
  }

  lemma AddedOne(base: set<(string, string)>, done: set<string>, t: string, names: set<string>, teams: map<string, string>)
    requires done <= teams.Keys && t in teams
    ensures base + NewTeams(done + {t}, names, teams)
         == if t in names then base + NewTeams(done, names, teams) else base + NewTeams(done, names, teams) + {(teams[t], t)}
  {
    hide NewTeams;
    NewTeamsOne(done, t, names, teams);
  }

  lemma NewTeamsAll(all: set<string>, names: set<string>, teams: map<string, string>, existing: set<(string, string)>)
    requires all == (set t <- teams | teams[t] != "") && names == set e <- existing :: e.1
    ensures TeamsToAdd(existing, teams) == NewTeams(all, names, teams)
  {
  }

  lemma NoRowNoWish(desired: OrgState, undefined: set<RoleKey>, k: RoleKey)
    requires k.OrgRole? && k.org !in set c <- desired :: c.0
    ensures Wish(desired, map[], undefined, k).None?
  {
  }

  class Directory {
    var orgs: set<string>
    var teams: set<(string, string)>
    var roles: set<RoleKey>
    const undefined: set<RoleKey>

    constructor (db: Db, undefined: set<RoleKey>)
      ensures Contents() == db && this.undefined == undefined
    {
      orgs, teams, roles := db.orgs, db.teams, db.roles;
      this.undefined := undefined;
    }

    function Contents(): Db
      reads this
    {
      Db(orgs, teams, roles)
    }

    /** Missing organizations first, then the teams whose name no existing team has. */
    method CreateOrgAndTeams(orgList: seq<string>, teamMap: map<string, string>, canCreate: bool)
      modifies this`orgs, this`teams
      ensures orgs == if canCreate then old(orgs) + OrgsToAdd(Elements(orgList), teamMap) else old(orgs)
      ensures teams == if canCreate then old(teams) + TeamsToAdd(old(teams), teamMap) else old(teams)
    {
      if !canCreate {
        return;
      }
      var allTeams := set t <- teamMap | teamMap[t] != "";
      var allOrgs := Elements(orgList) + (set t <- allTeams :: teamMap[t]);
      CreateOrgs(allOrgs);
      assert orgs == old(orgs) + OrgsToAdd(Elements(orgList), teamMap);
      CreateTeams(allTeams, teamMap);
    }

    method CreateOrgs(all: set<string>)
      modifies this`orgs
      ensures orgs == old(orgs) + set o <- all | o != ""
    {
      var todo := all;
      while todo != {}
        invariant todo <= all
        invariant orgs == old(orgs) + set o <- all - todo | o != ""
        decreases |todo|
      {
        var o :| o in todo;
        if o != "" && o !in orgs {
          orgs := orgs + {o};
        }
        todo := todo - {o};
      }
    }

    method CreateTeams(all: set<string>, teamMap: map<string, string>)
      requires all == set t <- teamMap | teamMap[t] != ""
      modifies this`teams
      ensures teams == old(teams) + TeamsToAdd(old(teams), teamMap)
    {
      var names := set e <- teams :: e.1;
      NewTeamsAll(all, names, teamMap, teams);
      CreateUnlessNamed(all, names, teamMap);
    }

    method CreateUnlessNamed(all: set<string>, names: set<string>, teamMap: map<string, string>)
      requires all <= teamMap.Keys
      modifies this`teams
      ensures teams == old(teams) + NewTeams(all, names, teamMap)
    {
      hide NewTeams;
      NewTeamsNone(names, teamMap);
      var todo := all;
      ghost var done: set<string> := {};
      while todo != {}
        invariant todo <= all && done == all - todo
        invariant teams == old(teams) + NewTeams(done, names, teamMap)
        decreases |todo|
      {
        var t :| t in todo;
        AddedOne(old(teams), done, t, names, teamMap);
        if t !in names {
          teams := teams + {(teamMap[t], t)};
        }
        done := done + {t};
        todo := todo - {t};
      }
      assert done == all;
    }

    /** One role of one row: bring the user's membership to the desired state. */
    method SetRole(k: RoleKey, desired: bool, held: set<RoleKey>)
      requires k in held <==> k in roles
      modifies this`roles
      ensures roles == if k in undefined then old(roles) else if desired then old(roles) + {k} else old(roles) - {k}
    {
      if k in undefined {
        return;
      }
      if desired {
        if k !in held {
          roles := roles + {k};
        }
      } else if k in held {
        roles := roles - {k};
      }
    }

    method ReconcileOrg(o: string, managed: set<Role>, desired: OrgState, held: set<RoleKey>)
      requires forall r <- managed :: OrgRole(o, r) in held <==> OrgRole(o, r) in roles
      requires forall k <- desired :: desired[k].Some? ==> k.1 in managed
      modifies this`roles
      ensures forall k: RoleKey :: k in roles <==>
                if k.OrgRole? && k.org == o && Wish(desired, map[], undefined, k).Some?
                then Wish(desired, map[], undefined, k).value else k in old(roles)
    {
      var todo := managed;
      while todo != {}
        invariant todo <= managed
        invariant forall k: RoleKey :: k in roles <==>
                    if k.OrgRole? && k.org == o && k.role !in todo && Wish(desired, map[], undefined, k).Some?
                    then Wish(desired, map[], undefined, k).value else k in old(roles)
        decreases |todo|
      {
        var r :| r in todo;
        if (o, r) in desired && desired[(o, r)].Some? {
          SetRole(OrgRole(o, r), desired[(o, r)].value, held);
        }
        todo := todo - {r};
      }
    }

    method ReconcileOrgs(desired: OrgState, held: set<RoleKey>)
      requires forall k: RoleKey :: k.OrgRole? ==> (k in held <==> k in roles)
      modifies this`roles
      ensures forall k: RoleKey :: k in roles <==>
                if k.OrgRole? && k.org in orgs && Wish(desired, map[], undefined, k).Some?
                then Wish(desired, map[], undefined, k).value else k in old(roles)
    {
      hide Wish;
      var managed := set k <- desired | desired[k].Some? :: k.1;
      forall k <- desired | desired[k].Some?
        ensures k.1 in managed
      {
      }
      var rows := set k <- desired | k.0 in orgs :: k.0;
      var todo := rows;
      while todo != {}
        invariant todo <= rows
        invariant forall k: RoleKey :: k in roles <==>
                    if k.OrgRole? && k.org in rows - todo && Wish(desired, map[], undefined, k).Some?
                    then Wish(desired, map[], undefined, k).value else k in old(roles)
        decreases |todo|
      {
        var o :| o in todo;
        ReconcileOrg(o, managed, desired, held);
        todo := todo - {o};
      }
      forall k: RoleKey | k.OrgRole? && k.org in orgs && k.org !in rows
        ensures Wish(desired, map[], undefined, k).None?
      {
        NoRowNoWish(desired, undefined, k);
      }
    }

    /** Teams are looked up by name alone, so the rows include teams of other
        organizations; they have no desired state. */
    method ReconcileTeams(desired: map<TeamKey, bool>, held: set<RoleKey>)
      requires forall k: RoleKey :: k.TeamMember? ==> (k in held <==> k in roles)
      modifies this`roles
      ensures forall k: RoleKey :: k in roles <==>
                if k.TeamMember? && (k.org, k.team) in teams && Wish(map[], desired, undefined, k).Some?
                then Wish(map[], desired, undefined, k).value else k in old(roles)
    {
      var names := set k <- desired :: k.1;
      var rows := set t <- teams | t.1 in names;
      var todo := rows;
      while todo != {}
        invariant todo <= rows
        invariant forall k: RoleKey :: k in roles <==>
                    if k.TeamMember? && (k.org, k.team) in rows - todo && Wish(map[], desired, undefined, k).Some?
                    then Wish(map[], desired, undefined, k).value else k in old(roles)
        decreases |todo|
      {
        var t :| t in todo;
        var key: TeamKey := (Some(t.0), t.1);
        if key in desired {
          SetRole(TeamMember(t.0, t.1), desired[key], held);
        }
        todo := todo - {t};
      }
      forall k: RoleKey | k.TeamMember? && (k.org, k.team) in teams && (k.org, k.team) !in rows
        ensures Wish(map[], desired, undefined, k).None?
      {
        var key: TeamKey := (Some(k.org), k.team);
        assert key in desired ==> key.1 in names;
      }
    }

    method ReconcileUsersOrgTeamMappings(desiredOrgs: OrgState, desiredTeams: map<TeamKey, bool>)
      modifies this`roles
      ensures Settled(old(Contents()), roles, desiredOrgs, desiredTeams, undefined)
    {
      ghost var before := Contents();
      var held := set k <- roles | (desiredOrgs != map[] && k.OrgRole?) || (desiredTeams != map[] && k.TeamMember?);
      if desiredOrgs != map[] {
        ReconcileOrgs(desiredOrgs, held);
      }
      ghost var between := roles;
      assert forall k: RoleKey :: k in between <==>
               if k.OrgRole? && k.org in orgs && Wish(desiredOrgs, map[], undefined, k).Some?
               then Wish(desiredOrgs, map[], undefined, k).value else k in before.roles;
      if desiredTeams != map[] {
        ReconcileTeams(desiredTeams, held);
      }
    }

    /** The whole pipeline step. */
    method PopulateUser(user: Option<User>, cfg: Config)
      requires cfg.undefined == undefined
      modifies this
      ensures user.None? ==> Contents() == old(Contents())
      ensures user.Some? ==> LoggedIn(user.value, cfg, old(Contents()), Contents())
    {
      if user.None? {
        return;
      }
      ghost var before := Contents();
      var desired := new Desired();
      var desiredTeams := new DesiredTeams();
      desired.UpdateUserOrgsBySamlAttr(user.value, cfg.orgMap, cfg.attributes, cfg.matches, orgs);
      if cfg.teamAttributes.Some? {
        desiredTeams.UpdateUserTeamsBySamlAttr(cfg.teamAttributes.value, teams);
      }
      ghost var byAttribute := desiredTeams.teams;
      desired.UpdateUserOrgs(user.value, cfg.orgMap, cfg.orgMap, cfg.attributes, cfg.matches, orgs);
      desiredTeams.UpdateUserTeams(user.value, cfg.teamMap, cfg.matches);
      CreateOrgAndTeams(desired.orgsToCreate, desiredTeams.toCreate, cfg.canCreate);
      ghost var created := Contents();
      ReconcileUsersOrgTeamMappings(desired.orgs, desiredTeams.teams);
      forall k: RoleKey
        ensures Wish(desired.orgs, desiredTeams.teams, undefined, k)
                == if k in undefined then None else VerdictFor(user.value, cfg, before, k)
      {
        if k.OrgRole? {
          assert Cell(desired.orgs, k.org, k.role)
                 == Folded(user.value, cfg.attributes, cfg.orgMap, cfg.orgMap, cfg.matches, before.orgs, k.org, k.role);
        } else if k.TeamMember? {
          TeamFoldIs(user.value, cfg, before.teams, byAttribute, desiredTeams.teams, k.org, k.team);
        }
      }
      assert Settled(created, roles, desired.orgs, desiredTeams.teams, undefined);
    }
  }

  // ----- From configuration to roles -----

  datatype Config = Config(orgMap: seq<OrgEntry>, attributes: OrgAttributes, teamAttributes: Option<TeamAttributes>,
                           teamMap: seq<TeamEntry>, matches: Matches, canCreate: bool, undefined: set<RoleKey>)
  {
    function TeamLines(): map<string, string> {
      Assign(if teamAttributes.Some? then Assign(map[], LinkLines(teamAttributes.value.links, teamAttributes.value.named)) else map[],
             EntryLines(teamMap))
    }

    /** What the lines of the attribute mapping say, if it is configured. */
    ghost function LinkWrites(): seq<Write> {
      if teamAttributes.Some? then LinesWrite(teamAttributes.value.links, teamAttributes.value.named) else []
    }

    predicate RemovesFromTeams() {
      teamAttributes.Some? && teamAttributes.value.remove
    }
  }

  function OrgsAfter(cfg: Config, orgs: set<string>): set<string> {
    if cfg.canCreate then orgs + OrgsToAdd(AttributeOrgs(cfg.attributes, cfg.orgMap) + Targets(cfg.orgMap), cfg.TeamLines()) else orgs
  }

  function TeamsAfter(cfg: Config, teams: set<(string, string)>): set<(string, string)> {
    if cfg.canCreate then teams + TeamsToAdd(teams, cfg.TeamLines()) else teams
  }

  /** The team map has the last word, then the attribute mapping, then its removal. */
  ghost function TeamFold(user: User, cfg: Config, teams: set<(string, string)>, o: string, t: string): Option<bool> {
    var k: TeamKey := (Some(o), t);
    var byMap := LastWrite(EntryWrites(user, cfg.teamMap, cfg.matches), k);
    if byMap.Some? then byMap
    else if cfg.teamAttributes.None? then None
    else
      var attributes := cfg.teamAttributes.value;
      var byLink := LastWrite(LinesWrite(attributes.links, attributes.named), k);
      if byLink.Some? then byLink
      else if attributes.remove && (o, t) in teams then Some(false)
      else None
  }

  lemma TeamFoldIs(user: User, cfg: Config, existing: set<(string, string)>, byAttribute: map<TeamKey, bool>,
                   final: map<TeamKey, bool>, o: string, t: string)
    requires cfg.teamAttributes.Some? ==>
               Written(if cfg.teamAttributes.value.remove then FalseFor(existing) else map[],
                       LinesWrite(cfg.teamAttributes.value.links, cfg.teamAttributes.value.named), byAttribute)
    requires cfg.teamAttributes.None? ==> byAttribute == map[]
    requires Written(byAttribute, EntryWrites(user, cfg.teamMap, cfg.matches), final)
    ensures Lookup(final, (Some(o), t)) == TeamFold(user, cfg, existing, o, t)
  {
    FalseForLookup(existing, o, t);
    var k: TeamKey := (Some(o), t);
    assert Lookup(final, k) == if LastWrite(EntryWrites(user, cfg.teamMap, cfg.matches), k).Some?
                               then LastWrite(EntryWrites(user, cfg.teamMap, cfg.matches), k) else Lookup(byAttribute, k);
  }

  ghost function VerdictFor(user: User, cfg: Config, before: Db, k: RoleKey): Option<bool> {
    match k
    case OrgRole(o, r) =>
      (match Folded(user, cfg.attributes, cfg.orgMap, cfg.orgMap, cfg.matches, before.orgs, o, r) case Some(v) => v case None => None)
    case TeamMember(o, t) => TeamFold(user, cfg, before.teams, o, t)
    case Other(_) => None
  }

  /** The directory after a login. */
  ghost predicate LoggedIn(user: User, cfg: Config, before: Db, after: Db) {
    && after.orgs == OrgsAfter(cfg, before.orgs)
    && after.teams == TeamsAfter(cfg, before.teams)
    && forall k: RoleKey :: k in after.roles <==>
         if after.Exists(k) && k !in cfg.undefined && VerdictFor(user, cfg, before, k).Some?
         then VerdictFor(user, cfg, before, k).value else k in before.roles
  }

  /** After a login the user holds a role of an existing organization exactly if the
      assertion or some entry of the map grants it, or if it was held before and neither
      the last entry about that organization nor, where there is none, the attribute
      settings take it away. */
  lemma OrgRoleAfterLogin(user: User, cfg: Config, before: Db, after: Db, o: string, r: Role)
    requires LoggedIn(user, cfg, before, after) && o in after.orgs && OrgRole(o, r) !in cfg.undefined
    ensures var last := LastVerdict(user, cfg.orgMap, cfg.matches, o, r);
            OrgRole(o, r) in after.roles <==>
              || AttributeGrants(cfg.attributes, cfg.orgMap, o, r)
              || MapGrants(user, cfg.orgMap, cfg.matches, o, r)
              || (OrgRole(o, r) in before.roles
                  && last != Some(Some(false))
                  && !(last.None? && o in before.orgs && cfg.attributes.For(r).remove))
  {
    LastIsGrant(user, cfg.orgMap, cfg.matches, o, r);
    assert after.Exists(OrgRole(o, r));
  }

  /** What becomes of one role on `o`: an organization goes by its alias unless that is empty; each
      entry has a rule for the role, and where the rule does not say whether to remove, the entry
      does.  `held` and `existed` are about the role and the organization before. */
  ghost predicate EndsUp(user: User, cfg: Config, o: string, rule: OrgEntry -> Rule, attribute: RoleAttribute, held: bool, existed: bool) {
    || (attribute.names.Some? && exists n <- attribute.names.value :: Resolve(cfg.orgMap, n) == o)
    || (exists e <- cfg.orgMap :: Names(e, o) && Grants(user, rule(e).expression, cfg.matches))
    || (&& held
        && (forall i :: LastAbout(cfg.orgMap, o, i) ==>
              !(match rule(cfg.orgMap[i]).remove case Some(b) => b case None => cfg.orgMap[i].remove))
        && ((forall e <- cfg.orgMap :: !Names(e, o)) ==> !(existed && attribute.remove)))
  }

  predicate LastAbout(entries: seq<OrgEntry>, o: string, i: int) {
    0 <= i < |entries| && Names(entries[i], o) && forall j :: i < j < |entries| ==> !Names(entries[j], o)
  }

  predicate Names(e: OrgEntry, o: string) {
    (e.alias == Some(o) && o != "") || (e.name == o && (e.alias == None || e.alias == Some("")))
  }

  /** A name in the assertion stands for the alias of the first entry of that name, the empty one
      too, or without such an alias for itself. */
  lemma {:induction false} StandsFor(orgMap: seq<OrgEntry>, name: string, i: nat)
    requires i <= |orgMap| && forall j :: 0 <= j < i ==> orgMap[j].name != name
    ensures i == |orgMap| ==> Resolve(orgMap, name) == name
    ensures i < |orgMap| && orgMap[i].name == name ==>
              Resolve(orgMap, name) == match orgMap[i].alias case Some(a) => a case None => name
  {
    if i > 0 {
      StandsFor(orgMap[1..], name, i - 1);
    }
  }

  lemma NamesTarget(e: OrgEntry, o: string)
    ensures Names(e, o) <==> e.Target() == o
  {
  }

  lemma {:induction false} LastVerdictIs(user: User, entries: seq<OrgEntry>, matches: Matches, o: string, r: Role) returns (i: int)
    ensures LastVerdict(user, entries, matches, o, r).None? ==> forall e <- entries :: !Names(e, o)
    ensures LastVerdict(user, entries, matches, o, r).Some? ==>
              LastAbout(entries, o, i) && LastVerdict(user, entries, matches, o, r) == Some(entries[i].VerdictFor(user, r, matches))
    decreases |entries|
  {
    hide OrgEntry.VerdictFor, Names, OrgEntry.Target;
    i := |entries| - 1;
    if entries != [] {
      NamesTarget(entries[i], o);
      if entries[i].Target() != o {
        var front := entries[..i];
        assert entries == front + [entries[i]];
        i := LastVerdictIs(user, front, matches, o, r);
      }
    }
  }

  lemma MapGrantsIs(user: User, cfg: Config, o: string, r: Role, rule: OrgEntry -> Rule)
    requires forall e <- cfg.orgMap :: rule(e) == e.RuleFor(r)
    ensures MapGrants(user, cfg.orgMap, cfg.matches, o, r) <==>
              exists e <- cfg.orgMap :: Names(e, o) && Grants(user, rule(e).expression, cfg.matches)
  {
    hide Grants;
    forall e <- cfg.orgMap
      ensures e.Target() == o && e.VerdictFor(user, r, cfg.matches) == Some(true) <==>
                Names(e, o) && Grants(user, rule(e).expression, cfg.matches)
    {
      NamesTarget(e, o);
    }
  }

  /** Where nothing grants it, the last entry about `o` does not take the role away. */
  lemma LastKeeps(user: User, cfg: Config, o: string, r: Role, rule: OrgEntry -> Rule)
    requires forall e <- cfg.orgMap :: rule(e) == e.RuleFor(r)
    requires !MapGrants(user, cfg.orgMap, cfg.matches, o, r)
    ensures LastVerdict(user, cfg.orgMap, cfg.matches, o, r).None? <==> forall e <- cfg.orgMap :: !Names(e, o)
    ensures LastVerdict(user, cfg.orgMap, cfg.matches, o, r) != Some(Some(false)) <==>
              forall i :: LastAbout(cfg.orgMap, o, i) ==>
                !(match rule(cfg.orgMap[i]).remove case Some(b) => b case None => cfg.orgMap[i].remove)
  {
    hide Grants, Names, OrgEntry.Target;
    var n := LastVerdictIs(user, cfg.orgMap, cfg.matches, o, r);
    if LastVerdict(user, cfg.orgMap, cfg.matches, o, r).Some? {
      var e := cfg.orgMap[n];
      NamesTarget(e, o);
      assert e in cfg.orgMap && rule(e) == e.RuleFor(r);
      assert e.VerdictFor(user, r, cfg.matches) != Some(true);
      assert forall i :: LastAbout(cfg.orgMap, o, i) ==> i == n;
    } else {
      assert forall i :: 0 <= i < |cfg.orgMap| ==> cfg.orgMap[i] in cfg.orgMap;
    }
  }

  lemma RoleEndsUp(user: User, cfg: Config, before: Db, after: Db, o: string, r: Role, rule: OrgEntry -> Rule, attribute: RoleAttribute)
    requires LoggedIn(user, cfg, before, after) && o in after.orgs && OrgRole(o, r) !in cfg.undefined
    requires attribute == cfg.attributes.For(r) && forall e <- cfg.orgMap :: rule(e) == e.RuleFor(r)
    ensures OrgRole(o, r) in after.roles <==>
              EndsUp(user, cfg, o, rule, attribute, OrgRole(o, r) in before.roles, o in before.orgs)
  {
    hide LoggedIn, Grants, Resolve, LastVerdict, MapGrants, LastAbout, Names, OrgEntry.RuleFor, OrgAttributes.For;
    OrgRoleAfterLogin(user, cfg, before, after, o, r);
    MapGrantsIs(user, cfg, o, r, rule);
    if !MapGrants(user, cfg.orgMap, cfg.matches, o, r) {
      LastKeeps(user, cfg, o, r, rule);
    }
  }

  /** The three roles of an organization: `admins` and the attribute for administrators decide
      about administrators, `users` and that for members about members, `auditors` and that for
      auditors about auditors. */
  lemma RolesAfterLogin(user: User, cfg: Config, before: Db, after: Db, o: string)
    requires LoggedIn(user, cfg, before, after) && o in after.orgs
    ensures OrgRole(o, Admin) !in cfg.undefined ==>
              (OrgRole(o, Admin) in after.roles <==>
                 EndsUp(user, cfg, o, (e: OrgEntry) => e.admins, cfg.attributes.admin, OrgRole(o, Admin) in before.roles, o in before.orgs))
    ensures OrgRole(o, Member) !in cfg.undefined ==>
              (OrgRole(o, Member) in after.roles <==>
                 EndsUp(user, cfg, o, (e: OrgEntry) => e.users, cfg.attributes.member, OrgRole(o, Member) in before.roles, o in before.orgs))
    ensures OrgRole(o, Auditor) !in cfg.undefined ==>
              (OrgRole(o, Auditor) in after.roles <==>
                 EndsUp(user, cfg, o, (e: OrgEntry) => e.auditors, cfg.attributes.auditor, OrgRole(o, Auditor) in before.roles, o in before.orgs))
  {
    hide LoggedIn, EndsUp;
    if OrgRole(o, Admin) !in cfg.undefined {
      RoleEndsUp(user, cfg, before, after, o, Admin, (e: OrgEntry) => e.admins, cfg.attributes.admin);
    }
    if OrgRole(o, Member) !in cfg.undefined {
      RoleEndsUp(user, cfg, before, after, o, Member, (e: OrgEntry) => e.users, cfg.attributes.member);
    }
    if OrgRole(o, Auditor) !in cfg.undefined {
      RoleEndsUp(user, cfg, before, after, o, Auditor, (e: OrgEntry) => e.auditors, cfg.attributes.auditor);
    }
  }

  /** After a login the user is in an existing team exactly if the last entry of the map with
      a verdict about it grants it; or, where no entry has one, the last line of the attribute
      mapping about it does; or, where that is silent too, the user was in it and the attribute
      settings do not begin by taking everybody out of every team there is. */
  lemma TeamRoleAfterLogin(user: User, cfg: Config, before: Db, after: Db, o: string, t: string)
    requires LoggedIn(user, cfg, before, after) && (o, t) in after.teams && TeamMember(o, t) !in cfg.undefined
    ensures var k: TeamKey := (Some(o), t);
            var byMap, byLink := EntryWrites(user, cfg.teamMap, cfg.matches), cfg.LinkWrites();
            TeamMember(o, t) in after.roles <==>
              || EndsWith(byMap, k, true)
              || (Silent(byMap, k) && EndsWith(byLink, k, true))
              || (Silent(byMap, k) && Silent(byLink, k) && TeamMember(o, t) in before.roles
                  && !(cfg.RemovesFromTeams() && (o, t) in before.teams))
  {
    var k: TeamKey := (Some(o), t);
    LastWriteIs(EntryWrites(user, cfg.teamMap, cfg.matches), k);
    LastWriteIs(cfg.LinkWrites(), k);
    assert after.Exists(TeamMember(o, t));
    assert VerdictFor(user, cfg, before, TeamMember(o, t)) == TeamFold(user, cfg, before.teams, o, t);
  }

  // ----- Teams in terms of the lines of the configuration -----

  predicate Concerns(e: TeamEntry, o: string, t: string) {
    e.name == t && e.organization == Some(o)
  }

  /** The last entry of the map that grants the team or takes it away. */
  ghost predicate LastEntry(user: User, cfg: Config, o: string, t: string, i: int) {
    && 0 <= i < |cfg.teamMap| && Concerns(cfg.teamMap[i], o, t)
    && (Grants(user, cfg.teamMap[i].users, cfg.matches) || cfg.teamMap[i].remove)
    && forall j :: i < j < |cfg.teamMap| && Concerns(cfg.teamMap[j], o, t) ==>
         !Grants(user, cfg.teamMap[j].users, cfg.matches) && !cfg.teamMap[j].remove
  }

  /** A line of the attribute mapping grants under its alias, if it has one, and takes away under the
      name that is not in the assertion. */
  predicate Puts(l: TeamLink, named: set<string>, o: string, t: string) {
    l.team in named && o != "" && l.organization == Some(o) && (if l.alias in {None, Some("")} then l.team == t else l.alias == Some(t))
  }

  predicate Takes(l: TeamLink, named: set<string>, o: string, t: string) {
    l.team !in named && l.organization == Some(o) && l.team == t
  }

  predicate LastLine(links: seq<TeamLink>, named: set<string>, o: string, t: string, i: int) {
    && 0 <= i < |links| && (Puts(links[i], named, o, t) || Takes(links[i], named, o, t))
    && forall j :: i < j < |links| ==> !Puts(links[j], named, o, t) && !Takes(links[j], named, o, t)
  }

  lemma EntrySays(user: User, e: TeamEntry, matches: Matches, o: string, t: string)
    ensures About(e.WriteFor(user, matches), (Some(o), t)) <==> Concerns(e, o, t) && (Grants(user, e.users, matches) || e.remove)
    ensures About(e.WriteFor(user, matches), (Some(o), t)) ==> e.WriteFor(user, matches).value.1 == Grants(user, e.users, matches)
  {
  }

  lemma LineSays(l: TeamLink, named: set<string>, o: string, t: string)
    ensures About(l.WriteFor(named), (Some(o), t)) <==> Puts(l, named, o, t) || Takes(l, named, o, t)
    ensures About(l.WriteFor(named), (Some(o), t)) ==> l.WriteFor(named).value.1 == Puts(l, named, o, t)
  {
  }

  /** What the entries of the map say in the end. */
  lemma EntriesSay(user: User, cfg: Config, o: string, t: string)
    ensures var writes, k := EntryWrites(user, cfg.teamMap, cfg.matches), (Some(o), t);
            && (Silent(writes, k) <==> forall i :: !LastEntry(user, cfg, o, t, i))
            && (EndsWith(writes, k, true) <==>
                  exists i :: LastEntry(user, cfg, o, t, i) && Grants(user, cfg.teamMap[i].users, cfg.matches))
  {
    hide Grants, Concerns, TeamEntry.WriteFor, About;
    var writes, k: TeamKey := EntryWrites(user, cfg.teamMap, cfg.matches), (Some(o), t);
    forall i | 0 <= i < |writes|
      ensures About(writes[i], k) <==>
                Concerns(cfg.teamMap[i], o, t) && (Grants(user, cfg.teamMap[i].users, cfg.matches) || cfg.teamMap[i].remove)
      ensures About(writes[i], k) ==> writes[i] == Some((k, Grants(user, cfg.teamMap[i].users, cfg.matches)))
    {
      EntrySays(user, cfg.teamMap[i], cfg.matches, o, t);
      AboutIs(writes[i], k);
    }
    forall i
      ensures LastEntry(user, cfg, o, t, i) <==> LastAt(writes, k, i)
    {
    }
    LastExists(writes, k);
  }

  lemma AboutIs(w: Write, k: TeamKey)
    ensures About(w, k) ==> w == Some((k, w.value.1))
  {
  }

  ghost predicate LastAt(writes: seq<Write>, k: TeamKey, i: int) {
    0 <= i < |writes| && About(writes[i], k) && forall j :: i < j < |writes| ==> !About(writes[j], k)
  }

  lemma {:induction false} LastExists(writes: seq<Write>, k: TeamKey)
    ensures Silent(writes, k) <==> !exists i :: LastAt(writes, k, i)
    ensures forall b :: EndsWith(writes, k, b) <==> exists i :: LastAt(writes, k, i) && writes[i] == Some((k, b))
    decreases |writes|
  {
    forall b | EndsWith(writes, k, b)
      ensures exists i :: LastAt(writes, k, i) && writes[i] == Some((k, b))
    {
      var i :| 0 <= i < |writes| && writes[i] == Some((k, b)) && forall j :: i < j < |writes| ==> !About(writes[j], k);
      assert LastAt(writes, k, i);
    }
    if writes != [] {
      var n := |writes| - 1;
      var front := writes[..n];
      LastExists(front, k);
      if About(writes[n], k) {
        assert LastAt(writes, k, n);
      } else if i :| LastAt(front, k, i) {
        assert LastAt(writes, k, i);
      }
    }
  }

  lemma LinesSay(links: seq<TeamLink>, named: set<string>, o: string, t: string)
    ensures var writes, k := LinesWrite(links, named), (Some(o), t);
            && (Silent(writes, k) <==> forall i :: !LastLine(links, named, o, t, i))
            && (EndsWith(writes, k, true) <==> exists i :: LastLine(links, named, o, t, i) && Puts(links[i], named, o, t))
  {
    hide TeamLink.WriteFor, About, Puts, Takes;
    var writes, k: TeamKey := LinesWrite(links, named), (Some(o), t);
    forall i | 0 <= i < |writes|
      ensures About(writes[i], k) <==> Puts(links[i], named, o, t) || Takes(links[i], named, o, t)
      ensures About(writes[i], k) ==> writes[i] == Some((k, Puts(links[i], named, o, t)))
    {
      LineSays(links[i], named, o, t);
      AboutIs(writes[i], k);
    }
    forall i
      ensures LastLine(links, named, o, t, i) <==> LastAt(writes, k, i)
    {
    }
    LastExists(writes, k);
  }

  /** After a login the user is in an existing team exactly if the last entry of the map that says
      something about it grants it; or, where none does, the last line of the attribute mapping
      about it; or, where there is none either, the user was in it and the attribute settings do not
      begin by taking everybody out of every team there is. */
  lemma TeamAfterLogin(user: User, cfg: Config, before: Db, after: Db, o: string, t: string)
    requires LoggedIn(user, cfg, before, after) && (o, t) in after.teams && TeamMember(o, t) !in cfg.undefined
    ensures TeamMember(o, t) in after.roles <==>
              || (exists i :: LastEntry(user, cfg, o, t, i) && Grants(user, cfg.teamMap[i].users, cfg.matches))
              || ((forall i :: !LastEntry(user, cfg, o, t, i)) && cfg.teamAttributes.Some?
                  && exists i :: LastLine(cfg.teamAttributes.value.links, cfg.teamAttributes.value.named, o, t, i)
                                 && Puts(cfg.teamAttributes.value.links[i], cfg.teamAttributes.value.named, o, t))
              || ((forall i :: !LastEntry(user, cfg, o, t, i)) && TeamMember(o, t) in before.roles
                  && (cfg.teamAttributes.Some? ==>
                        && (forall i :: !LastLine(cfg.teamAttributes.value.links, cfg.teamAttributes.value.named, o, t, i))
                        && !(cfg.teamAttributes.value.remove && (o, t) in before.teams)))
  {
    hide LoggedIn, LastEntry, LastLine, Puts, Grants, Silent, EndsWith;
    TeamRoleAfterLogin(user, cfg, before, after, o, t);
    EntriesSay(user, cfg, o, t);
    if cfg.teamAttributes.Some? {
      LinesSay(cfg.teamAttributes.value.links, cfg.teamAttributes.value.named, o, t);
    } else {
      NothingSaid((Some(o), t));
    }
  }

  lemma NothingSaid(k: TeamKey)
    ensures Silent([], k) && !EndsWith([], k, true)
  {
  }

  // ----- What a login creates -----

  /** The last entry of the map about team `t` says that it is in `o`; or, without an entry that
      names an organization, the last line of the attribute mapping that grants it. */
  ghost predicate TeamIn(cfg: Config, t: string, o: string) {
    || (exists i :: EntryPlaces(cfg.teamMap, t, o, i))
    || (&& (forall e <- cfg.teamMap :: e.name == t ==> e.organization.None?) && cfg.teamAttributes.Some?
        && exists i :: LinePlaces(cfg.teamAttributes.value.links, cfg.teamAttributes.value.named, t, o, i))
  }

  ghost predicate EntryPlaces(entries: seq<TeamEntry>, t: string, o: string, i: int) {
    && 0 <= i < |entries| && entries[i].name == t && entries[i].organization == Some(o)
    && forall j :: i < j < |entries| && entries[j].name == t ==> entries[j].organization.None?
  }

  ghost predicate LinePlaces(links: seq<TeamLink>, named: set<string>, t: string, o: string, i: int) {
    0 <= i < |links| && Puts(links[i], named, o, t) && forall j, x :: i < j < |links| ==> !Puts(links[j], named, x, t)
  }

  ghost predicate Gives(lines: seq<Option<(string, string)>>, t: string, o: string, i: int) {
    0 <= i < |lines| && lines[i] == Some((t, o)) && forall j :: i < j < |lines| ==> !NamesIn(lines[j], t)
  }

  predicate NamesIn(line: Option<(string, string)>, t: string) {
    line.Some? && line.value.0 == t
  }

  lemma {:induction false} AssignIs(before: map<string, string>, lines: seq<Option<(string, string)>>, t: string, o: string)
    ensures (t, o) in Assign(before, lines).Items <==>
              (exists i :: Gives(lines, t, o, i)) || ((forall i :: 0 <= i < |lines| ==> !NamesIn(lines[i], t)) && (t, o) in before.Items)
    decreases |lines|
  {
    if lines != [] {
      var n := |lines| - 1;
      var front := lines[..n];
      AssignIs(before, front, t, o);
      if NamesIn(lines[n], t) {
        assert lines[n] == Some((t, o)) ==> Gives(lines, t, o, n);
      } else {
        if i :| Gives(front, t, o, i) {
          assert Gives(lines, t, o, i);
        }
        if i :| Gives(lines, t, o, i) {
          assert Gives(front, t, o, i);
        }
      }
    }
  }

  lemma EntryLineIs(entries: seq<TeamEntry>, t: string, o: string)
    ensures forall i :: Gives(EntryLines(entries), t, o, i) <==> EntryPlaces(entries, t, o, i)
    ensures (forall i :: 0 <= i < |entries| ==> !NamesIn(EntryLines(entries)[i], t)) <==>
              forall e <- entries :: e.name == t ==> e.organization.None?
  {
    forall i | 0 <= i < |entries|
      ensures NamesIn(EntryLines(entries)[i], t) <==> entries[i].name == t && entries[i].organization.Some?
    {
    }
    if forall i :: 0 <= i < |entries| ==> !NamesIn(EntryLines(entries)[i], t) {
      forall e <- entries | e.name == t
        ensures e.organization.None?
      {
        var i :| 0 <= i < |entries| && entries[i] == e;
        assert !NamesIn(EntryLines(entries)[i], t);
      }
    }
  }

  lemma LinkLineIs(links: seq<TeamLink>, named: set<string>, t: string, o: string)
    ensures forall i :: Gives(LinkLines(links, named), t, o, i) <==> LinePlaces(links, named, t, o, i)
  {
    forall i | 0 <= i < |links|
      ensures NamesIn(LinkLines(links, named)[i], t) <==> exists x :: Puts(links[i], named, x, t)
      ensures LinkLines(links, named)[i] == Some((t, o)) <==> Puts(links[i], named, o, t)
    {
      LinkCreates(links[i], named, t, o);
    }
  }

  lemma LinkCreates(l: TeamLink, named: set<string>, t: string, o: string)
    ensures l.CreateFor(named) == Some((t, o)) <==> Puts(l, named, o, t)
    ensures NamesIn(l.CreateFor(named), t) <==> exists x :: Puts(l, named, x, t)
  {
    if NamesIn(l.CreateFor(named), t) {
      assert Puts(l, named, l.organization.value, t);
    }
  }

  lemma TeamLinesIs(cfg: Config, t: string, o: string)
    ensures (t, o) in cfg.TeamLines().Items <==> TeamIn(cfg, t, o)
  {
    hide Gives, EntryPlaces, LinePlaces, Assign;
    EntryLineIs(cfg.teamMap, t, o);
    if cfg.teamAttributes.Some? {
      var links, named := cfg.teamAttributes.value.links, cfg.teamAttributes.value.named;
      LinkLineIs(links, named, t, o);
      AssignIs(map[], LinkLines(links, named), t, o);
      AssignIs(Assign(map[], LinkLines(links, named)), EntryLines(cfg.teamMap), t, o);
    } else {
      AssignIs(map[], EntryLines(cfg.teamMap), t, o);
    }
  }

  /** If it may, a login creates every organization the assertion or the maps name, by its alias
      where it has one, and every team of theirs whose name no team has yet. */
  lemma CreatedByLogin(user: User, cfg: Config, before: Db, after: Db, o: string, t: string)
    requires LoggedIn(user, cfg, before, after)
    ensures o in after.orgs <==>
              || o in before.orgs
              || (cfg.canCreate && o != ""
                  && (|| (exists a <- [cfg.attributes.admin, cfg.attributes.member, cfg.attributes.auditor] ::
                            a.names.Some? && exists n <- a.names.value :: Resolve(cfg.orgMap, n) == o)
                      || (exists e <- cfg.orgMap :: Names(e, o))
                      || (exists team :: TeamIn(cfg, team, o))))
    ensures (o, t) in after.teams <==>
              (o, t) in before.teams || (cfg.canCreate && o != "" && TeamIn(cfg, t, o) && forall x <- before.teams :: x.1 != t)
  {
    hide TeamIn, Config.TeamLines, Resolve, Names;
    var lines := cfg.TeamLines();
    forall team
      ensures TeamIn(cfg, team, o) <==> team in lines && lines[team] == o
    {
      TeamLinesIs(cfg, team, o);
    }
    forall e <- cfg.orgMap
      ensures Names(e, o) <==> e.Target() == o
    {
      NamesTarget(e, o);
    }
    assert [cfg.attributes.admin, cfg.attributes.member, cfg.attributes.auditor][0] == cfg.attributes.admin;
    assert [cfg.attributes.admin, cfg.attributes.member, cfg.attributes.auditor][1] == cfg.attributes.member;
    assert [cfg.attributes.admin, cfg.attributes.member, cfg.attributes.auditor][2] == cfg.attributes.auditor;
  }

  /** A role no line of the configuration is about, such as that of a team of the same name in
      another organization, stays as it is, unless the attribute settings take everybody out. */
  lemma OthersUntouched(user: User, cfg: Config, before: Db, after: Db, k: RoleKey)
    requires LoggedIn(user, cfg, before, after) && !k.OrgRole?
    requires k.TeamMember? ==> forall e <- cfg.teamMap :: e.organization != Some(k.org) || e.name != k.team
    requires k.TeamMember? && cfg.teamAttributes.Some? ==>
               forall l <- cfg.teamAttributes.value.links :: l.organization != Some(k.org) || (l.team != k.team && l.Name() != k.team)
    ensures k in after.roles <==>
              && k in before.roles
              && !(k.TeamMember? && cfg.RemovesFromTeams() && (k.org, k.team) in before.teams && k !in cfg.undefined)
  {
    if k.TeamMember? {
      var key: TeamKey := (Some(k.org), k.team);
      LastWriteIs(EntryWrites(user, cfg.teamMap, cfg.matches), key);
      LastWriteIs(cfg.LinkWrites(), key);
      assert VerdictFor(user, cfg, before, k) == TeamFold(user, cfg, before.teams, k.org, k.team);
      assert (k.org, k.team) in before.teams ==> after.Exists(k);
    }
  }

  lemma TeamsAddedOnce(cfg: Config, teams: set<(string, string)>)
    ensures TeamsAfter(cfg, TeamsAfter(cfg, teams)) == TeamsAfter(cfg, teams)
  {
    var lines := cfg.TeamLines();
    var after := TeamsAfter(cfg, teams);
    if cfg.canCreate {
      var names := set e <- teams :: e.1;
      var names' := set e <- after :: e.1;
      forall t <- lines | lines[t] != ""
        ensures t in names'
      {
        if t in names {
          var e :| e in teams && e.1 == t;
          assert e in after;
        } else {
          assert (lines[t], t) in after;
        }
      }
      assert TeamsToAdd(after, lines) == {};
    }
  }

  /** A second login with the same assertion and settings changes nothing: what the first
      one created does not make the second one take roles away. */
  lemma LoginIdempotent(user: User, cfg: Config, before: Db, once: Db, twice: Db)
    requires before.Valid() && LoggedIn(user, cfg, before, once) && LoggedIn(user, cfg, once, twice)
    ensures twice == once
  {
    TeamsAddedOnce(cfg, before.teams);
    assert twice.orgs == once.orgs;
    forall k: RoleKey
      ensures k in twice.roles <==> k in once.roles
    {
      SameVerdict(user, cfg, before, once, k);
      assert twice.Exists(k) == once.Exists(k);
    }
  }

  /** The verdicts of the two logins differ only for objects that the first one created,
      and there the second one asks to remove what is not held. */
  lemma SameVerdict(user: User, cfg: Config, before: Db, once: Db, k: RoleKey)
    requires before.Valid() && LoggedIn(user, cfg, before, once)
    ensures VerdictFor(user, cfg, once, k) == VerdictFor(user, cfg, before, k)
            || (VerdictFor(user, cfg, once, k) == Some(false) && k !in once.roles)
  {
    if VerdictFor(user, cfg, once, k) != VerdictFor(user, cfg, before, k) {
      assert !before.Exists(k);
      assert k !in before.roles;
    }
  }
}
