/**
 Two handlers keep a user's `is_superuser` flag and membership of the System
 Administrator role in step, each by performing writes that trigger the other
 (forail/main/signals.py:165-216).
 */
module SuperuserSync {

  import opened Options

  type UserId = nat
  type RoleId = nat

  /** The stored flags, and the rows `(role, user)` of the membership relation. */
  datatype State = State(flags: map<UserId, bool>, members: set<(RoleId, UserId)>) {
    ghost predicate Valid() {
      forall m <- members :: m.1 in flags
    }

    /** The property the two handlers exist for. */
    ghost predicate Synced(admin: RoleId) {
      forall u <- flags :: flags[u] <==> (admin, u) in members
    }
  }

  /** What callers can do: save a user (the flag as it stands on the in-memory object,
      with or without writing that column), delete one, and edit the relation from
      either side. */
  datatype Op =
    | Save(user: UserId, flag: bool)
    | SaveOtherFields(user: UserId)
    | DeleteUser(user: UserId)
    | MembersAdd(role: RoleId, users: set<UserId>)
    | MembersRemove(role: RoleId, users: set<UserId>)
    | MembersClear(role: RoleId)
    | RolesAdd(user: UserId, roles: set<RoleId>)
    | RolesRemove(user: UserId, roles: set<RoleId>)
    | RolesClear(user: UserId)
  {
    ghost predicate Legal(s: State) {
      match this
      case Save(u, _) => true
      case SaveOtherFields(u) => u in s.flags
      case DeleteUser(u) => u in s.flags
      case MembersAdd(_, us) => us <= s.flags.Keys
      case MembersRemove(_, us) => us <= s.flags.Keys
      case MembersClear(_) => true
      case RolesAdd(u, _) => u in s.flags
      case RolesRemove(u, _) => u in s.flags
      case RolesClear(u) => u in s.flags
    }
  }

  function SetFlags(flags: map<UserId, bool>, us: set<UserId>, b: bool): map<UserId, bool> {
    map u <- flags :: if u in us then b else flags[u]
  }

  /** What a request does to the memberships. */
  function Membership(members: set<(RoleId, UserId)>, op: Op, admin: RoleId): set<(RoleId, UserId)> {
    match op
    case Save(u, flag) => if flag then members + {(admin, u)} else members - {(admin, u)}
    case SaveOtherFields(_) => members
    case DeleteUser(u) => set m <- members | m.1 != u
    case MembersAdd(r, us) => members + (set u <- us :: (r, u))
    case MembersRemove(r, us) => members - (set u <- us :: (r, u))
    case MembersClear(r) => set m <- members | m.0 != r
    case RolesAdd(u, rs) => members + (set r <- rs :: (r, u))
    case RolesRemove(u, rs) => members - (set r <- rs :: (r, u))
    case RolesClear(u) => set m <- members | m.1 != u
  }

  /** What it does to the flags: an addition sets those of the users it makes members. */
  function Flags(s: State, op: Op, admin: RoleId): map<UserId, bool> {
    match op
    case Save(u, flag) => s.flags[u := flag]
    case SaveOtherFields(_) => s.flags
    case DeleteUser(u) => s.flags - {u}
    case MembersAdd(r, us) =>
      if r == admin then SetFlags(s.flags, set u <- us | (admin, u) !in s.members, true) else s.flags
    case MembersRemove(r, us) => if r == admin then SetFlags(s.flags, us, false) else s.flags
    case MembersClear(r) => if r == admin then SetFlags(s.flags, s.flags.Keys, false) else s.flags
    case RolesAdd(u, rs) => if admin in rs && (admin, u) !in s.members then s.flags[u := true] else s.flags
    case RolesRemove(u, rs) => if admin in rs then s.flags[u := false] else s.flags
    case RolesClear(u) => s.flags[u := false]
  }

  /** The two sides of a request, which do not consult each other, and what the handlers
      achieve together. */
  function Effect(s: State, op: Op, admin: RoleId): State {
    State(Flags(s, op, admin), Membership(s.members, op, admin))
  }

  datatype Side = OnRole(role: RoleId) | OnUser(user: UserId)
  datatype Action = PostAdd | PostRemove | PostClear

  class Accounts {
    const admin: RoleId
    var flags: map<UserId, bool>
    var members: set<(RoleId, UserId)>

    constructor (admin: RoleId)
      ensures this.admin == admin && Contents() == State(map[], {})
    {
      this.admin := admin;
      flags, members := map[], {};
    }

    function Contents(): State
      reads this
    {
      State(flags, members)
    }

    // ----- The two handlers -----

    /** The handler that runs after the flag of `u` has been written. */
    method SyncFlagToRole(u: UserId)
      requires Contents().Valid() && u in flags
      modifies this
      ensures flags == old(flags)
      ensures members == if flags[u] then old(members) + {(admin, u)} else old(members) - {(admin, u)}
      ensures Contents().Valid()
      decreases 2
    {
      ghost var before := flags;
      if flags[u] {
        AddMembers(admin, {u});
      } else {
        RemoveMembers(admin, {u});
      }
      assert flags == before;
      assert (set x <- {u} :: (admin, x)) == {(admin, u)};
    }

    /** The handler that runs after the membership relation changed, on the side the
        change was made from.  For a clear there is no set of keys. */
    method SyncRoleToFlag(side: Side, action: Action, pks: set<nat>)
      requires Contents().Valid() && (side.OnUser? ==> side.user in flags)
      requires action.PostClear? ==> pks == {}
      requires side.OnUser? && action.PostAdd? && admin in pks ==> (admin, side.user) in members
      requires side.OnUser? && (action.PostClear? || (action.PostRemove? && admin in pks)) ==> (admin, side.user) !in members
      modifies this
      ensures members == old(members)
      ensures side.OnRole? && side.role == admin ==>
                flags == SetFlags(old(flags), if action.PostClear? then old(flags).Keys else pks, action.PostAdd?)
      ensures side.OnUser? && (action.PostClear? || admin in pks) ==>
                flags == old(flags)[side.user := action.PostAdd?]
      ensures (side.OnRole? && side.role != admin) || (side.OnUser? && !action.PostClear? && admin !in pks) ==>
                flags == old(flags)
      ensures Contents().Valid()
      decreases if side.OnRole? then 0 else 4
    {
      var status := action.PostAdd?;
      if side.OnRole? {
        if side.role == admin {
          if pks != {} {
            flags := SetFlags(flags, pks, status);
          } else if action.PostClear? {
            flags := SetFlags(flags, flags.Keys, false);
          }
        }
      } else if action.PostClear? {
        SaveUser(side.user, false);
      } else if admin in pks {
        SaveUser(side.user, status);
      }
    }

    // ----- The writes that trigger them -----

    /** `user.save()` with the flag among the written columns. */
    method SaveUser(u: UserId, flag: bool)
      requires Contents().Valid()
      modifies this
      ensures flags == old(flags)[u := flag]
      ensures members == if flag then old(members) + {(admin, u)} else old(members) - {(admin, u)}
      ensures Contents().Valid()
      decreases 3
    {
      flags := flags[u := flag];
      SyncFlagToRole(u);
    }

    /** `role.members.add(...)`: only the missing rows are inserted and reported. */
    method AddMembers(r: RoleId, us: set<UserId>)
      requires Contents().Valid() && us <= flags.Keys
      modifies this
      ensures members == old(members) + (set u <- us :: (r, u))
      ensures flags == if r != admin then old(flags)
                       else SetFlags(old(flags), set u <- us | (admin, u) !in old(members), true)
      ensures Contents().Valid()
      decreases 1
    {
      var missing := set u <- us | (r, u) !in members;
      members := members + (set u <- missing :: (r, u));
      SyncRoleToFlag(OnRole(r), PostAdd, missing);
    }

    /** `role.members.remove(...)`: every key passed in is reported, present or not. */
    method RemoveMembers(r: RoleId, us: set<UserId>)
      requires Contents().Valid() && us <= flags.Keys
      modifies this
      ensures members == old(members) - (set u <- us :: (r, u))
      ensures flags == if r != admin then old(flags) else SetFlags(old(flags), us, false)
      ensures Contents().Valid()
      decreases 1
    {
      members := members - (set u <- us :: (r, u));
      SyncRoleToFlag(OnRole(r), PostRemove, us);
    }

    // ----- The requests of callers -----

    method PerformSave(u: UserId, flag: bool)
      requires Contents().Valid() && Save(u, flag).Legal(Contents())
      modifies this
      ensures Contents() == Effect(old(Contents()), Save(u, flag), admin)
      decreases 5
    {
      SaveUser(u, flag);
    }

    method PerformDelete(u: UserId)
      requires Contents().Valid() && DeleteUser(u).Legal(Contents())
      modifies this
      ensures Contents() == Effect(old(Contents()), DeleteUser(u), admin)
      decreases 5
    {
      flags := flags - {u};
      members := set m <- members | m.1 != u;
    }

    method PerformMembersAdd(r: RoleId, us: set<UserId>)
      requires Contents().Valid() && MembersAdd(r, us).Legal(Contents())
      modifies this
      ensures Contents() == Effect(old(Contents()), MembersAdd(r, us), admin)
      decreases 5
    {
      AddMembers(r, us);
    }

    method PerformMembersRemove(r: RoleId, us: set<UserId>)
      requires Contents().Valid() && MembersRemove(r, us).Legal(Contents())
      modifies this
      ensures Contents() == Effect(old(Contents()), MembersRemove(r, us), admin)
      decreases 5
    {
      RemoveMembers(r, us);
    }

    method PerformMembersClear(r: RoleId)
      requires Contents().Valid() && MembersClear(r).Legal(Contents())
      modifies this
      ensures Contents() == Effect(old(Contents()), MembersClear(r), admin)
      decreases 5
    {
      members := set m <- members | m.0 != r;
      SyncRoleToFlag(OnRole(r), PostClear, {});
    }

    method PerformRolesAdd(u: UserId, rs: set<RoleId>)
      requires Contents().Valid() && RolesAdd(u, rs).Legal(Contents())
      modifies this
      ensures Contents() == Effect(old(Contents()), RolesAdd(u, rs), admin)
      decreases 5
    {
      var missing := set r <- rs | (r, u) !in members;
      members := members + (set r <- missing :: (r, u));
      SyncRoleToFlag(OnUser(u), PostAdd, missing);
    }

    method PerformRolesRemove(u: UserId, rs: set<RoleId>)
      requires Contents().Valid() && RolesRemove(u, rs).Legal(Contents())
      modifies this
      ensures Contents() == Effect(old(Contents()), RolesRemove(u, rs), admin)
      decreases 5
    {
      members := members - (set r <- rs :: (r, u));
      SyncRoleToFlag(OnUser(u), PostRemove, rs);
    }

    method PerformRolesClear(u: UserId)
      requires Contents().Valid() && RolesClear(u).Legal(Contents())
      modifies this
      ensures Contents() == Effect(old(Contents()), RolesClear(u), admin)
      decreases 5
    {
      members := set m <- members | m.1 != u;
      SyncRoleToFlag(OnUser(u), PostClear, {});
    }

    /** One request, with all the handlers it sets off. */
    method Perform(op: Op)
      requires Contents().Valid() && op.Legal(Contents())
      modifies this
      ensures Contents() == Effect(old(Contents()), op, admin)
      ensures Contents().Valid() && (old(Contents()).Synced(admin) ==> Contents().Synced(admin))
      decreases 6
    {
      EffectValid(Contents(), op, admin);
      StepSynced(Contents(), op, admin);
      match op
      case Save(u, flag) => PerformSave(u, flag);
      case SaveOtherFields(u) =>
      case DeleteUser(u) => PerformDelete(u);
      case MembersAdd(r, us) => PerformMembersAdd(r, us);
      case MembersRemove(r, us) => PerformMembersRemove(r, us);
      case MembersClear(r) => PerformMembersClear(r);
      case RolesAdd(u, rs) => PerformRolesAdd(u, rs);
      case RolesRemove(u, rs) => PerformRolesRemove(u, rs);
      case RolesClear(u) => PerformRolesClear(u);
    }
  }

  // ----- One request -----

  lemma EffectValid(s: State, op: Op, admin: RoleId)
    requires s.Valid() && op.Legal(s)
    ensures Effect(s, op, admin).Valid()
  {
    forall m <- Membership(s.members, op, admin)
      ensures m.1 in Flags(s, op, admin)
    {
      assert m in s.members ==> m.1 in s.flags;
    }
  }

  /** Row by row and flag by flag: whose membership of which role a request changes, those of other
      roles included, and whose flag. */
  lemma EffectIs(s: State, op: Op, admin: RoleId, r: RoleId, u: UserId)
    requires s.Valid() && op.Legal(s)
    ensures var State(flags, members) := Effect(s, op, admin);
            (r, u) in members <==>
              match op
              case Save(x, flag) => if r == admin && u == x then flag else (r, u) in s.members
              case SaveOtherFields(_) => (r, u) in s.members
              case DeleteUser(x) => (r, u) in s.members && u != x
              case MembersAdd(role, us) => (r, u) in s.members || (r == role && u in us)
              case MembersRemove(role, us) => (r, u) in s.members && !(r == role && u in us)
              case MembersClear(role) => (r, u) in s.members && r != role
              case RolesAdd(x, rs) => (r, u) in s.members || (u == x && r in rs)
              case RolesRemove(x, rs) => (r, u) in s.members && !(u == x && r in rs)
              case RolesClear(x) => (r, u) in s.members && u != x
    ensures var State(flags, members) := Effect(s, op, admin);
            && (u in flags <==> (u in s.flags && op != DeleteUser(u)) || (op.Save? && op.user == u))
            && (u in flags && (op.MembersAdd? || op.RolesAdd?) ==>
                  (flags[u] <==> s.flags[u] || ((admin, u) in members && (admin, u) !in s.members)))
            && (u in flags && (op.MembersRemove? || op.RolesRemove?) ==>
                  (flags[u] <==> s.flags[u] && !(if op.MembersRemove? then op.role == admin && u in op.users else op.user == u && admin in op.roles)))
            && (u in flags && op.MembersClear? ==> (flags[u] <==> s.flags[u] && op.role != admin))
            && (u in flags && op.RolesClear? ==> (flags[u] <==> s.flags[u] && op.user != u))
            && (u in flags && op.Save? ==> (flags[u] <==> if op.user == u then op.flag else s.flags[u]))
            && (u in flags && (op.SaveOtherFields? || op.DeleteUser?) ==> flags[u] == s.flags[u])
  {
  }

  predicate InStep(s: State, admin: RoleId, u: UserId) {
    u in s.flags && (s.flags[u] <==> (admin, u) in s.members)
  }

  /** What a request says about whether `u` is an administrator. */
  function Word(op: Op, admin: RoleId, u: UserId): Option<bool> {
    match op
    case Save(x, flag) => if x == u then Some(flag) else None
    case SaveOtherFields(_) => None
    case DeleteUser(_) => None
    case MembersAdd(r, us) => if r == admin && u in us then Some(true) else None
    case MembersRemove(r, us) => if r == admin && u in us then Some(false) else None
    case MembersClear(r) => if r == admin then Some(false) else None
    case RolesAdd(x, rs) => if x == u && admin in rs then Some(true) else None
    case RolesRemove(x, rs) => if x == u && admin in rs then Some(false) else None
    case RolesClear(x) => if x == u then Some(false) else None
  }

  /** The flag and the membership of a user each become what the request says. */
  lemma WordCounts(s: State, op: Op, admin: RoleId, u: UserId)
    requires s.Valid() && op.Legal(s) && u in Effect(s, op, admin).flags
    ensures u in s.flags || Word(op, admin, u).Some?
    ensures var s', w := Effect(s, op, admin), Word(op, admin, u);
            && ((admin, u) in s'.members <==> if w.Some? then w.value else (admin, u) in s.members)
            && (w.None? ==> s'.flags[u] == s.flags[u])
            && (w.Some? && !(w.value && (op.MembersAdd? || op.RolesAdd?) && (admin, u) in s.members) ==> s'.flags[u] == w.value)
            && (w.Some? && w.value && (op.MembersAdd? || op.RolesAdd?) && (admin, u) in s.members ==> s'.flags[u] == s.flags[u])
  {
  }

  /** From any state: flag and membership of a user agree after a request exactly if they did
      before, or the request is about this user, and not an addition of one who is a member
      already: that inserts no row, is not reported, and leaves a missing flag missing. */
  lemma InStepIff(s: State, op: Op, admin: RoleId, u: UserId)
    requires s.Valid() && op.Legal(s) && u in Effect(s, op, admin).flags
    ensures InStep(Effect(s, op, admin), admin, u) <==>
              || InStep(s, admin, u)
              || (Word(op, admin, u).Some? && !((op.MembersAdd? || op.RolesAdd?) && (admin, u) in s.members))
  {
    hide Effect, Word, Op.Legal, State.Valid;
    WordCounts(s, op, admin, u);
    AdditionsAdd(op, admin, u);
    MembersAreUsers(s, admin, u);
  }

  lemma AdditionsAdd(op: Op, admin: RoleId, u: UserId)
    ensures Word(op, admin, u).Some? && (op.MembersAdd? || op.RolesAdd?) ==> Word(op, admin, u).value
  {
  }

  lemma StepSynced(s: State, op: Op, admin: RoleId)
    requires s.Valid() && op.Legal(s)
    ensures s.Synced(admin) ==> Effect(s, op, admin).Synced(admin)
  {
    hide Effect, Word, Op.Legal, State.Valid;
    if s.Synced(admin) {
      forall u <- Effect(s, op, admin).flags
        ensures InStep(Effect(s, op, admin), admin, u)
      {
        InStepIff(s, op, admin, u);
        WordCounts(s, op, admin, u);
        assert u in s.flags ==> InStep(s, admin, u);
        AdditionsAdd(op, admin, u);
        MembersAreUsers(s, admin, u);
      }
    }
  }

  lemma MembersAreUsers(s: State, admin: RoleId, u: UserId)
    requires s.Valid()
    ensures (admin, u) in s.members ==> u in s.flags
  {
  }

  // ----- Runs -----

  /** Each request is performed in the state the last one left. */
  ghost predicate IsRun(ops: seq<Op>, states: seq<State>, admin: RoleId) {
    && |states| == |ops| + 1
    && forall k :: 0 <= k < |ops| ==> ops[k].Legal(states[k]) && states[k + 1] == Effect(states[k], ops[k], admin)
  }

  /** Over every run, the administrators are exactly the flagged users. */
  lemma {:induction false} RunSynced(ops: seq<Op>, states: seq<State>, admin: RoleId, k: nat)
    requires IsRun(ops, states, admin) && k < |states| && states[0].Valid() && states[0].Synced(admin)
    ensures states[k].Valid() && states[k].Synced(admin)
    decreases k
  {
    hide Effect, Op.Legal, State.Valid, State.Synced;
    if k > 0 {
      RunSynced(ops, states, admin, k - 1);
      EffectValid(states[k - 1], ops[k - 1], admin);
      StepSynced(states[k - 1], ops[k - 1], admin);
    }
  }

  /** What the last request about `u` says. */
  function LastWord(ops: seq<Op>, admin: RoleId, u: UserId): Option<bool> {
    if ops == [] then None
    else
      var last := Word(ops[|ops| - 1], admin, u);
      if last.Some? then last else LastWord(ops[..|ops| - 1], admin, u)
  }

  /** Over every run, whichever side the requests come from: a user has the flag, and the role,
      exactly as the last request about them says, or as in the beginning. */
  lemma {:induction false} LastWordRules(ops: seq<Op>, states: seq<State>, admin: RoleId, u: UserId)
    requires IsRun(ops, states, admin) && states[0].Valid() && states[0].Synced(admin) && u in states[|ops|].flags
    ensures var word := LastWord(ops, admin, u);
            && (word.None? ==> u in states[0].flags)
            && states[|ops|].flags[u] == (if word.Some? then word.value else states[0].flags[u])
            && ((admin, u) in states[|ops|].members <==> states[|ops|].flags[u])
    decreases |ops|
  {
    hide Effect, Word, Op.Legal, State.Valid;
    var n := |ops|;
    RunSynced(ops, states, admin, n);
    if n > 0 {
      RunSynced(ops, states, admin, n - 1);
      WordCounts(states[n - 1], ops[n - 1], admin, u);
      if Word(ops[n - 1], admin, u).None? {
        LastWordRules(ops[..n - 1], states[..n], admin, u);
      }
    }
  }
}
