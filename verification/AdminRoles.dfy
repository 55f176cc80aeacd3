/** Role assignment: the administrator's calls on values, and what whole runs of them keep. */
module AdminRoles {
  import opened AdminRbac
  import opened AdminRbacTheorems

  type UserId = nat

  /** The in-memory store: per account a list, duplicates and all; no entry means the empty list. */
  type RoleLists = map<UserId, seq<Role>>

  function RolesOf(lists: RoleLists, user: UserId): seq<Role> {
    if user in lists then lists[user] else []
  }

  function Without(roles: seq<Role>, role: Role): seq<Role> {
    if roles == [] then []
    else Without(roles[..|roles| - 1], role) +
         (if roles[|roles| - 1] == role then [] else [roles[|roles| - 1]])
  }

  function Append(lists: RoleLists, user: UserId, role: Role): RoleLists {
    lists[user := RolesOf(lists, user) + [role]]
  }

  /** The entry goes when its last role does. */
  function Remove(lists: RoleLists, user: UserId, role: Role): RoleLists {
    if user !in lists then lists
    else
      var kept := Without(lists[user], role);
      if kept == [] then lists - {user} else lists[user := kept]
  }

  datatype Change = Assign(actor: UserId, target: UserId, role: Role) | Revoke(actor: UserId, target: UserId, role: Role)

  datatype Verdict =
    | Applied | CodeRequired | UnknownRoleCode | CannotChangeSelf
    | LookupFailed | WriteFailed | AuditFailed

  /** The refusals come in this order; revoking does not ask whether the code is known. */
  function Judge(c: Change): Verdict {
    if c.role == UnknownRole("") then CodeRequired
    else if c.Assign? && !Known(c.role) then UnknownRoleCode
    else if c.actor == c.target then CannotChangeSelf
    else Applied
  }

  /** Which of a call's repository calls fail: reading the target's roles, the write, the audit entry.
    A second reading that fails after the write is ignored. */
  datatype Faults = Faults(lookup: bool, write: bool, audit: bool)

  /** Whether the call gets as far as a write that lands. */
  predicate Lands(c: Change, f: Faults) {
    Judge(c).Applied? && !f.lookup && !f.write
  }

  function Answer(c: Change, f: Faults): Verdict {
    if !Judge(c).Applied? then Judge(c)
    else if f.lookup then LookupFailed
    else if f.write then WriteFailed
    else if f.audit then AuditFailed
    else Applied
  }

  function Perform(lists: RoleLists, c: Change): RoleLists {
    if !Judge(c).Applied? then lists
    else if c.Assign? then Append(lists, c.target, c.role) else Remove(lists, c.target, c.role)
  }

  function PerformAll(lists: RoleLists, cs: seq<Change>): RoleLists
    decreases |cs|
  {
    if cs == [] then lists else PerformAll(Perform(lists, cs[0]), cs[1..])
  }

  // ----- the set-based store -----

  /** The database keeps a set of assignments: inserting twice is a no-op, deleting removes one row. */
  type RoleTable = set<(UserId, Role)>

  function PerformSql(table: RoleTable, c: Change): RoleTable {
    if !Judge(c).Applied? then table
    else if c.Assign? then table + {(c.target, c.role)} else table - {(c.target, c.role)}
  }

  function PerformAllSql(table: RoleTable, cs: seq<Change>): RoleTable
    decreases |cs|
  {
    if cs == [] then table else PerformAllSql(PerformSql(table, cs[0]), cs[1..])
  }

  ghost predicate Agree(lists: RoleLists, table: RoleTable) {
    forall user: UserId, role :: role in RolesOf(lists, user) <==> (user, role) in table
  }

  lemma {:induction false} WithoutIsRemoval(roles: seq<Role>, role: Role, r: Role)
    ensures r in Without(roles, role) <==> r in roles && r != role
    decreases |roles|
  {
    if roles != [] {
      WithoutIsRemoval(roles[..|roles| - 1], role, r);
      assert roles == roles[..|roles| - 1] + [roles[|roles| - 1]];
    }
  }

  lemma {:induction false} WithoutAbsent(roles: seq<Role>, role: Role)
    requires role !in roles
    ensures Without(roles, role) == roles
    decreases |roles|
  {
    if roles != [] {
      WithoutAbsent(roles[..|roles| - 1], role);
      assert roles == roles[..|roles| - 1] + [roles[|roles| - 1]];
    }
  }

  lemma ChangeKeepsAgree(lists: RoleLists, table: RoleTable, c: Change)
    requires Agree(lists, table)
    ensures Agree(Perform(lists, c), PerformSql(table, c))
  {
    forall user: UserId, role
      ensures role in RolesOf(Perform(lists, c), user) <==> (user, role) in PerformSql(table, c)
    {
      assert role in RolesOf(lists, user) <==> (user, role) in table;
      WithoutIsRemoval(RolesOf(lists, c.target), c.role, role);
    }
  }

  /** Over any run of changes the list store, duplicates included, and the set store assign the
    same roles. */
  lemma {:induction false} StoresAgree(lists: RoleLists, table: RoleTable, cs: seq<Change>)
    requires Agree(lists, table)
    ensures Agree(PerformAll(lists, cs), PerformAllSql(table, cs))
    decreases |cs|
  {
    if cs != [] {
      ChangeKeepsAgree(lists, table, cs[0]);
      StoresAgree(Perform(lists, cs[0]), PerformSql(table, cs[0]), cs[1..]);
    }
  }

  /** So any listing of the database's rows gives every account the same effective permissions. */
  lemma SamePermissions(cs: seq<Change>, user: UserId, rows: seq<Role>, p: Permission)
    requires forall r :: r in rows <==> (user, r) in PerformAllSql({}, cs)
    ensures p in Effective(RolesOf(PerformAll(map[], cs), user)) <==> p in Effective(rows)
  {
    StoresAgree(map[], {}, cs);
    var roles := RolesOf(PerformAll(map[], cs), user);
    forall r ensures r in roles <==> r in rows {
      assert r in roles <==> (user, r) in PerformAllSql({}, cs);
    }
    OnlyTheSetMatters(roles, rows, p);
  }

  // ----- what a call answers and does -----

  /** A missing code is refused first, then an unknown one if it is to be assigned, then a change of
    one's own roles; only then can a repository call fail, each before the next. */
  lemma AnswersInOrder(c: Change, f: Faults)
    ensures var v := Answer(c, f); var self := c.actor == c.target;
      match c.role
      case UnknownRole(code) =>
        if code == "" then v == CodeRequired
        else if c.Assign? then v == UnknownRoleCode
        else (v == CannotChangeSelf <==> self) && v != CodeRequired && v != UnknownRoleCode
      case _ => (v == CannotChangeSelf <==> self) && v != CodeRequired && v != UnknownRoleCode
    ensures var v := Answer(c, f);
      && (v == LookupFailed ==> f.lookup)
      && (v == WriteFailed ==> f.write && !f.lookup)
      && (v == AuditFailed ==> f.audit && !f.write && !f.lookup)
      && (v == Applied ==> !f.audit && !f.write && !f.lookup)
      && (Lands(c, f) <==> v == Applied || v == AuditFailed)
  {
  }

  /** A change that is made adds the role to the end of the target's list, or takes every occurrence of
    it out and leaves the others as often as they were; nobody else's list changes, and an account
    whose list is empty has no entry. */
  lemma WhatAChangeDoes(lists: RoleLists, c: Change, user: UserId, r: Role)
    requires user in lists ==> lists[user] != []
    ensures var z := Perform(lists, c); var before := RolesOf(lists, user); var after := RolesOf(z, user);
      && (Judge(c) != Applied || user != c.target ==> (user in z <==> user in lists) && after == before)
      && (Judge(c) == Applied && user == c.target ==>
            if c.Assign? then after == before + [c.role]
            else multiset(after)[r] == (if r == c.role then 0 else multiset(before)[r]) && (user in z <==> after != []))
  {
    WithoutCounts(RolesOf(lists, c.target), c.role, r);
  }

  lemma {:induction false} WithoutCounts(roles: seq<Role>, role: Role, r: Role)
    ensures multiset(Without(roles, role))[r] == if r == role then 0 else multiset(roles)[r]
    decreases |roles|
  {
    if roles != [] {
      WithoutCounts(roles[..|roles| - 1], role, r);
      assert roles == roles[..|roles| - 1] + [roles[|roles| - 1]];
    }
  }

  /** However many changes are asked for, no account is ever given a role that does not exist. */
  lemma {:induction false} OnlyKnownRoles(lists: RoleLists, cs: seq<Change>)
    requires forall user, r :: user in lists && r in lists[user] ==> Known(r)
    ensures forall user, r :: user in PerformAll(lists, cs) && r in PerformAll(lists, cs)[user] ==> Known(r)
    decreases |cs|
  {
    if cs != [] {
      var z := Perform(lists, cs[0]);
      forall user, r | user in z && r in z[user] ensures Known(r) {
        if user in lists && user == cs[0].target {
          WithoutIsRemoval(lists[user], cs[0].role, r);
        }
      }
      OnlyKnownRoles(z, cs[1..]);
    }
  }

  lemma RevokeAbsent(lists: RoleLists, user: UserId, role: Role)
    requires user in lists ==> lists[user] != []
    requires role !in RolesOf(lists, user)
    ensures Remove(lists, user, role) == lists
  {
    if user in lists {
      WithoutAbsent(lists[user], role);
    }
  }

  lemma WithoutAppended(roles: seq<Role>, role: Role)
    requires role !in roles
    ensures Without(roles + [role], role) == roles
  {
    assert (roles + [role])[..|roles|] == roles;
    WithoutAbsent(roles, role);
  }

  lemma RevokeAppended(lists: RoleLists, user: UserId, role: Role)
    requires user in lists ==> lists[user] != []
    requires role !in RolesOf(lists, user)
    ensures Remove(Append(lists, user, role), user, role) == lists
  {
    var both := Append(lists, user, role);
    WithoutAppended(RolesOf(lists, user), role);
    if user in lists {
      assert both[user := lists[user]] == lists;
    } else {
      assert both - {user} == lists;
    }
  }

  /** Assigning a role its holder did not have and having someone else revoke it restores the
    store exactly, whether or not the assignment was refused. */
  lemma AssignThenRevokeRestores(lists: RoleLists, a: UserId, b: UserId, target: UserId, role: Role)
    requires target in lists ==> lists[target] != []
    requires role !in RolesOf(lists, target) && b != target
    ensures Perform(Perform(lists, Assign(a, target, role)), Revoke(b, target, role)) == lists
  {
    RevokeAbsent(lists, target, role);
    RevokeAppended(lists, target, role);
  }

  // ----- nobody can lock everybody out -----

  predicate MayManage(lists: RoleLists, user: UserId) {
    RolesManage in Effective(RolesOf(lists, user))
  }

  /** Each change is made by an administrator who may manage roles at that moment. */
  ghost predicate Authorized(lists: RoleLists, admins: set<UserId>, cs: seq<Change>)
    decreases |cs|
  {
    cs != [] ==>
      && cs[0].actor in admins && MayManage(lists, cs[0].actor)
      && Authorized(Perform(lists, cs[0]), admins, cs[1..])
  }

  ghost predicate SomeoneManages(lists: RoleLists, admins: set<UserId>) {
    exists user :: user in admins && MayManage(lists, user)
  }

  lemma ActorIsUntouched(lists: RoleLists, c: Change)
    ensures RolesOf(Perform(lists, c), c.actor) == RolesOf(lists, c.actor)
  {
  }

  /** After any run of authorized changes some administrator still holds roles.manage. */
  lemma {:induction false} NobodyIsLockedOut(lists: RoleLists, admins: set<UserId>, cs: seq<Change>)
    requires SomeoneManages(lists, admins) && Authorized(lists, admins, cs)
    ensures SomeoneManages(PerformAll(lists, cs), admins)
    decreases |cs|
  {
    if cs != [] {
      ActorIsUntouched(lists, cs[0]);
      assert cs[0].actor in admins && MayManage(Perform(lists, cs[0]), cs[0].actor);
      NobodyIsLockedOut(Perform(lists, cs[0]), admins, cs[1..]);
    }
  }

  // ----- changes that were checked too early -----

  function RolesAfter(roles: seq<Role>, c: Change): seq<Role> {
    if !Judge(c).Applied? then roles else if c.Assign? then roles + [c.role] else Without(roles, c.role)
  }

  /** A change concerns its target alone, and of the target nothing but its own roles. */
  lemma ChangeIsLocal(lists: RoleLists, c: Change, user: UserId)
    ensures RolesOf(Perform(lists, c), user) ==
            if user == c.target then RolesAfter(RolesOf(lists, user), c) else RolesOf(lists, user)
  {
  }

  lemma PerformTwo(lists: RoleLists, c: Change, d: Change)
    ensures PerformAll(lists, [c, d]) == Perform(Perform(lists, c), d)
  {
    assert [c, d][1..] == [d] && [d][1..] == [];
    var one := Perform(lists, c);
    assert PerformAll(lists, [c, d]) == PerformAll(one, [d]);
    assert PerformAll(one, [d]) == PerformAll(Perform(one, d), []);
  }

  /** Both changes were checked against the same state and neither is refused. */
  ghost predicate BothChecked(lists: RoleLists, admins: set<UserId>, c: Change, d: Change) {
    && c.actor in admins && MayManage(lists, c.actor) && Judge(c).Applied?
    && d.actor in admins && MayManage(lists, d.actor) && Judge(d).Applied?
  }

  /** The actors act on each other, each change by itself takes the right from its target, and no
    third administrator has it. */
  ghost predicate DisarmEachOther(lists: RoleLists, admins: set<UserId>, c: Change, d: Change) {
    && c.target == d.actor && d.target == c.actor
    && !MayManage(Perform(lists, c), c.target) && !MayManage(Perform(lists, d), d.target)
    && forall user :: user in admins && user != c.actor && user != d.actor ==> !MayManage(lists, user)
  }

  lemma MutualEffect(lists: RoleLists, c: Change, d: Change, user: UserId)
    requires c.target != d.target
    ensures var z := Perform(Perform(lists, c), d);
            RolesOf(z, user) == if user == c.target then RolesOf(Perform(lists, c), user)
                                else if user == d.target then RolesOf(Perform(lists, d), user)
                                else RolesOf(lists, user)
  {
    ChangeIsLocal(Perform(lists, c), d, user);
    ChangeIsLocal(lists, c, user);
    ChangeIsLocal(lists, d, user);
  }

  lemma OnlyMutualLocksOut(lists: RoleLists, admins: set<UserId>, c: Change, d: Change)
    requires BothChecked(lists, admins, c, d)
    ensures SomeoneManages(Perform(Perform(lists, c), d), admins) || DisarmEachOther(lists, admins, c, d)
  {
    var z := Perform(Perform(lists, c), d);
    ChangeIsLocal(lists, c, c.actor);
    ChangeIsLocal(Perform(lists, c), d, c.actor);
    ChangeIsLocal(lists, c, d.actor);
    ChangeIsLocal(Perform(lists, c), d, d.actor);
    if !SomeoneManages(z, admins) {
      assert !MayManage(z, c.actor) && !MayManage(z, d.actor);
      MutualEffect(lists, c, d, c.target);
      MutualEffect(lists, c, d, d.target);
      forall user | user in admins && user != c.actor && user != d.actor ensures !MayManage(lists, user) {
        MutualEffect(lists, c, d, user);
        assert !MayManage(z, user);
      }
    }
  }

  lemma MutualLocksOut(lists: RoleLists, admins: set<UserId>, c: Change, d: Change)
    requires BothChecked(lists, admins, c, d) && DisarmEachOther(lists, admins, c, d)
    ensures !SomeoneManages(Perform(Perform(lists, c), d), admins)
  {
    forall user | user in admins ensures !MayManage(Perform(Perform(lists, c), d), user) {
      MutualEffect(lists, c, d, user);
    }
  }

  /** "At that moment" is essential, and this is exactly where it matters: of two changes checked
    against one state, the second write leaves nobody able to manage roles if and only if the two
    actors disarm each other and nobody else could. */
  lemma StaleChecksLockOutIff(lists: RoleLists, admins: set<UserId>, c: Change, d: Change)
    requires BothChecked(lists, admins, c, d)
    ensures !SomeoneManages(PerformAll(lists, [c, d]), admins) <==> DisarmEachOther(lists, admins, c, d)
  {
    PerformTwo(lists, c, d);
    OnlyMutualLocksOut(lists, admins, c, d);
    if DisarmEachOther(lists, admins, c, d) {
      MutualLocksOut(lists, admins, c, d);
    }
  }

  /** For instance: two administrators without roles, each given a desk by the other. */
  lemma StaleChecksLockOut(a: UserId, b: UserId, role: Role, other: Role)
    requires a != b && Known(role) && Known(other) && !role.SuperAdmin? && !other.SuperAdmin?
    ensures BothChecked(map[], {a, b}, Assign(a, b, role), Assign(b, a, other))
    ensures !SomeoneManages(PerformAll(map[], [Assign(a, b, role), Assign(b, a, other)]), {a, b})
  {
    DesksDisarm(a, b, role, other);
    StaleChecksLockOutIff(map[], {a, b}, Assign(a, b, role), Assign(b, a, other));
  }

  lemma DesksDisarm(a: UserId, b: UserId, role: Role, other: Role)
    requires a != b && Known(role) && Known(other) && !role.SuperAdmin? && !other.SuperAdmin?
    ensures BothChecked(map[], {a, b}, Assign(a, b, role), Assign(b, a, other))
    ensures DisarmEachOther(map[], {a, b}, Assign(a, b, role), Assign(b, a, other))
  {
    WhoManagesRoles([]);
    FirstDeskDisarms(Assign(a, b, role));
    FirstDeskDisarms(Assign(b, a, other));
  }

  lemma FirstDeskDisarms(c: Change)
    requires c.Assign? && Judge(c).Applied? && !c.role.SuperAdmin?
    ensures !MayManage(Perform(map[], c), c.target)
  {
    ChangeIsLocal(map[], c, c.target);
    assert [] + [c.role] == [c.role];
    WhoManagesRoles([c.role]);
  }
}

/** The repository's slices: appended to, and compacted in place on revocation. */
module AdminRepository {
  import opened AdminRbac
  import opened AdminRoles

  /** A Go slice: a window onto a buffer that may be larger. */
  datatype Slice = Slice(buf: array<Role>, len: nat)

  class AdminRepository {
    var userRoles: map<UserId, Slice>
    ghost var lists: RoleLists

    constructor ()
      ensures Valid() && lists == map[]
    {
      userRoles, lists := map[], map[];
    }

    ghost function Buffers(): set<object>
      reads `userRoles
    {
      set user | user in userRoles :: userRoles[user].buf
    }

    /** No two accounts share a buffer, and an account without roles has no entry. */
    ghost predicate Valid()
      reads `userRoles, `lists, Buffers()
    {
      && lists.Keys == userRoles.Keys
      && (forall u, v :: u in userRoles && v in userRoles && userRoles[u].buf == userRoles[v].buf ==> u == v)
      && (forall u :: u in userRoles ==>
            && userRoles[u].len <= userRoles[u].buf.Length
            && userRoles[u].buf[..userRoles[u].len] == lists[u] && lists[u] != [])
    }

    /** Returns a copy, never the slice itself. */
    method GetUserRoles(user: UserId) returns (roles: seq<Role>)
      requires Valid()
      ensures roles == RolesOf(lists, user)
    {
      if user !in userRoles {
        return [];
      }
      return userRoles[user].buf[..userRoles[user].len];
    }

    /** append: in place while the buffer has room, else into a larger one. */
    method AssignUserRole(user: UserId, role: Role)
      requires Valid()
      modifies `userRoles, `lists, Buffers()
      ensures Valid() && fresh(Buffers() - old(Buffers()))
      ensures lists == Append(old(lists), user, role)
    {
      if user in userRoles && userRoles[user].len < userRoles[user].buf.Length {
        AppendInPlace(user, role);
      } else {
        AppendGrown(user, role);
      }
    }

    method AppendInPlace(user: UserId, role: Role)
      requires Valid() && user in userRoles && userRoles[user].len < userRoles[user].buf.Length
      modifies `userRoles, `lists, userRoles[user].buf
      ensures Valid() && Buffers() <= old(Buffers())
      ensures lists == Append(old(lists), user, role)
    {
      var s := userRoles[user];
      s.buf[s.len] := role;
      assert s.buf[..s.len + 1] == lists[user] + [role];
      Store(user, Slice(s.buf, s.len + 1), lists[user] + [role]);
    }

    /** Give the account a slice: its own buffer, or one nobody has. */
    method Store(user: UserId, s: Slice, ghost roles: seq<Role>)
      requires lists.Keys == userRoles.Keys
      requires forall u, v :: u in userRoles && v in userRoles && userRoles[u].buf == userRoles[v].buf ==> u == v
      requires forall u :: u in userRoles && u != user ==>
        && userRoles[u].len <= userRoles[u].buf.Length && userRoles[u].buf[..userRoles[u].len] == lists[u] && lists[u] != []
        && userRoles[u].buf != s.buf
      requires s.len <= s.buf.Length && s.buf[..s.len] == roles && roles != []
      modifies `userRoles, `lists
      ensures Valid() && lists == old(lists)[user := roles]
      ensures Buffers() <= old(Buffers()) + {s.buf}
      ensures userRoles == old(userRoles)[user := s]
    {
      userRoles, lists := userRoles[user := s], lists[user := roles];
    }

    /** Forget an account, whatever its buffer now holds. */
    method Drop(user: UserId)
      requires lists.Keys == userRoles.Keys
      requires forall u, v :: u in userRoles && v in userRoles && userRoles[u].buf == userRoles[v].buf ==> u == v
      requires forall u :: u in userRoles && u != user ==>
        userRoles[u].len <= userRoles[u].buf.Length && userRoles[u].buf[..userRoles[u].len] == lists[u] && lists[u] != []
      modifies `userRoles, `lists
      ensures Valid() && lists == old(lists) - {user} && Buffers() <= old(Buffers())
    {
      userRoles, lists := userRoles - {user}, lists - {user};
    }

    method AppendGrown(user: UserId, role: Role)
      requires Valid()
      modifies `userRoles, `lists
      ensures Valid() && fresh(Buffers() - old(Buffers()))
      ensures lists == Append(old(lists), user, role)
    {
      var existing := GetUserRoles(user);
      var n := |existing|;
      var grown := new Role[2 * n + 1](i => if 0 <= i < n then existing[i] else role);
      assert grown[..n + 1] == existing + [role];
      Store(user, Slice(grown, n + 1), existing + [role]);
    }

    /** The kept roles are written over the front of the very buffer being read. */
    method Compact(buf: array<Role>, n: nat, role: Role) returns (kept: nat)
      requires n <= buf.Length
      modifies buf
      ensures kept <= n && buf[..kept] == Without(old(buf[..n]), role)
    {
      kept := 0;
      for i := 0 to n
        invariant kept <= i
        invariant buf[..kept] == Without(old(buf[..i]), role)
        invariant forall j :: i <= j < n ==> buf[j] == old(buf[j])
      {
        ghost var seen := old(buf[..i + 1]);
        assert seen[..i] == old(buf[..i]);
        if buf[i] != role {
          buf[kept] := buf[i];
          kept := kept + 1;
          assert buf[..kept] == buf[..kept - 1] + [buf[kept - 1]];
        }
      }
    }

    method RevokeUserRole(user: UserId, role: Role)
      requires Valid()
      modifies `userRoles, `lists, Buffers()
      ensures Valid() && Buffers() <= old(Buffers())
      ensures lists == Remove(old(lists), user, role)
    {
      if user in userRoles {
        var s := userRoles[user];
        var kept := Compact(s.buf, s.len, role);
        if kept == 0 {
          Drop(user);
        } else {
          Store(user, Slice(s.buf, kept), s.buf[..kept]);
        }
      }
    }
  }

  /** The role calls of the admin service. */
  class AdminService {
    const repo: AdminRepository

    constructor (repo: AdminRepository)
      ensures this.repo == repo
    {
      this.repo := repo;
    }

    /** The write is what counts: an audit entry that fails is reported, and the role assigned. */
    method AssignRole(actor: UserId, target: UserId, role: Role, f: Faults) returns (verdict: Verdict)
      requires repo.Valid()
      modifies repo, repo.Buffers()
      ensures repo.Valid() && fresh(repo.Buffers() - old(repo.Buffers()))
      ensures verdict == Answer(Assign(actor, target, role), f)
      ensures repo.lists == if Lands(Assign(actor, target, role), f)
                            then Perform(old(repo.lists), Assign(actor, target, role)) else old(repo.lists)
    {
      if role == UnknownRole("") {
        return CodeRequired;
      }
      if !Known(role) {
        return UnknownRoleCode;
      }
      if actor == target {
        return CannotChangeSelf;
      }
      if f.lookup {
        return LookupFailed;
      }
      if f.write {
        return WriteFailed;
      }
      repo.AssignUserRole(target, role);
      return if f.audit then AuditFailed else Applied;
    }

    method RevokeRole(actor: UserId, target: UserId, role: Role, f: Faults) returns (verdict: Verdict)
      requires repo.Valid()
      modifies repo, repo.Buffers()
      ensures repo.Valid()
      ensures verdict == Answer(Revoke(actor, target, role), f)
      ensures repo.lists == if Lands(Revoke(actor, target, role), f)
                            then Perform(old(repo.lists), Revoke(actor, target, role)) else old(repo.lists)
    {
      if role == UnknownRole("") {
        return CodeRequired;
      }
      if actor == target {
        return CannotChangeSelf;
      }
      if f.lookup {
        return LookupFailed;
      }
      if f.write {
        return WriteFailed;
      }
      repo.RevokeUserRole(target, role);
      return if f.audit then AuditFailed else Applied;
    }

    method CheckPermission(admin: UserId, required: Permission) returns (has: bool)
      requires repo.Valid()
      ensures has <==> required in Effective(RolesOf(repo.lists, admin))
    {
      var roles := repo.GetUserRoles(admin);
      var effective := EffectivePermissions(roles);
      has := HasPermission(effective, required);
    }
  }
}
