/** The shape of the session table in every reachable state: disjoint linear chains, each
  rooted at a login, each with at most its last row live.
 */
module SessionForest {
  import opened Common
  import opened SessionStore

  /** Ids name rows, and every rotated row points at an older, revoked row it inherits from. */
  ghost predicate Forest(rows: Sessions, nextId: SessionId) {
    && (forall k :: k in rows ==> rows[k].id < nextId)
    && IdsUnique(rows)
    && (forall k :: k in rows && rows[k].rotatedFrom.Some? ==> ParentOk(rows, k))
    && SuccessorsUnique(rows)
  }

  ghost predicate IdsUnique(rows: Sessions) {
    forall k, l :: k in rows && l in rows && rows[k].id == rows[l].id ==> k == l
  }

  ghost predicate SuccessorsUnique(rows: Sessions) {
    forall k, l :: k in rows && l in rows && rows[k].rotatedFrom.Some? && rows[k].rotatedFrom == rows[l].rotatedFrom
      ==> k == l
  }

  ghost predicate IsParent(rows: Sessions, p: Token, k: Token) {
    && p in rows && k in rows
    && rows[k].rotatedFrom == Some(rows[p].id)
    && rows[p].id < rows[k].id
    && rows[p].user == rows[k].user
    && rows[p].remember == rows[k].remember
    && rows[p].expiresAt == rows[k].expiresAt
    && !rows[p].Live()
  }

  ghost predicate ParentOk(rows: Sessions, k: Token) {
    exists p :: IsParent(rows, p, k)
  }

  // ----- the three ways the table changes -----

  /** Some rows acquire a (possibly newer) revocation stamp; nothing else happens. */
  ghost predicate Restamped(a: Sessions, b: Sessions) {
    && a.Keys == b.Keys
    && forall k :: k in a ==> a[k].SameIdentity(b[k]) && (b[k].Live() ==> a[k].Live())
  }

  ghost predicate RootAdded(a: Sessions, b: Sessions, k: Token, r: Session) {
    k !in a && b == a[k := r] && r.rotatedFrom.None? && r.Live()
  }

  ghost predicate ChildAdded(a: Sessions, b: Sessions, p: Token, k: Token, r: Session) {
    && p in a && a[p].Live() && k !in a
    && r.Live()
    && r.rotatedFrom == Some(a[p].id)
    && r.user == a[p].user && r.remember == a[p].remember && r.expiresAt == a[p].expiresAt
    && exists now :: b == a[p := a[p].Revoked(now)][k := r]
  }

  lemma RestampedKeepsForest(a: Sessions, b: Sessions, nextId: SessionId)
    requires Forest(a, nextId) && Restamped(a, b)
    ensures Forest(b, nextId)
  {
    forall k | k in b && b[k].rotatedFrom.Some? ensures ParentOk(b, k) {
      var p :| IsParent(a, p, k);
      assert IsParent(b, p, k);
    }
  }

  lemma RootKeepsForest(a: Sessions, b: Sessions, nextId: SessionId, k: Token, r: Session)
    requires Forest(a, nextId) && RootAdded(a, b, k, r) && r.id == nextId
    ensures Forest(b, nextId + 1)
  {
    forall l | l in b && b[l].rotatedFrom.Some? ensures ParentOk(b, l) {
      var p :| IsParent(a, p, l);
      assert IsParent(b, p, l);
    }
  }

  /** A live row has no successor yet: a successor's parent is revoked. */
  lemma LiveHasNoSuccessor(a: Sessions, nextId: SessionId, p: Token, l: Token)
    requires Forest(a, nextId) && p in a && a[p].Live() && l in a
    ensures a[l].rotatedFrom != Some(a[p].id)
  {
    if a[l].rotatedFrom.Some? {
      var q :| IsParent(a, q, l);
    }
  }

  lemma ChildKeepsParents(a: Sessions, b: Sessions, nextId: SessionId, p: Token, k: Token, r: Session)
    requires Forest(a, nextId) && ChildAdded(a, b, p, k, r) && r.id == nextId
    ensures IsParent(b, p, k)
    ensures forall l :: l in b && b[l].rotatedFrom.Some? ==> ParentOk(b, l)
  {
    assert IsParent(b, p, k);
    forall l | l in b && b[l].rotatedFrom.Some? ensures ParentOk(b, l) {
      if l != k {
        var q :| IsParent(a, q, l);
        assert IsParent(b, q, l);
      }
    }
  }

  lemma ChildKeepsForest(a: Sessions, b: Sessions, nextId: SessionId, p: Token, k: Token, r: Session)
    requires Forest(a, nextId) && ChildAdded(a, b, p, k, r) && r.id == nextId
    ensures Forest(b, nextId + 1)
    ensures IsParent(b, p, k)
  {
    ChildKeepsParents(a, b, nextId, p, k, r);
    forall l | l in a ensures a[l].rotatedFrom != Some(a[p].id) {
      LiveHasNoSuccessor(a, nextId, p, l);
    }
  }

  // ----- chains -----

  ghost function Parent(rows: Sessions, k: Token): (p: Token)
    requires k in rows && ParentOk(rows, k)
    ensures IsParent(rows, p, k)
  {
    var p :| IsParent(rows, p, k); p
  }

  /** The login at the start of a row's chain. */
  ghost function Root(rows: Sessions, nextId: SessionId, k: Token): (root: Token)
    requires Forest(rows, nextId) && k in rows
    ensures root in rows && rows[root].rotatedFrom.None?
    decreases rows[k].id
  {
    if rows[k].rotatedFrom.None? then k else Root(rows, nextId, Parent(rows, k))
  }

  /** How many rotations separate a row from its login. */
  ghost function Depth(rows: Sessions, nextId: SessionId, k: Token): nat
    requires Forest(rows, nextId) && k in rows
    decreases rows[k].id
  {
    if rows[k].rotatedFrom.None? then 0 else 1 + Depth(rows, nextId, Parent(rows, k))
  }

  /** Chains are linear: a chain has at most one row at each depth. */
  lemma {:induction false} OneRowPerDepth(rows: Sessions, nextId: SessionId, k: Token, l: Token)
    requires Forest(rows, nextId) && k in rows && l in rows
    requires Root(rows, nextId, k) == Root(rows, nextId, l)
    requires Depth(rows, nextId, k) == Depth(rows, nextId, l)
    ensures k == l
    decreases rows[k].id
  {
    if rows[k].rotatedFrom.Some? {
      OneRowPerDepth(rows, nextId, Parent(rows, k), Parent(rows, l));
    }
  }

  /** Every row of a chain but the deepest is revoked. */
  lemma {:induction false} ShallowerIsRevoked(rows: Sessions, nextId: SessionId, k: Token, l: Token)
    requires Forest(rows, nextId) && k in rows && l in rows
    requires Root(rows, nextId, k) == Root(rows, nextId, l)
    requires Depth(rows, nextId, k) < Depth(rows, nextId, l)
    ensures !rows[k].Live()
    decreases rows[l].id
  {
    var p := Parent(rows, l);
    if Depth(rows, nextId, k) == Depth(rows, nextId, p) {
      OneRowPerDepth(rows, nextId, k, p);
    } else {
      ShallowerIsRevoked(rows, nextId, k, p);
    }
  }

  lemma OneLivePerChain(rows: Sessions, nextId: SessionId, k: Token, l: Token)
    requires Forest(rows, nextId) && k in rows && l in rows
    requires Root(rows, nextId, k) == Root(rows, nextId, l)
    requires rows[k].Live() && rows[l].Live()
    ensures k == l
  {
    if Depth(rows, nextId, k) < Depth(rows, nextId, l) {
      ShallowerIsRevoked(rows, nextId, k, l);
    } else if Depth(rows, nextId, l) < Depth(rows, nextId, k) {
      ShallowerIsRevoked(rows, nextId, l, k);
    } else {
      OneRowPerDepth(rows, nextId, k, l);
    }
  }

  /** A row keeps the policy and the absolute expiry its chain started with. */
  lemma {:induction false} RootFixesThePolicy(rows: Sessions, nextId: SessionId, k: Token)
    requires Forest(rows, nextId) && k in rows
    ensures var root := Root(rows, nextId, k);
            && rows[k].user == rows[root].user
            && rows[k].remember == rows[root].remember
            && rows[k].expiresAt == rows[root].expiresAt
    decreases rows[k].id
  {
    if rows[k].rotatedFrom.Some? {
      RootFixesThePolicy(rows, nextId, Parent(rows, k));
    }
  }

  /** Old rows stay where they were: later rows never change the chain a row is in. */
  lemma {:induction false} RootIsStable(a: Sessions, m: SessionId, b: Sessions, n: SessionId, k: Token)
    requires Forest(a, m) && Forest(b, n) && k in a
    requires forall l :: l in a ==> l in b && a[l].SameIdentity(b[l])
    ensures Root(b, n, k) == Root(a, m, k)
    decreases a[k].id
  {
    if a[k].rotatedFrom.Some? {
      var p := Parent(a, k);
      assert b[Parent(b, k)].id == b[p].id;
      RootIsStable(a, m, b, n, p);
    }
  }

  /** No row of the chain that starts at `root` is live. */
  ghost predicate ChainDead(rows: Sessions, nextId: SessionId, root: Token)
    requires Forest(rows, nextId)
  {
    forall k :: k in rows && Root(rows, nextId, k) == root ==> !rows[k].Live()
  }

  // ----- counting -----

  ghost function LiveOf(rows: Sessions, user: UserId): set<Token> {
    set k | k in rows && rows[k].user == user && rows[k].Live()
  }

  lemma RestampedLive(a: Sessions, b: Sessions, user: UserId)
    requires Restamped(a, b)
    ensures LiveOf(b, user) <= LiveOf(a, user) && |LiveOf(b, user)| <= |LiveOf(a, user)|
  {
    SubsetSize(LiveOf(b, user), LiveOf(a, user));
  }

  lemma RootLive(a: Sessions, b: Sessions, k: Token, r: Session, user: UserId)
    requires RootAdded(a, b, k, r)
    ensures LiveOf(b, user) == LiveOf(a, user) + (if user == r.user then {k} else {})
    ensures |LiveOf(b, user)| == |LiveOf(a, user)| + (if user == r.user then 1 else 0)
  {
    assert LiveOf(b, user) == LiveOf(a, user) + (if user == r.user then {k} else {});
  }

  lemma ChildLive(a: Sessions, b: Sessions, p: Token, k: Token, r: Session, user: UserId)
    requires ChildAdded(a, b, p, k, r)
    ensures |LiveOf(b, user)| == |LiveOf(a, user)|
  {
    if user == r.user {
      assert LiveOf(b, user) == LiveOf(a, user) - {p} + {k};
    } else {
      assert LiveOf(b, user) == LiveOf(a, user);
    }
  }
}
