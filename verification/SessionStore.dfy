/** The session table of the auth repository: rows and what each repository call does to them.

  Rows are keyed by the hash of the refresh token. The hash is taken to be injective, so a
  `Token` stands both for the bearer value and for its hash.
 */
module SessionStore {
  import opened Common

  type UserId = nat
  type Token = nat
  type SessionId = nat

  datatype Session = Session(
    id: SessionId,
    user: UserId,
    remember: bool,
    expiresAt: Time,
    rotatedFrom: Option<SessionId>,
    revokedAt: Option<Time>)
  {
    predicate Live() { revokedAt.None? }

    function Revoked(now: Time): Session { this.(revokedAt := Some(now)) }

    /** Everything but the revocation stamp: no repository call ever rewrites these. */
    predicate SameIdentity(other: Session) {
      this.(revokedAt := None) == other.(revokedAt := None)
    }
  }

  type Sessions = map<Token, Session>

  /** Both revocations restamp rows that were already revoked. */
  function RevokeId(rows: Sessions, id: SessionId, now: Time): Sessions {
    map k | k in rows :: if rows[k].id == id then rows[k].Revoked(now) else rows[k]
  }

  function RevokeUser(rows: Sessions, user: UserId, now: Time): Sessions {
    map k | k in rows :: if rows[k].user == user then rows[k].Revoked(now) else rows[k]
  }

  predicate IdKnown(rows: Sessions, id: SessionId) {
    exists k :: k in rows && rows[k].id == id
  }

  predicate IdLive(rows: Sessions, id: SessionId) {
    exists k :: k in rows && rows[k].id == id && rows[k].Live()
  }

  datatype RotateResult = Rotated | AlreadyRotated | NotFound | TokenTaken

  /** One unit: revoke the old row only if it is still live, then insert its successor. */
  function Rotate(rows: Sessions, id: SessionId, token: Token, next: Session, now: Time): (Sessions, RotateResult) {
    if !IdKnown(rows, id) then (rows, NotFound)
    else if !IdLive(rows, id) then (rows, AlreadyRotated)
    else if token in rows then (rows, TokenTaken)
    else (RevokeId(rows, id, now)[token := next.(rotatedFrom := Some(id))], Rotated)
  }

  /** A rotation answers by what the table holds, and only one that goes through writes: it stamps the
    rows with the old id and adds the successor under a token nobody had. */
  lemma RotationAnswers(rows: Sessions, id: SessionId, token: Token, next: Session, now: Time)
    ensures var (b, result) := Rotate(rows, id, token, next, now);
            && (result.NotFound? <==> forall k :: k in rows ==> rows[k].id != id)
            && (result.Rotated? || result.TokenTaken? <==> exists k :: k in rows && rows[k].id == id && rows[k].revokedAt == None)
            && (result.Rotated? || result.TokenTaken? ==> (result.TokenTaken? <==> token in rows))
            && (!result.Rotated? ==> b == rows)
            && (result.Rotated? ==>
                  && b.Keys == rows.Keys + {token} && b[token] == next.(rotatedFrom := Some(id))
                  && forall k :: k in rows ==>
                       (b[k] == if rows[k].id == id then rows[k].(revokedAt := Some(now)) else rows[k]))
  {
  }

  ghost predicate NoLiveSession(rows: Sessions, user: UserId) {
    forall k :: k in rows && rows[k].user == user ==> !rows[k].Live()
  }

  /** Every row of the account carries this very stamp, whatever it carried before; the rest is as
    it was. */
  ghost predicate StampedFor(a: Sessions, b: Sessions, user: UserId, now: Time) {
    && b.Keys == a.Keys
    && forall k :: k in a ==> b[k] == if a[k].user == user then a[k].(revokedAt := Some(now)) else a[k]
  }
}
