/** Refresh-token sessions: internal/service/session over the sessions table. */
module Sessions {
  import opened Wrappers
  import opened Orders

  /** A stored session. Its id is its position in the table; the raw token is represented by its hash. */
  datatype Session = Session(user: Uuid, hash: string, createdAt: int, expiresAt: int, revokedAt: Option<int>,
                             userAgent: string)

  type Table = seq<Session>

  /** Which calls of a request succeed. */
  datatype Faults = Faults(lookupOk: bool, revokeOk: bool, accessOk: bool, tokenOk: bool, insertOk: bool)

  /** SessionGetByRefreshHash; the column is UNIQUE. */
  function Find(t: Table, hash: string): Option<nat> {
    if t == [] then None
    else if t[|t| - 1].hash == hash then Some(|t| - 1)
    else Find(t[..|t| - 1], hash)
  }

  lemma {:induction false} FindExactly(t: Table, hash: string)
    ensures match Find(t, hash)
            case Some(i) => i < |t| && t[i].hash == hash
            case None => forall i :: 0 <= i < |t| ==> t[i].hash != hash
  {
    if t != [] { FindExactly(t[..|t| - 1], hash); }
  }

  /** A session Refresh would accept at this time: not revoked, and the time is not after its expiry. */
  predicate Refreshable(s: Session, now: int) { s.revokedAt.None? && !(now > s.expiresAt) }

  /** Issue: the new table and the hash of the token handed out, None on error. */
  function Issue(t: Table, user: Uuid, userAgent: string, now: int, life: int, hash: string, f: Faults): (Table, bool) {
    if !f.accessOk || !f.tokenOk || !f.insertOk || Find(t, hash).Some? then (t, false)
    else (t + [Session(user, hash, now, now + life, None, userAgent)], true)
  }

  function Revoked(t: Table, i: nat, now: int): Table
    requires i < |t|
  {
    t[i := t[i].(revokedAt := Some(now))]
  }

  datatype Request =
    | Login(user: Uuid, userAgent: string, now: int, newHash: string, faults: Faults)
    | Refresh(hash: string, now: int, newHash: string, faults: Faults)
    | Logout(hash: string, now: int, faults: Faults)
    | RevokeOne(user: Uuid, id: nat, now: int, faults: Faults)

  /** The session a refresh request gets past the checks with. */
  function Accepted(t: Table, hash: string, now: int, f: Faults): (found: Option<nat>)
  {
    FindExactly(t, hash);
    var i := Find(t, hash);
    if !f.lookupOk || i.None? || !Refreshable(t[i.value], now) || !f.revokeOk then None else i
  }

  lemma AcceptedExactly(t: Table, hash: string, now: int, f: Faults)
    ensures match Accepted(t, hash, now, f)
            case Some(i) => i < |t| && t[i].hash == hash && Refreshable(t[i], now)
            case None => true
  {
    FindExactly(t, hash);
  }

  /** The table after one request and whether it returned without error. */
  function Apply(t: Table, r: Request, life: int): (Table, bool) {
    match r
    case Login(user, userAgent, now, newHash, f) => Issue(t, user, userAgent, now, life, newHash, f)
    case Refresh(hash, now, newHash, f) =>
      AcceptedExactly(t, hash, now, f);
      (match Accepted(t, hash, now, f)
       case None => (t, false)
       case Some(i) => Issue(Revoked(t, i, now), t[i].user, t[i].userAgent, now, life, newHash, f))
    case Logout(hash, now, f) =>
      FindExactly(t, hash);
      (match Find(t, hash)
       case None => (t, f.revokeOk)
       case Some(i) => if f.revokeOk then (Revoked(t, i, now), true) else (t, false))
    case RevokeOne(user, id, now, f) =>
      if !f.revokeOk || id >= |t| || t[id].user != user || t[id].revokedAt.Some? then (t, false)
      else (Revoked(t, id, now), true)
  }

  function Run(rs: seq<Request>, life: int): Table {
    if rs == [] then [] else Apply(Run(rs[..|rs| - 1], life), rs[|rs| - 1], life).0
  }

  /** What the Privacy page shows of a session. */
  datatype Active = Active(id: nat, userAgent: string, createdAt: int, expiresAt: int, current: bool)

  /** SessionListActiveForUser, as ids, newest first. */
  function ActiveIds(t: Table, user: Uuid, now: int): seq<nat> {
    if t == [] then []
    else
      var s := t[|t| - 1];
      (if s.user == user && s.revokedAt.None? && s.expiresAt > now then [|t| - 1] else [])
        + ActiveIds(t[..|t| - 1], user, now)
  }

  predicate Descending(ids: seq<nat>) { forall a, b :: 0 <= a < b < |ids| ==> ids[a] > ids[b] }

  lemma {:induction false} ActiveIdsExactly(t: Table, user: Uuid, now: int)
    ensures forall i :: i in ActiveIds(t, user, now) <==>
            0 <= i < |t| && t[i].user == user && t[i].revokedAt.None? && t[i].expiresAt > now
  {
    if t != [] { ActiveIdsExactly(t[..|t| - 1], user, now); }
  }

  lemma DescendingCons(n: nat, ids: seq<nat>)
    requires Descending(ids) && forall i :: i in ids ==> i < n
    ensures Descending([n] + ids)
  {
    assert forall b :: 1 <= b < |[n] + ids| ==> ([n] + ids)[b] == ids[b - 1] && ids[b - 1] in ids;
  }

  lemma {:induction false} NewestFirst(t: Table, user: Uuid, now: int)
    ensures Descending(ActiveIds(t, user, now))
  {
    if t != [] {
      var init := t[..|t| - 1];
      NewestFirst(init, user, now);
      ActiveIdsExactly(init, user, now);
      DescendingCons(|t| - 1, ActiveIds(init, user, now));
    }
  }

  /** The service over its stored table. */
  class Service {
    const life: int
    var sessions: Table

    constructor (refreshDuration: int)
      ensures life == refreshDuration && sessions == []
    {
      life := refreshDuration;
      sessions := [];
    }

    method Issue(user: Uuid, userAgent: string, now: int, hash: string, f: Faults) returns (ok: bool)
      modifies this`sessions
      ensures (sessions, ok) == Apply(old(sessions), Login(user, userAgent, now, hash, f), life)
    {
      if !f.accessOk || !f.tokenOk { return false; }
      if !f.insertOk || Find(sessions, hash).Some? { return false; }
      sessions := sessions + [Session(user, hash, now, now + life, None, userAgent)];
      ok := true;
    }

    method Refresh(hash: string, now: int, newHash: string, f: Faults) returns (ok: bool)
      modifies this`sessions
      ensures (sessions, ok) == Apply(old(sessions), Request.Refresh(hash, now, newHash, f), life)
    {
      var found := Find(sessions, hash);
      FindExactly(sessions, hash);
      if !f.lookupOk || found.None? { return false; }
      var sess := sessions[found.value];
      if sess.revokedAt.Some? || now > sess.expiresAt { return false; }
      if !f.revokeOk { return false; }
      sessions := sessions[found.value := sess.(revokedAt := Some(now))];
      ok := Issue(sess.user, sess.userAgent, now, newHash, f);
    }

    method Revoke(hash: string, now: int, f: Faults) returns (ok: bool)
      modifies this`sessions
      ensures (sessions, ok) == Apply(old(sessions), Logout(hash, now, f), life)
    {
      if !f.revokeOk { return false; }
      var found := Find(sessions, hash);
      FindExactly(sessions, hash);
      if found.Some? { sessions := sessions[found.value := sessions[found.value].(revokedAt := Some(now))]; }
      ok := true;
    }

    method RevokeForUser(user: Uuid, id: nat, now: int, f: Faults) returns (ok: bool)
      modifies this`sessions
      ensures (sessions, ok) == Apply(old(sessions), RevokeOne(user, id, now, f), life)
    {
      if !f.revokeOk { return false; }
      if id >= |sessions| || sessions[id].user != user || sessions[id].revokedAt.Some? { return false; }
      sessions := sessions[id := sessions[id].(revokedAt := Some(now))];
      ok := true;
    }

    /** ListActive: currentHash is "" when the caller has no refresh cookie. */
    method ListActive(user: Uuid, currentHash: string, now: int) returns (active: seq<Active>)
      ensures |active| == |ActiveIds(sessions, user, now)| && Descending(ActiveIds(sessions, user, now))
      ensures forall k :: 0 <= k < |active| ==>
                var i := ActiveIds(sessions, user, now)[k];
                && i < |sessions|
                && active[k] == Active(i, sessions[i].userAgent, sessions[i].createdAt, sessions[i].expiresAt,
                                       currentHash != "" && sessions[i].hash == currentHash)
    {
      var ids := ActiveIds(sessions, user, now);
      ActiveIdsExactly(sessions, user, now);
      NewestFirst(sessions, user, now);
      assert forall k :: 0 <= k < |ids| ==> ids[k] in ids;
      active := [];
      for k := 0 to |ids|
        invariant |active| == k
        invariant forall j :: 0 <= j < k ==>
                    active[j] == Active(ids[j], sessions[ids[j]].userAgent, sessions[ids[j]].createdAt,
                                        sessions[ids[j]].expiresAt,
                                        currentHash != "" && sessions[ids[j]].hash == currentHash)
      {
        var s := sessions[ids[k]];
        active := active + [Active(ids[k], s.userAgent, s.createdAt, s.expiresAt, currentHash != ""
                                   && s.hash == currentHash)];
      }
    }
  }
}
