/** What every serialised run of session requests keeps. */
module SessionRuns {
  import opened Wrappers
  import opened Orders
  import opened Sessions

  predicate UniqueHashes(t: Table) { forall i, j :: 0 <= i < j < |t| ==> t[i].hash != t[j].hash }

  /** Sessions are only ever appended and revoked; a revoked one never becomes active again. */
  predicate Extends(t: Table, t': Table) {
    && |t| <= |t'|
    && forall i :: 0 <= i < |t| ==>
         && t'[i] == t[i].(revokedAt := t'[i].revokedAt)
         && (t[i].revokedAt.Some? ==> t'[i].revokedAt.Some?)
  }

  lemma ApplyExtends(t: Table, r: Request, life: int)
    requires UniqueHashes(t)
    ensures UniqueHashes(Apply(t, r, life).0) && Extends(t, Apply(t, r, life).0)
  {
    if r.Refresh? {
      AcceptedExactly(t, r.hash, r.now, r.faults);
      var i := Accepted(t, r.hash, r.now, r.faults);
      if i.Some? { FindExactly(Revoked(t, i.value, r.now), r.newHash); }
    } else if r.Login? {
      FindExactly(t, r.newHash);
    } else if r.Logout? {
      FindExactly(t, r.hash);
    }
  }

  lemma {:induction false} RunUnique(rs: seq<Request>, life: int)
    ensures UniqueHashes(Run(rs, life))
  {
    if rs != [] {
      RunUnique(rs[..|rs| - 1], life);
      ApplyExtends(Run(rs[..|rs| - 1], life), rs[|rs| - 1], life);
    }
  }

  /** Over any longer run, every session keeps its user, hash, agent and expiry, and stays revoked once revoked. */
  lemma {:induction false} RunExtends(rs: seq<Request>, n: nat, life: int)
    requires n <= |rs|
    ensures Extends(Run(rs[..n], life), Run(rs, life))
    decreases |rs|
  {
    if n == |rs| {
      assert rs[..n] == rs;
    } else {
      var init := rs[..|rs| - 1];
      RunExtends(init, n, life);
      assert init[..n] == rs[..n];
      RunUnique(init, life);
      ApplyExtends(Run(init, life), rs[|rs| - 1], life);
    }
  }

  /** The n-th request refreshes with this token and gets past the checks. */
  predicate Succeeds(rs: seq<Request>, n: nat, hash: string, life: int)
    requires n < |rs|
  {
    rs[n].Refresh? && rs[n].hash == hash && Accepted(Run(rs[..n], life), hash, rs[n].now, rs[n].faults).Some?
  }

  /** Each refresh token gets past the checks at most once in a run. */
  lemma RefreshOnce(rs: seq<Request>, m: nat, n: nat, hash: string, life: int)
    requires m < n < |rs| && Succeeds(rs, m, hash, life)
    ensures !Succeeds(rs, n, hash, life)
  {
    var t := Run(rs[..m], life);
    AcceptedExactly(t, hash, rs[m].now, rs[m].faults);
    var i := Accepted(t, hash, rs[m].now, rs[m].faults).value;
    var t1 := Run(rs[..m + 1], life);
    assert rs[..m + 1][..m] == rs[..m];
    assert t1 == Apply(t, rs[m], life).0;
    assert i < |t1| && t1[i].hash == hash && t1[i].revokedAt.Some?;
    RunExtends(rs[..n], m + 1, life);
    assert rs[..n][..m + 1] == rs[..m + 1];
    var t2 := Run(rs[..n], life);
    RunUnique(rs[..n], life);
    FindExactly(t2, hash);
  }

  // ---- when a token is good ----

  /** Some session with this hash was created at this time and has not been revoked. */
  predicate Open(t: Table, hash: string, since: int) {
    exists i :: 0 <= i < |t| && t[i].hash == hash && t[i].createdAt == since && t[i].revokedAt.None?
  }

  /** The request hands out a token with this hash. */
  predicate Opens(t: Table, r: Request, hash: string, since: int, life: int) {
    (r.Login? || r.Refresh?) && r.newHash == hash && r.now == since && Apply(t, r, life).1
  }

  /** A session with this hash is neither revoked nor past its end. */
  predicate Usable(t: Table, hash: string, now: int) {
    exists i :: 0 <= i < |t| && t[i].hash == hash && t[i].revokedAt.None? && now <= t[i].expiresAt
  }

  /** The request revokes the session with this hash. */
  predicate Closes(t: Table, r: Request, hash: string) {
    match r
    case Login(_, _, _, _, _) => false
    case Refresh(h, now, _, f) => h == hash && f.lookupOk && f.revokeOk && Usable(t, hash, now)
    case Logout(h, _, f) => h == hash && f.revokeOk
    case RevokeOne(user, id, _, f) => f.revokeOk && id < |t| && t[id].user == user && t[id].hash == hash
  }

  /** A refresh gets past the checks exactly with a good token, if its lookup and its revocation succeed. */
  lemma AcceptedIff(t: Table, hash: string, now: int, f: Faults)
    requires UniqueHashes(t)
    ensures Accepted(t, hash, now, f).Some? <==> f.lookupOk && f.revokeOk && Usable(t, hash, now)
  {
    FindExactly(t, hash);
    if Usable(t, hash, now) {
      var i :| 0 <= i < |t| && t[i].hash == hash && t[i].revokedAt.None? && now <= t[i].expiresAt;
      assert Find(t, hash) == Some(i);
    }
  }

  lemma RevokedCloses(t: Table, i: nat, now: int, hash: string, since: int)
    requires UniqueHashes(t) && i < |t|
    ensures Open(Revoked(t, i, now), hash, since) <==> Open(t, hash, since) && t[i].hash != hash
  {
    var t' := Revoked(t, i, now);
    if Open(t', hash, since) {
      var j :| 0 <= j < |t'| && t'[j].hash == hash && t'[j].createdAt == since && t'[j].revokedAt.None?;
      assert t[j].hash == hash;
    }
    if Open(t, hash, since) && t[i].hash != hash {
      var j :| 0 <= j < |t| && t[j].hash == hash && t[j].createdAt == since && t[j].revokedAt.None?;
      assert t'[j] == t[j];
    }
  }

  lemma IssueOpens(t: Table, user: Uuid, userAgent: string, now: int, life: int, newHash: string, f: Faults,
                  hash: string, since: int)
    ensures var (t', ok) := Issue(t, user, userAgent, now, life, newHash, f);
            Open(t', hash, since) <==> Open(t, hash, since) || (newHash == hash && now == since && ok)
  {
    var (t', ok) := Issue(t, user, userAgent, now, life, newHash, f);
    if Open(t, hash, since) {
      var j :| 0 <= j < |t| && t[j].hash == hash && t[j].createdAt == since && t[j].revokedAt.None?;
      assert t'[j] == t[j];
    }
    if ok { assert t'[|t|].hash == newHash && t'[|t|].revokedAt.None?; }
  }

  /** After a request a token is open exactly if the request handed it out, or it was open and has not been closed. */
  lemma OpenStep(t: Table, r: Request, hash: string, since: int, life: int)
    requires UniqueHashes(t)
    ensures Open(Apply(t, r, life).0, hash, since) <==>
            Opens(t, r, hash, since, life) || (Open(t, hash, since) && !Closes(t, r, hash))
  {
    match r
    case Login(user, userAgent, now, newHash, f) => IssueOpens(t, user, userAgent, now, life, newHash, f, hash, since);
    case Refresh(h, now, newHash, f) => RefreshStep(t, r, hash, since, life);
    case Logout(h, now, f) =>
      FindExactly(t, h);
      if Find(t, h).Some? { RevokedCloses(t, Find(t, h).value, now, hash, since); }
    case RevokeOne(user, id, now, f) => RevokeOneStep(t, r, hash, since, life);
  }

  lemma RefreshStep(t: Table, r: Request, hash: string, since: int, life: int)
    requires UniqueHashes(t) && r.Refresh?
    ensures Open(Apply(t, r, life).0, hash, since) <==>
            Opens(t, r, hash, since, life) || (Open(t, hash, since) && !Closes(t, r, hash))
  {
    hide Usable, Open, Find, Refreshable;
    AcceptedIff(t, r.hash, r.now, r.faults);
    AcceptedExactly(t, r.hash, r.now, r.faults);
    var i := Accepted(t, r.hash, r.now, r.faults);
    if i.Some? {
      RevokedCloses(t, i.value, r.now, hash, since);
      IssueOpens(Revoked(t, i.value, r.now), t[i.value].user, t[i.value].userAgent, r.now, life, r.newHash, r.faults,
                 hash, since);
      hide Issue, Accepted;
    }
  }

  lemma RevokeOneStep(t: Table, r: Request, hash: string, since: int, life: int)
    requires UniqueHashes(t) && r.RevokeOne?
    ensures Open(Apply(t, r, life).0, hash, since) <==> Open(t, hash, since) && !Closes(t, r, hash)
  {
    if r.id < |t| {
      RevokedCloses(t, r.id, r.now, hash, since);
      if t[r.id].hash == hash && t[r.id].revokedAt.Some? { ClosedStays(t, r.id, since); }
    }
  }

  lemma ClosedStays(t: Table, i: nat, since: int)
    requires UniqueHashes(t) && i < |t| && t[i].revokedAt.Some?
    ensures !Open(t, t[i].hash, since)
  {}

  /** Every session ends its life after it was created. */
  predicate Lives(t: Table, life: int) { forall i :: 0 <= i < |t| ==> t[i].expiresAt == t[i].createdAt + life }

  lemma {:induction false} RunLives(rs: seq<Request>, life: int)
    ensures Lives(Run(rs, life), life)
  {
    if rs != [] {
      RunLives(rs[..|rs| - 1], life);
      StepLives(Run(rs[..|rs| - 1], life), rs[|rs| - 1], life);
    }
  }

  lemma StepLives(t: Table, r: Request, life: int)
    requires Lives(t, life)
    ensures Lives(Apply(t, r, life).0, life)
  {
    if r.Refresh? { AcceptedExactly(t, r.hash, r.now, r.faults); }
    if r.Logout? { FindExactly(t, r.hash); }
    hide Find, Refreshable;
  }

  /** The k-th request handed the token out, and no later one has closed it. */
  ghost predicate OpenFrom(rs: seq<Request>, k: nat, hash: string, since: int, life: int)
    requires k < |rs|
  {
    && Opens(Run(rs[..k], life), rs[k], hash, since, life)
    && forall m :: k < m < |rs| ==> !Closes(Run(rs[..m], life), rs[m], hash)
  }

  /** A token is open exactly if some request of the run handed it out at that time and none after it has closed it. */
  lemma {:induction false} OpenIff(rs: seq<Request>, hash: string, since: int, life: int)
    ensures Open(Run(rs, life), hash, since) <==> exists k :: 0 <= k < |rs| && OpenFrom(rs, k, hash, since, life)
    decreases |rs|
  {
    hide Open, Opens, Closes, Apply;
    if rs == [] {
      NoneOpen(Run(rs, life), hash, since);
    } else {
      var init, n := rs[..|rs| - 1], |rs| - 1;
      OpenIff(init, hash, since, life);
      RunUnique(init, life);
      OpenStep(Run(init, life), rs[n], hash, since, life);
      forall k | 0 <= k < n
        ensures OpenFrom(rs, k, hash, since, life) <==>
                OpenFrom(init, k, hash, since, life) && !Closes(Run(init, life), rs[n], hash)
      {
        OpenLonger(rs, k, hash, since, life);
      }
      assert OpenFrom(rs, n, hash, since, life) <==> Opens(Run(init, life), rs[n], hash, since, life);
    }
  }

  lemma OpenLonger(rs: seq<Request>, k: nat, hash: string, since: int, life: int)
    requires k < |rs| - 1
    ensures OpenFrom(rs, k, hash, since, life) <==>
            OpenFrom(rs[..|rs| - 1], k, hash, since, life)
            && !Closes(Run(rs[..|rs| - 1], life), rs[|rs| - 1], hash)
  {
    hide Opens, Closes, Run;
    var init := rs[..|rs| - 1];
    assert forall m :: 0 <= m <= |init| ==> init[..m] == rs[..m];
    if OpenFrom(init, k, hash, since, life) && !Closes(Run(init, life), rs[|init|], hash) {
      forall m | k < m < |rs| ensures !Closes(Run(rs[..m], life), rs[m], hash) {
        if m < |init| { assert !Closes(Run(init[..m], life), init[m], hash); }
      }
    }
    if OpenFrom(rs, k, hash, since, life) {
      forall m | k < m < |init| ensures !Closes(Run(init[..m], life), init[m], hash) {
        assert !Closes(Run(rs[..m], life), rs[m], hash);
      }
    }
  }

  lemma NoneOpen(none: Table, hash: string, since: int)
    requires none == []
    ensures !Open(none, hash, since)
  {}

  lemma UsableIffOpen(t: Table, hash: string, now: int, life: int)
    requires Lives(t, life)
    ensures Usable(t, hash, now) <==> exists since :: Open(t, hash, since) && now <= since + life
  {
    if Usable(t, hash, now) {
      var i :| 0 <= i < |t| && t[i].hash == hash && t[i].revokedAt.None? && now <= t[i].expiresAt;
      assert Open(t, hash, t[i].createdAt);
    }
  }

  /**
   Over every run, a refresh gets past the checks exactly if its lookup and revocation succeed, some earlier login or
   refresh handed the token out no longer than a lifetime ago, and nothing since has refreshed with it, logged it
   out or revoked it.
   */
  lemma SucceedsIff(rs: seq<Request>, n: nat, hash: string, life: int)
    requires n < |rs| && rs[n].Refresh? && rs[n].hash == hash
    ensures Succeeds(rs, n, hash, life) <==>
            && rs[n].faults.lookupOk && rs[n].faults.revokeOk
            && exists k, since :: 0 <= k < n && OpenFrom(rs[..n], k, hash, since, life) && rs[n].now <= since + life
  {
    var t := Run(rs[..n], life);
    RunUnique(rs[..n], life);
    RunLives(rs[..n], life);
    hide OpenFrom, Open, Usable, Run, Lives, UniqueHashes, Accepted;
    AcceptedIff(t, hash, rs[n].now, rs[n].faults);
    UsableIffOpen(t, hash, rs[n].now, life);
    forall since ensures Open(t, hash, since) <==> exists k :: 0 <= k < n && OpenFrom(rs[..n], k, hash, since, life) {
      OpenIff(rs[..n], hash, since, life);
    }
    if Usable(t, hash, rs[n].now) {
      var since :| Open(t, hash, since) && rs[n].now <= since + life;
      var k :| 0 <= k < n && OpenFrom(rs[..n], k, hash, since, life);
    }
    if k: nat, since: int :| 0 <= k < n && OpenFrom(rs[..n], k, hash, since, life) && rs[n].now <= since + life {
      assert Open(t, hash, since);
    }
  }

  /** A login that succeeds appends an open session of its user and agent. */
  lemma LoginOwns(t: Table, r: Request, life: int)
    requires r.Login? && Apply(t, r, life).1
    ensures var t' := Apply(t, r, life).0;
            && |t'| == |t| + 1 && t'[..|t|] == t
            && t'[|t|].user == r.user && t'[|t|].userAgent == r.userAgent && Open(t', r.newHash, r.now)
  {
    var t' := Apply(t, r, life).0;
    assert t'[|t|].hash == r.newHash && t'[|t|].createdAt == r.now && t'[|t|].revokedAt.None?;
  }

  lemma RevokedStays(rs: seq<Request>, m: nat, n: nat, i: nat, life: int)
    requires m <= n <= |rs| && i < |Run(rs[..m], life)| && Run(rs[..m], life)[i].revokedAt.Some?
    ensures i < |Run(rs[..n], life)| && Run(rs[..n], life)[i].hash == Run(rs[..m], life)[i].hash
    ensures Run(rs[..n], life)[i].revokedAt.Some?
  {
    RunExtends(rs[..n], m, life);
    assert rs[..n][..m] == rs[..m];
  }

  lemma NotAgain(rs: seq<Request>, m: nat, n: nat, i: nat, hash: string, life: int)
    requires m <= n < |rs| && i < |Run(rs[..m], life)|
    requires Run(rs[..m], life)[i].hash == hash && Run(rs[..m], life)[i].revokedAt.Some?
    ensures !Succeeds(rs, n, hash, life)
  {
    RevokedStays(rs, m, n, i, life);
    RunUnique(rs[..n], life);
    FindExactly(Run(rs[..n], life), hash);
  }

  /** Once a logout has found its session, no refresh with that token gets past the checks again. */
  lemma LoggedOutForGood(rs: seq<Request>, m: nat, n: nat, hash: string, life: int)
    requires m < n < |rs| && rs[m].Logout? && rs[m].hash == hash && rs[m].faults.revokeOk
    requires Find(Run(rs[..m], life), hash).Some?
    ensures !Succeeds(rs, n, hash, life)
  {
    var t := Run(rs[..m], life);
    FindExactly(t, hash);
    assert rs[..m + 1][..m] == rs[..m];
    NotAgain(rs, m + 1, n, Find(t, hash).value, hash, life);
  }

  /** Neither does one with the token of a session its user has revoked in the list. */
  lemma RevokedForGood(rs: seq<Request>, m: nat, n: nat, life: int)
    requires m < n < |rs| && rs[m].RevokeOne? && rs[m].faults.revokeOk
    requires var t := Run(rs[..m], life); rs[m].id < |t| && t[rs[m].id].user == rs[m].user
    ensures !Succeeds(rs, n, Run(rs[..m], life)[rs[m].id].hash, life)
  {
    var t := Run(rs[..m], life);
    assert rs[..m + 1][..m] == rs[..m];
    NotAgain(rs, m + 1, n, rs[m].id, t[rs[m].id].hash, life);
  }

  /** Revoking in the list changes no session but one of the user who asks. */
  lemma RevokeOneOwn(t: Table, r: Request, life: int, i: nat)
    requires r.RevokeOne? && i < |t| && t[i].user != r.user
    ensures |Apply(t, r, life).0| == |t| && Apply(t, r, life).0[i] == t[i]
  {}

  // ---- rotation families ----

  /** The login each session descends from, by position: a refresh hands its session's family on. */
  function Families(rs: seq<Request>, life: int): (fs: seq<nat>)
    ensures |fs| == |Run(rs, life)|
  {
    if rs == [] then []
    else NextFamilies(Run(rs[..|rs| - 1], life), Families(rs[..|rs| - 1], life), rs[|rs| - 1], life)
  }

  function NextFamilies(t: Table, fs: seq<nat>, r: Request, life: int): (fs': seq<nat>)
    requires |fs| == |t|
    ensures |fs'| == |Apply(t, r, life).0|
  {
    AtMostOneMore(t, r, life);
    if |Apply(t, r, life).0| == |t| then fs
    else if r.Refresh? then
      AcceptedExactly(t, r.hash, r.now, r.faults);
      fs + [fs[Accepted(t, r.hash, r.now, r.faults).value]]
    else fs + [|t|]
  }

  lemma AtMostOneMore(t: Table, r: Request, life: int)
    ensures |t| <= |Apply(t, r, life).0| <= |t| + 1
  {
    if r.Refresh? { AcceptedExactly(t, r.hash, r.now, r.faults); }
    if r.Logout? { FindExactly(t, r.hash); }
  }

  /**
   Sessions of one family share their user and user agent, and all but the last one are revoked; every
   family id is an earlier session's position.
   */
  predicate FamilyRules(t: Table, fs: seq<nat>) {
    && |fs| == |t|
    && (forall i :: 0 <= i < |t| ==> fs[i] <= i)
    && (forall i, j :: 0 <= i < j < |t| && fs[i] == fs[j] ==>
          t[i].user == t[j].user && t[i].userAgent == t[j].userAgent && t[i].revokedAt.Some?)
  }

  lemma AppendFamily(t: Table, fs: seq<nat>, i: nat, s: Session)
    requires FamilyRules(t, fs) && i < |t| && t[i].revokedAt.Some? && t[i].user == s.user
             && t[i].userAgent == s.userAgent
    requires forall j :: i < j < |t| ==> fs[j] != fs[i]
    ensures FamilyRules(t + [s], fs + [fs[i]])
  {}

  lemma NewFamily(t: Table, fs: seq<nat>, s: Session)
    requires FamilyRules(t, fs)
    ensures FamilyRules(t + [s], fs + [|t|])
  {}

  lemma RevokeKeepsFamilies(t: Table, fs: seq<nat>, i: nat, now: int)
    requires FamilyRules(t, fs) && i < |t|
    ensures FamilyRules(Revoked(t, i, now), fs)
  {}

  lemma RefreshKeepsFamilies(t: Table, fs: seq<nat>, r: Request, life: int)
    requires FamilyRules(t, fs) && r.Refresh?
    ensures FamilyRules(Apply(t, r, life).0, NextFamilies(t, fs, r, life))
  {
    hide FamilyRules, Accepted, Find;
    AcceptedExactly(t, r.hash, r.now, r.faults);
    var i := Accepted(t, r.hash, r.now, r.faults);
    if i.Some? {
      RevokeKeepsFamilies(t, fs, i.value, r.now);
      LastOfFamily(t, fs, i.value);
      AppendFamily(Revoked(t, i.value, r.now), fs, i.value,
                   Session(t[i.value].user, r.newHash, r.now, r.now + life, None, t[i.value].userAgent));
    }
  }

  /** A session that is not revoked is the last of its family. */
  lemma LastOfFamily(t: Table, fs: seq<nat>, i: nat)
    requires FamilyRules(t, fs) && i < |t| && t[i].revokedAt.None?
    ensures forall j :: i < j < |t| ==> fs[j] != fs[i]
  {}

  lemma OthersKeepFamilies(t: Table, fs: seq<nat>, r: Request, life: int)
    requires FamilyRules(t, fs) && !r.Refresh?
    ensures FamilyRules(Apply(t, r, life).0, NextFamilies(t, fs, r, life))
  {
    hide FamilyRules, Find;
    match r
    case Login(user, userAgent, now, newHash, f) => NewFamily(t, fs,
                                                              Session(user, newHash, now, now + life, None, userAgent));
    case Logout(hash, now, _) =>
      FindExactly(t, hash);
      if Find(t, hash).Some? { RevokeKeepsFamilies(t, fs, Find(t, hash).value, now); }
    case RevokeOne(_, id, now, _) => if id < |t| { RevokeKeepsFamilies(t, fs, id, now); }
  }

  lemma {:induction false} FamiliesKept(rs: seq<Request>, life: int)
    ensures FamilyRules(Run(rs, life), Families(rs, life))
  {
    if rs != [] {
      var init, r := rs[..|rs| - 1], rs[|rs| - 1];
      FamiliesKept(init, life);
      if r.Refresh? { RefreshKeepsFamilies(Run(init, life), Families(init, life), r, life); }
      else { OthersKeepFamilies(Run(init, life), Families(init, life), r, life); }
    }
  }

  /** A login's family never has two sessions that a refresh would accept. */
  lemma OneRefreshablePerFamily(rs: seq<Request>, life: int, i: nat, j: nat, now: int)
    requires i < j < |Run(rs, life)| && Families(rs, life)[i] == Families(rs, life)[j]
    ensures !(Refreshable(Run(rs, life)[i], now) && Refreshable(Run(rs, life)[j], now))
    ensures Run(rs, life)[i].user == Run(rs, life)[j].user && Run(rs, life)[i].userAgent == Run(rs, life)[j].userAgent
  {
    FamiliesKept(rs, life);
  }

  /** The list on the Privacy page is what Refresh would accept, except at the instant a session expires. */
  lemma ListedIffRefreshable(t: Table, user: Uuid, i: nat, now: int)
    requires i < |t| && t[i].user == user
    ensures i in ActiveIds(t, user, now) <==> Refreshable(t[i], now) && now != t[i].expiresAt
  {
    ActiveIdsExactly(t, user, now);
  }
}
