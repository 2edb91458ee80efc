/**
 Refresh-token families of `api/auth.py` (`TokenService.issue`, `refresh`,
 `verify_access`, `revoke_family`).

 `refresh` rotates the family's jti while it holds the lock, but builds the new
 refresh token after releasing it, from whatever `current_jti` then is.  A call
 is therefore two steps: its locked section, and the emission of its tokens.
 Any number of calls may be between the two, in any interleaving.
 */
module TokenFamilies {
  import opened Wrappers

  type Id = string

  const AUDIENCES: set<string> := {"rest", "graphql", "grpc", "ws"}

  datatype Family = Family(
    subject: string, audiences: seq<string>, scopes: string, currentJti: Id, expiresAt: real,
    usedJtis: set<Id>, revoked: bool,
    installed: set<Id>)  // history: every jti that ever was this family's current one

  /** The claims a signed token carries; decoding is the subject of module Jwt. */
  datatype RefreshToken = RefreshToken(fam: Id, jti: Id, exp: int)
  datatype AccessToken = AccessToken(fam: Id, sub: string, aud: string, scope: string, exp: int)

  /** A call between its locked section and the emission of its tokens. */
  datatype Call = Call(fam: Id, audience: string, own: Id)  // own: history, the jti this call installed

  datatype Emission = Emission(call: nat, refresh: RefreshToken, access: AccessToken, own: Id)

  datatype State = State(
    families: map<Id, Family>, pending: map<nat, Call>, emitted: seq<Emission>,
    // history: identifiers handed out by uuid4, and the (family, jti) pairs rotated
    uuids: set<Id>, accepted: seq<(Id, Id)>)

  datatype Action =
    | Issue(call: nat, subject: string, audiences: seq<string>, scopes: string, audience: string,
            newFam: Id, newJti: Id, expiresAt: real)
    | Refresh(call: nat, token: RefreshToken, audience: string, newJti: Id, now: real)
    | Emit(call: nat, now: real)
    | VerifyAccess(access: AccessToken, audience: string, now: real)
    | RevokeFamily(fam: Id)

  datatype Response =
    | Started                     // locked section done, tokens not built yet
    | Tokens(emission: Emission)
    | Verified
    | Reuse(known: bool)          // alert raised, family revoked
    | Denied(reason: string)
    | NoResponse

  // ---------------------------------------------------------------- steps

  function Init(): State { State(map[], map[], [], {}, []) }

  /** Does the family exist and is it not revoked? */
  predicate Live(s: State, fam: Id) { fam in s.families && !s.families[fam].revoked }

  /** The locked section of `refresh`, after a successful decode. */
  function Rotate(s: State, call: nat, token: RefreshToken, audience: string, newJti: Id): (State, Response) {
    if !Live(s, token.fam) then (s, Denied("token family revoked"))
    else
      var f := s.families[token.fam];
      if token.jti != f.currentJti then
        (s.(families := s.families[token.fam := f.(revoked := true)]), Reuse(token.jti in f.usedJtis))
      else if audience !in f.audiences then (s, Denied("audience not permitted for this client"))
      else
        var f' := f.(usedJtis := f.usedJtis + {token.jti}, currentJti := newJti,
                     installed := f.installed + {newJti});
        (s.(families := s.families[token.fam := f'],
            pending := s.pending[call := Call(token.fam, audience, newJti)],
            uuids := s.uuids + {newJti},
            accepted := s.accepted + [(token.fam, token.jti)]),
         Started)
  }

  function StartFamily(s: State, a: Action): (State, Response)
    requires a.Issue?
  {
    if a.audience !in a.audiences || !(forall x :: x in a.audiences ==> x in AUDIENCES) then
      (s, Denied("audience not permitted for this client"))
    else
      var f := Family(a.subject, a.audiences, a.scopes, a.newJti, a.expiresAt, {}, false, {a.newJti});
      (s.(families := s.families[a.newFam := f],
          pending := s.pending[a.call := Call(a.newFam, a.audience, a.newJti)],
          uuids := s.uuids + {a.newFam, a.newJti}),
       Started)
  }

  /** `_access_token` and `_refresh_token`, outside the lock. */
  function BuildTokens(s: State, call: nat, now: real, accessTtl: int): (State, Response)
    requires call in s.pending && s.pending[call].fam in s.families
  {
    var p := s.pending[call];
    var f := s.families[p.fam];
    if p.audience !in AUDIENCES then (s.(pending := s.pending - {call}), Denied("unknown audience"))
    else
      var e := Emission(call,
                        RefreshToken(p.fam, f.currentJti, f.expiresAt.Floor),
                        AccessToken(p.fam, f.subject, p.audience, f.scopes, now.Floor + accessTtl),
                        p.own);
      (s.(pending := s.pending - {call}, emitted := s.emitted + [e]), Tokens(e))
  }

  function CheckAccess(s: State, t: AccessToken, audience: string, now: real): Response {
    if t.exp as real <= now then Denied("token expired")
    else if t.aud != audience then Denied("token not valid for this audience")
    else if !Live(s, t.fam) then Denied("token family revoked")
    else Verified
  }

  /** Call numbers are unique and uuid4 never repeats itself. */
  predicate Fresh(s: State, a: Action) {
    match a
    case Issue(call, _, _, _, _, fam, jti, _) =>
      call !in s.pending && fam !in s.uuids && jti !in s.uuids && fam !in s.families && fam != jti
    case Refresh(call, _, _, jti, _) => call !in s.pending && jti !in s.uuids
    case Emit(call, _) => call in s.pending && s.pending[call].fam in s.families
    case _ => true
  }

  function Step(s: State, a: Action, accessTtl: int): (State, Response)
    requires Fresh(s, a)
  {
    match a
    case Issue(_, _, _, _, _, _, _, _) => StartFamily(s, a)
    case Refresh(call, token, audience, newJti, now) =>
      if token.exp as real <= now then (s, Denied("token expired"))
      else Rotate(s, call, token, audience, newJti)
    case Emit(call, now) => BuildTokens(s, call, now, accessTtl)
    case VerifyAccess(t, audience, now) => (s, CheckAccess(s, t, audience, now))
    case RevokeFamily(fam) =>
      (if fam in s.families then s.(families := s.families[fam := s.families[fam].(revoked := true)]) else s,
       NoResponse)
  }

  /** Only a signed token that was emitted before can be presented. */
  predicate Presentable(s: State, a: Action) {
    a.Refresh? ==> exists i :: 0 <= i < |s.emitted| && s.emitted[i].refresh == a.token
  }

  /** The state after a run, or None when the run is not possible. */
  function Run(accessTtl: int, acts: seq<Action>): Option<State> {
    if acts == [] then Some(Init())
    else
      var last := |acts| - 1;
      match Run(accessTtl, acts[..last])
      case None => None
      case Some(s) =>
        if Fresh(s, acts[last]) && Presentable(s, acts[last]) then Some(Step(s, acts[last], accessTtl).0)
        else None
  }

  // ---------------------------------------------------------------- invariant

  ghost predicate FamilyInv(s: State) {
    forall k :: k in s.families ==>
      var f := s.families[k];
      && f.installed == f.usedJtis + {f.currentJti}
      && f.currentJti !in f.usedJtis
      && f.installed <= s.uuids
      && k in s.uuids
      && (forall x :: x in f.audiences ==> x in AUDIENCES)
  }

  /** No jti was ever installed in two families. */
  ghost predicate DisjointInv(s: State) {
    forall k, l :: k in s.families && l in s.families && k != l ==>
      s.families[k].installed !! s.families[l].installed
  }

  /** A call that has not emitted yet still owns the family's current jti. */
  ghost predicate PendingInv(s: State) {
    && (forall c :: c in s.pending ==>
          && s.pending[c].fam in s.families
          && s.families[s.pending[c].fam].currentJti == s.pending[c].own
          && s.pending[c].audience in s.families[s.pending[c].fam].audiences)
    && (forall c, i :: c in s.pending && 0 <= i < |s.emitted| ==>
          s.emitted[i].refresh.jti != s.pending[c].own)
    && (forall c, d :: c in s.pending && d in s.pending && c != d ==> s.pending[c].fam != s.pending[d].fam)
  }

  ghost predicate EmittedInv(s: State) {
    && (forall i :: 0 <= i < |s.emitted| ==>
          var e := s.emitted[i];
          && e.refresh.fam in s.families
          && e.refresh.jti in s.families[e.refresh.fam].installed
          && e.refresh.jti == e.own
          && e.refresh.exp == s.families[e.refresh.fam].expiresAt.Floor)
    && (forall i, j :: 0 <= i < j < |s.emitted| ==> s.emitted[i].refresh.jti != s.emitted[j].refresh.jti)
  }

  ghost predicate AcceptedInv(s: State) {
    && (forall i :: 0 <= i < |s.accepted| ==>
          s.accepted[i].0 in s.families && s.accepted[i].1 in s.families[s.accepted[i].0].usedJtis)
    && (forall k, j :: k in s.families && j in s.families[k].usedJtis ==> (k, j) in s.accepted)
    && (forall i, j :: 0 <= i < j < |s.accepted| ==> s.accepted[i] != s.accepted[j])
  }

  ghost predicate Inv(s: State) {
    FamilyInv(s) && DisjointInv(s) && PendingInv(s) && EmittedInv(s) && AcceptedInv(s)
  }

  // Locked sections install a fresh jti: one lemma per part of the invariant.

  lemma IssueKeepsFamilies(s: State, a: Action, s': State)
    requires FamilyInv(s) && DisjointInv(s) && a.Issue? && Fresh(s, a) && StartFamily(s, a) == (s', Started)
    ensures FamilyInv(s') && DisjointInv(s')
  {
  }

  lemma IssueKeepsPending(s: State, a: Action, s': State)
    requires FamilyInv(s) && PendingInv(s) && EmittedInv(s)
    requires a.Issue? && Fresh(s, a) && StartFamily(s, a) == (s', Started)
    ensures PendingInv(s')
  {
    forall i | 0 <= i < |s.emitted| ensures s.emitted[i].refresh.jti in s.uuids {
    }
  }

  lemma IssueKeepsHistory(s: State, a: Action, s': State)
    requires EmittedInv(s) && AcceptedInv(s)
    requires a.Issue? && Fresh(s, a) && StartFamily(s, a) == (s', Started)
    ensures EmittedInv(s') && AcceptedInv(s')
  {
  }

  lemma IssueKeepsInv(s: State, a: Action)
    requires Inv(s) && a.Issue? && Fresh(s, a)
    ensures Inv(StartFamily(s, a).0)
  {
    var (s', r) := StartFamily(s, a);
    if r == Started {
      IssueKeepsFamilies(s, a, s');
      IssueKeepsPending(s, a, s');
      IssueKeepsHistory(s, a, s');
    }
  }

  lemma RotateKeepsFamilies(s: State, call: nat, token: RefreshToken, audience: string, newJti: Id, s': State)
    requires FamilyInv(s) && DisjointInv(s) && newJti !in s.uuids
    requires Rotate(s, call, token, audience, newJti) == (s', Started)
    ensures FamilyInv(s') && DisjointInv(s')
  {
  }

  /** The heart of the argument: presenting the current jti proves that no call still owns it. */
  lemma RotateKeepsPending(s: State, call: nat, token: RefreshToken, audience: string, newJti: Id, s': State, i: nat)
    requires FamilyInv(s) && PendingInv(s) && EmittedInv(s) && call !in s.pending && newJti !in s.uuids
    requires i < |s.emitted| && s.emitted[i].refresh == token
    requires Rotate(s, call, token, audience, newJti) == (s', Started)
    ensures PendingInv(s')
  {
    forall c | c in s.pending ensures s.pending[c].fam != token.fam {
      assert s.emitted[i].refresh.jti != s.pending[c].own;
    }
    forall j | 0 <= j < |s.emitted| ensures s.emitted[j].refresh.jti in s.uuids {
    }
  }

  lemma RotateKeepsHistory(s: State, call: nat, token: RefreshToken, audience: string, newJti: Id, s': State)
    requires FamilyInv(s) && EmittedInv(s) && AcceptedInv(s)
    requires Rotate(s, call, token, audience, newJti) == (s', Started)
    ensures EmittedInv(s') && AcceptedInv(s')
  {
    var pair := (token.fam, token.jti);
    assert s'.accepted == s.accepted + [pair];
    assert pair !in s.accepted;
    forall k, j | k in s'.families && j in s'.families[k].usedJtis ensures (k, j) in s'.accepted {
      if (k, j) != pair {
        assert (k, j) in s.accepted;
      } else {
        assert s'.accepted[|s.accepted|] == pair;
      }
    }
  }

  lemma RevokeKeepsInv(s: State, fam: Id)
    requires Inv(s) && fam in s.families
    ensures Inv(s.(families := s.families[fam := s.families[fam].(revoked := true)]))
  {
  }

  lemma RotateKeepsInv(s: State, call: nat, token: RefreshToken, audience: string, newJti: Id, i: nat)
    requires Inv(s) && call !in s.pending && newJti !in s.uuids
    requires i < |s.emitted| && s.emitted[i].refresh == token
    ensures Inv(Rotate(s, call, token, audience, newJti).0)
  {
    var (s', r) := Rotate(s, call, token, audience, newJti);
    match r
    case Started =>
      RotateKeepsFamilies(s, call, token, audience, newJti, s');
      RotateKeepsPending(s, call, token, audience, newJti, s', i);
      RotateKeepsHistory(s, call, token, audience, newJti, s');
    case Reuse(_) => RevokeKeepsInv(s, token.fam);
    case _ =>
  }

  lemma EmitKeepsPending(s: State, call: nat, now: real, ttl: int, s': State)
    requires PendingInv(s) && call in s.pending && s.pending[call].fam in s.families
    requires DisjointInv(s) && FamilyInv(s)
    requires BuildTokens(s, call, now, ttl).0 == s'
    ensures PendingInv(s')
  {
  }

  lemma EmitKeepsInv(s: State, call: nat, now: real, ttl: int)
    requires Inv(s) && call in s.pending && s.pending[call].fam in s.families
    ensures Inv(BuildTokens(s, call, now, ttl).0)
  {
    EmitKeepsPending(s, call, now, ttl, BuildTokens(s, call, now, ttl).0);
  }

  lemma StepKeepsInv(s: State, a: Action, ttl: int)
    requires Inv(s) && Fresh(s, a) && Presentable(s, a)
    ensures Inv(Step(s, a, ttl).0)
  {
    match a
    case Issue(_, _, _, _, _, _, _, _) => IssueKeepsInv(s, a);
    case Refresh(call, token, audience, newJti, now) =>
      var i :| 0 <= i < |s.emitted| && s.emitted[i].refresh == token;
      RotateKeepsInv(s, call, token, audience, newJti, i);
    case Emit(call, now) => EmitKeepsInv(s, call, now, ttl);
    case VerifyAccess(_, _, _) =>
    case RevokeFamily(fam) => if fam in s.families { RevokeKeepsInv(s, fam); }
  }

  /** What every interleaving keeps. */
  lemma {:induction false} RunKeepsInv(ttl: int, acts: seq<Action>)
    requires Run(ttl, acts).Some?
    ensures Inv(Run(ttl, acts).value)
  {
    if acts != [] {
      var last := |acts| - 1;
      RunKeepsInv(ttl, acts[..last]);
      StepKeepsInv(Run(ttl, acts[..last]).value, acts[last], ttl);
    }
  }

  // ---------------------------------------------------------------- results

  /**
   The refresh token built outside the lock carries exactly the jti the same
   call installed, and building it never fails: no client loses its token to a
   rotation whose answer cannot be built.
   */
  lemma EmitsOwnJti(ttl: int, acts: seq<Action>, s: State, call: nat, now: real)
    requires Run(ttl, acts) == Some(s) && call in s.pending
    ensures s.pending[call].fam in s.families
    ensures var r := BuildTokens(s, call, now, ttl).1;
      && r.Tokens?
      && r.emission.refresh.jti == s.pending[call].own
      && r.emission.refresh.fam == s.pending[call].fam
      && r.emission.access.aud == s.pending[call].audience
      && r.emission.access.aud in s.families[s.pending[call].fam].audiences
  {
    RunKeepsInv(ttl, acts);
  }

  /** No two calls ever emit the same jti. */
  lemma EmittedJtisDistinct(ttl: int, acts: seq<Action>, s: State, i: nat, j: nat)
    requires Run(ttl, acts) == Some(s) && i < j < |s.emitted|
    ensures s.emitted[i].refresh.jti != s.emitted[j].refresh.jti
    ensures s.emitted[i].refresh.jti == s.emitted[i].own
  {
    RunKeepsInv(ttl, acts);
  }

  /**
   Each (family, jti) is rotated at most once, the used ones are exactly the
   rotated ones, and together with the current one they are all that were installed.
   */
  lemma RotatedAtMostOnce(ttl: int, acts: seq<Action>, s: State)
    requires Run(ttl, acts) == Some(s)
    ensures forall i, j :: 0 <= i < j < |s.accepted| ==> s.accepted[i] != s.accepted[j]
    ensures forall k, j :: k in s.families ==> (j in s.families[k].usedJtis <==> (k, j) in s.accepted)
    ensures forall k :: k in s.families ==>
      && s.families[k].installed == s.families[k].usedJtis + {s.families[k].currentJti}
      && s.families[k].currentJti !in s.families[k].usedJtis
  {
    RunKeepsInv(ttl, acts);
  }

  /**
   Reuse is detected exactly when an unexpired token of a live family carries a
   jti that was rotated out before; the alert's `known_jti` is then true, and the
   family is revoked.
   */
  lemma ReuseIffRotatedOut(ttl: int, acts: seq<Action>, s: State, a: Action)
    requires Run(ttl, acts) == Some(s) && a.Refresh? && Fresh(s, a) && Presentable(s, a)
    ensures Step(s, a, ttl).1.Reuse? <==>
      Live(s, a.token.fam) && a.now < a.token.exp as real && (a.token.fam, a.token.jti) in s.accepted
    ensures Step(s, a, ttl).1.Reuse? ==> Step(s, a, ttl).1 == Reuse(true) && !Live(Step(s, a, ttl).0, a.token.fam)
  {
    RunKeepsInv(ttl, acts);
    var i :| 0 <= i < |s.emitted| && s.emitted[i].refresh == a.token;
    var f := s.families[a.token.fam];
    assert a.token.jti in f.installed;
    assert (a.token.fam, a.token.jti) in s.accepted <==> a.token.jti in f.usedJtis;
  }

  /** A rotation succeeds exactly for an unexpired current jti of a live family. */
  lemma RotationCondition(ttl: int, acts: seq<Action>, s: State, a: Action)
    requires Run(ttl, acts) == Some(s) && a.Refresh? && Fresh(s, a) && Presentable(s, a)
    ensures Step(s, a, ttl).1 == Started <==>
      && Live(s, a.token.fam)
      && a.token.jti == s.families[a.token.fam].currentJti
      && a.audience in s.families[a.token.fam].audiences
      && a.now < s.families[a.token.fam].expiresAt.Floor as real
  {
    RunKeepsInv(ttl, acts);
    var i :| 0 <= i < |s.emitted| && s.emitted[i].refresh == a.token;
  }

  // ---------------------------------------------------------------- revocation is for good

  /** The family exists and is revoked. */
  predicate Dead(s: State, fam: Id) { fam in s.families && s.families[fam].revoked }

  lemma StepKeepsDead(s: State, a: Action, ttl: int, fam: Id)
    requires Fresh(s, a) && Dead(s, fam)
    ensures Dead(Step(s, a, ttl).0, fam)
    ensures a.Refresh? && a.token.fam == fam ==> Step(s, a, ttl).1.Denied?
    ensures a.VerifyAccess? && a.access.fam == fam ==> Step(s, a, ttl).1.Denied?
  {
  }

  lemma {:induction false} DeadStaysDead(ttl: int, acts: seq<Action>, m: nat, early: State, late: State, fam: Id)
    requires m <= |acts| && Run(ttl, acts[..m]) == Some(early) && Run(ttl, acts) == Some(late)
    requires Dead(early, fam)
    ensures Dead(late, fam)
    decreases |acts|
  {
    if m == |acts| {
      assert acts[..m] == acts;
    } else {
      var last := |acts| - 1;
      var front := acts[..last];
      assert front[..m] == acts[..m];
      var s := Run(ttl, front).value;
      DeadStaysDead(ttl, front, m, early, s, fam);
      StepKeepsDead(s, acts[last], ttl, fam);
    }
  }

  /**
   Once an emitted but rotated-out token has been presented, or the family has
   been revoked, nothing on that family succeeds at any later point of any run.
   */
  lemma NothingSucceedsAfterReuse(ttl: int, acts: seq<Action>, m: nat, early: State, late: State, a: Action, fam: Id)
    requires m < |acts| && Run(ttl, acts[..m]) == Some(early) && Run(ttl, acts) == Some(late)
    requires Fresh(early, acts[m]) && fam in early.families
    requires acts[m] == RevokeFamily(fam) ||
             (Step(early, acts[m], ttl).1.Reuse? && acts[m].Refresh? && acts[m].token.fam == fam)
    requires Fresh(late, a)
    ensures a.Refresh? && a.token.fam == fam ==> Step(late, a, ttl).1.Denied?
    ensures a.VerifyAccess? && a.access.fam == fam ==> Step(late, a, ttl).1.Denied?
  {
    assert acts[..m + 1][..m] == acts[..m];
    PrefixRuns(ttl, acts, m + 1);
    var next := Run(ttl, acts[..m + 1]).value;
    assert Dead(next, fam);
    DeadStaysDead(ttl, acts, m + 1, next, late, fam);
    StepKeepsDead(late, a, ttl, fam);
  }

  lemma {:induction false} PrefixRuns(ttl: int, acts: seq<Action>, m: nat)
    requires m <= |acts| && Run(ttl, acts).Some?
    ensures Run(ttl, acts[..m]).Some?
    decreases |acts|
  {
    if m == |acts| {
      assert acts[..m] == acts;
    } else {
      var front := acts[..|acts| - 1];
      assert front[..m] == acts[..m];
      PrefixRuns(ttl, front, m);
    }
  }

  // ---------------------------------------------------------------- what a call grants

  /** What a family was issued with never changes, nor does a family go away. */
  ghost predicate SameGrant(early: State, late: State, fam: Id) {
    && fam in early.families && fam in late.families
    && late.families[fam].subject == early.families[fam].subject
    && late.families[fam].scopes == early.families[fam].scopes
    && late.families[fam].audiences == early.families[fam].audiences
    && late.families[fam].expiresAt == early.families[fam].expiresAt
  }

  lemma StepKeepsGrant(s: State, a: Action, ttl: int, fam: Id)
    requires Fresh(s, a) && fam in s.families
    ensures SameGrant(s, Step(s, a, ttl).0, fam)
  {
  }

  lemma {:induction false} GrantIsForGood(ttl: int, acts: seq<Action>, m: nat, early: State, late: State, fam: Id)
    requires m <= |acts| && Run(ttl, acts[..m]) == Some(early) && Run(ttl, acts) == Some(late)
    requires fam in early.families
    ensures SameGrant(early, late, fam)
    decreases |acts|
  {
    if m == |acts| {
      assert acts[..m] == acts;
    } else {
      var (front, a) := (acts[..|acts| - 1], acts[|acts| - 1]);
      assert front[..m] == acts[..m];
      var s := Run(ttl, front).value;
      GrantIsForGood(ttl, front, m, early, s, fam);
      hide Step;
      StepKeepsGrant(s, a, ttl, fam);
    }
  }

  /** `a` is the locked section of a call, and it succeeds. */
  predicate Starts(s: State, a: Action, ttl: int) {
    (a.Issue? || a.Refresh?) && Fresh(s, a) && Step(s, a, ttl).1 == Started
  }

  function FamilyOf(a: Action): Id
    requires a.Issue? || a.Refresh?
  {
    if a.Issue? then a.newFam else a.token.fam
  }

  /** A family starts exactly for an audience among permitted ones that all exist. */
  lemma IssueCondition(s: State, a: Action, ttl: int)
    requires a.Issue? && Fresh(s, a)
    ensures Starts(s, a, ttl) <==> a.audience in a.audiences && (set x | x in a.audiences) <= AUDIENCES
    ensures Starts(s, a, ttl) ==>
      var s' := Step(s, a, ttl).0;
      && Live(s', a.newFam)
      && s'.families[a.newFam].subject == a.subject && s'.families[a.newFam].scopes == a.scopes
      && s'.families[a.newFam].audiences == a.audiences && s'.families[a.newFam].expiresAt == a.expiresAt
    ensures !Starts(s, a, ttl) ==> Step(s, a, ttl).0 == s
  {
    if (set x | x in a.audiences) <= AUDIENCES {
      forall x | x in a.audiences ensures x in AUDIENCES {
        assert x in (set y | y in a.audiences);
      }
    }
  }

  lemma StepKeepsCall(s: State, a: Action, ttl: int, call: nat)
    requires Fresh(s, a) && call in s.pending && (a.Emit? ==> a.call != call)
    ensures var s' := Step(s, a, ttl).0; call in s'.pending && s'.pending[call] == s.pending[call]
  {
  }

  /** Until it emits, a call remembers what it was asked for, whatever the others do. */
  lemma {:induction false} CallIsRemembered(ttl: int, acts: seq<Action>, m: nat, s: State, late: State)
    requires m < |acts| && Run(ttl, acts[..m]) == Some(s) && Run(ttl, acts) == Some(late)
    requires Starts(s, acts[m], ttl)
    requires forall k :: m < k < |acts| && acts[k].Emit? ==> acts[k].call != acts[m].call
    ensures acts[m].call in late.pending
    ensures late.pending[acts[m].call] == Call(FamilyOf(acts[m]), acts[m].audience, acts[m].newJti)
    decreases |acts|
  {
    var (front, a) := (acts[..|acts| - 1], acts[|acts| - 1]);
    if m == |acts| - 1 {
      assert front == acts[..m];
    } else {
      assert front[..m] == acts[..m];
      var before := Run(ttl, front).value;
      CallIsRemembered(ttl, front, m, s, before);
      hide Step;
      StepKeepsCall(before, a, ttl, acts[m].call);
    }
  }

  /** The tokens a call is answered with, named by what the call was asked for and its family's grant. */
  ghost predicate AnswersCall(s: State, a: Action, e: Emission, exp: int)
    requires a.Issue? || a.Refresh?
    requires FamilyOf(a) in s.families
  {
    var f := s.families[FamilyOf(a)];
    && e.call == a.call
    && e.access == AccessToken(FamilyOf(a), f.subject, a.audience, f.scopes, exp)
    && e.refresh == RefreshToken(FamilyOf(a), a.newJti, f.expiresAt.Floor)
  }

  /**
   End to end: whatever else runs between a call's locked section, the building
   of its tokens and a later check, the access token names the call's family,
   the grant that family was issued with and the audience the call asked for; and
   it verifies for that audience and no other, until `access_ttl` after the
   whole second it was built in, as long as its family lives.
   */
  lemma AccessTokenServesItsCall(ttl: int, acts: seq<Action>, m: nat, n: nat, s: State, mid: State, late: State,
                                 now: real, audience: string, checked: real)
    requires m < n < |acts| && Run(ttl, acts[..m]) == Some(s) && Starts(s, acts[m], ttl)
    requires acts[n] == Emit(acts[m].call, now)
    requires forall k :: m < k < n && acts[k].Emit? ==> acts[k].call != acts[m].call
    requires Run(ttl, acts[..n]) == Some(mid) && Run(ttl, acts) == Some(late)
    ensures Fresh(mid, acts[n]) && FamilyOf(acts[m]) in late.families && Step(mid, acts[n], ttl).1.Tokens?
    ensures var e := Step(mid, acts[n], ttl).1.emission;
      && AnswersCall(late, acts[m], e, now.Floor + ttl)
      && (Step(late, VerifyAccess(e.access, audience, checked), ttl).1 == Verified <==>
            audience == acts[m].audience && checked < (now.Floor + ttl) as real && Live(late, FamilyOf(acts[m])))
  {
    hide Rotate, StartFamily;
    var fam := FamilyOf(acts[m]);
    assert acts[..n][..m] == acts[..m];
    CallIsRemembered(ttl, acts[..n], m, s, mid);
    EmitsOwnJti(ttl, acts[..n], mid, acts[m].call, now);
    GrantIsForGood(ttl, acts, n, mid, late, fam);
  }

  /** An access check succeeds exactly for an unexpired token of its audience and a live family, and changes nothing. */
  lemma VerifiedIff(ttl: int, acts: seq<Action>, s: State, t: AccessToken, audience: string, now: real)
    requires Run(ttl, acts) == Some(s)
    ensures var (s', r) := Step(s, VerifyAccess(t, audience, now), ttl);
      && (r == Verified <==> now < t.exp as real && t.aud == audience && Live(s, t.fam))
      && (r != Verified ==> r.Denied?) && s' == s
  {
  }

  lemma Extend(ttl: int, acts: seq<Action>, s: State, a: Action)
    requires Run(ttl, acts) == Some(s) && Fresh(s, a) && Presentable(s, a)
    ensures Run(ttl, acts + [a]) == Some(Step(s, a, ttl).0)
  {
    assert (acts + [a])[..|acts|] == acts;
  }

  /** From every reachable state a client with a permitted audience can be issued tokens that verify. */
  lemma ClientCanBeServed(ttl: int, acts: seq<Action>, s: State, a: Action, now: real)
    requires Run(ttl, acts) == Some(s) && a.Issue? && ttl > 0
    requires a.call !in s.pending && a.newFam !in s.uuids && a.newJti !in s.uuids && a.newFam != a.newJti
    requires a.audience in a.audiences && forall x :: x in a.audiences ==> x in AUDIENCES
    ensures Run(ttl, acts + [a] + [Emit(a.call, now)]).Some?
    ensures var late := Run(ttl, acts + [a] + [Emit(a.call, now)]).value;
      && |late.emitted| == |s.emitted| + 1
      && Step(late, VerifyAccess(late.emitted[|s.emitted|].access, a.audience, now), ttl).1 == Verified
  {
    RunKeepsInv(ttl, acts);
    Extend(ttl, acts, s, a);
    Extend(ttl, acts + [a], Step(s, a, ttl).0, Emit(a.call, now));
  }

  /** A client that holds the current token of a live family can always rotate it and go on. */
  lemma ClientCanRotate(ttl: int, acts: seq<Action>, s: State, i: nat, call: nat, audience: string, newJti: Id, now: real)
    requires Run(ttl, acts) == Some(s) && i < |s.emitted| && ttl > 0
    requires call !in s.pending && newJti !in s.uuids
    requires var t := s.emitted[i].refresh;
      && Live(s, t.fam) && t.jti == s.families[t.fam].currentJti && now < t.exp as real
      && audience in s.families[t.fam].audiences
    ensures var rotate := Refresh(call, s.emitted[i].refresh, audience, newJti, now);
      && Run(ttl, acts + [rotate] + [Emit(call, now)]).Some?
      && var late := Run(ttl, acts + [rotate] + [Emit(call, now)]).value;
      && |late.emitted| == |s.emitted| + 1
      && Live(late, s.emitted[i].refresh.fam)
      && late.emitted[|s.emitted|].refresh.jti == late.families[s.emitted[i].refresh.fam].currentJti == newJti
      && Step(late, VerifyAccess(late.emitted[|s.emitted|].access, audience, now), ttl).1 == Verified
  {
    RunKeepsInv(ttl, acts);
    var rotate := Refresh(call, s.emitted[i].refresh, audience, newJti, now);
    Extend(ttl, acts, s, rotate);
    var next := Step(s, rotate, ttl).0;
    EmitsOwnJti(ttl, acts + [rotate], next, call, now);
    Extend(ttl, acts + [rotate], next, Emit(call, now));
  }

  // ---------------------------------------------------------------- why emission must come first

  /**
   If the current jti could be presented before it was emitted, the tokens of
   two calls would carry the same jti.
   */
  lemma UnemittedPresentationBreaksOwnership(s: State, c: nat, d: nat, token: RefreshToken, newJti: Id, now: real, ttl: int)
    requires Inv(s) && c in s.pending && d !in s.pending && newJti !in s.uuids
    requires var p := s.pending[c];
      && token.fam == p.fam && token.jti == p.own && now < token.exp as real
      && Live(s, p.fam) && p.audience in AUDIENCES
    ensures var s1 := Step(s, Refresh(d, token, s.pending[c].audience, newJti, now), ttl).0;
      && Fresh(s1, Emit(c, now))
      && var (s2, r2) := Step(s1, Emit(c, now), ttl);
      && Fresh(s2, Emit(d, now))
      && var r3 := Step(s2, Emit(d, now), ttl).1;
      && r2.Tokens? && r3.Tokens?
      && r2.emission.refresh.jti == r3.emission.refresh.jti == newJti != r2.emission.own
  {
  }
}
